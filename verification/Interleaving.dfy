/** Connections on separate threads sharing one state behind a mutex: every critical section is
    one atomic step, and any schedule of steps is a run. */
module Interleaving {
  import opened Basics
  import opened Hsms
  import opened Gem300
  import opened Fab
  import Gem

  /** Where one connection's thread stands between two critical sections. */
  datatype Pc =
    | Serving
    | Starting(pj: Id)
    | Checking(pj: Id)
    | Fetching(pj: Id)
    | Entering(pj: Id, wafers: seq<Id>, k: nat)
    | Planning(pj: Id, wafers: seq<Id>, k: nat)
    | Leaving(pj: Id, wafers: seq<Id>, k: nat)
    | Failing(pj: Id)
    | Finishing(pj: Id, failed: bool)
    | Closed

  /** A thread and everything it has handed to its socket so far. */
  datatype Connection = Connection(pc: Pc, out: seq<Message>)

  /** The shared state, the connections, and three logs kept for the properties: job starts that
      passed the started check, messages the equipment made on its own, and accepted uploads. */
  datatype System = System(
    fab: Fab,
    connections: map<nat, Connection>,
    passed: seq<Id>,
    made: seq<Message>,
    uploads: seq<(Id, bytes)>)

  datatype Step =
    | Connect(c: nat)
    | StageLot(lot: Id, wafers: seq<Id>, pj: Id, recipe: string)
    | Deliver(c: nat, message: Message)
    | Advance(c: nat, accepts: bool)  // the backend's answer matters only when it is asked
    | Stop(c: nat, lost: nat)  // the last messages it made may never leave

  /** What one step of a runner does: a critical section and the runner's next place. */
  datatype Turned = Turned(section: Section, pc: Pc)

  /** The loop over substrates: the next one, or on to phase 3. */
  function Loop(pj: Id, wafers: seq<Id>, k: nat): Pc {
    if k < |wafers| then Entering(pj, wafers, k) else Finishing(pj, false)
  }

  predicate Running(pc: Pc) {
    !pc.Serving? && !pc.Closed?
  }

  /** One step of `run_process_job`. */
  function RunnerStep(f: Fab, pc: Pc, accepts: bool): Turned
    requires Running(pc)
    requires pc.Entering? || pc.Planning? || pc.Leaving? ==> pc.k < |pc.wafers|
  {
    var nothing := Section(f, Onward, [], []);
    match pc
    case Starting(pj) =>
      var s := PhaseOne(f, pj);
      Turned(s, match s.turn case Dropped => Closed case Over => Serving case Onward => Checking(pj))
    case Checking(pj) => Turned(nothing, if Started(f, pj) then Fetching(pj) else Serving)
    case Fetching(pj) => Turned(nothing, Loop(pj, if pj in f.jobs then f.jobs[pj].wafers else [], 0))
    case Entering(pj, ws, k) => Turned(MoveWafer(f, ws[k], LITHO), Planning(pj, ws, k))
    case Planning(pj, ws, k) => Turned(nothing, if accepts then Leaving(pj, ws, k) else Failing(pj))
    case Leaving(pj, ws, k) => Turned(MoveWafer(f, ws[k], Fixed), Loop(pj, ws, k + 1))
    case Failing(pj) => Turned(RaiseBackendAlarm(f), Finishing(pj, true))
    case Finishing(pj, failed) =>
      var s := PhaseThree(f, pj, failed);
      Turned(s, if s.turn == Dropped then Closed else Serving)
  }

  predicate WellPlaced(pc: Pc) {
    pc.Entering? || pc.Planning? || pc.Leaving? ==> pc.k < |pc.wafers|
  }

  /** The accepted upload a message carries, if it is one. */
  function UploadOf(m: Message): seq<(Id, bytes)> {
    if m.header.sType == 0 && m.header.stream == 7 && m.header.fn == 3 then
      match Gem.Upload(m.item) case Some(u) => [u] case None => []
    else []
  }

  function WithoutLast(out: seq<Message>, lost: nat): (kept: seq<Message>)
    ensures kept <= out && (lost == 0 ==> kept == out)
  {
    if lost < |out| then out[..|out| - lost] else if lost == 0 then out else []
  }

  /** The next state; a step that is not possible where it is tried changes nothing. */
  function Next(s: System, a: Step): System {
    match a
    case Connect(c) =>
      if c in s.connections then s
      else s.(connections := s.connections[c := Connection(Serving, [])])
    case StageLot(lot, wafers, pj, recipe) => s.(fab := Stage(s.fab, lot, wafers, pj, recipe).fab)
    case Deliver(c, m) =>
      if c !in s.connections || s.connections[c].pc != Serving then s else
      var Served(f, reply, start) := Serve(s.fab, m);
      var out := s.connections[c].out + (match reply case Some(r) => [r] case None => []);
      s.(fab := f,
         connections := s.connections[c := Connection(match start case Some(pj) => Starting(pj) case None => Serving, out)],
         uploads := s.uploads + UploadOf(m))
    case Advance(c, accepts) =>
      if c !in s.connections || !Running(s.connections[c].pc) || !WellPlaced(s.connections[c].pc) then s else
      var Connection(pc, out) := s.connections[c];
      var Turned(section, pc') := RunnerStep(s.fab, pc, accepts);
      s.(fab := section.fab,
         connections := s.connections[c := Connection(pc', out + section.send)],
         passed := if pc.Checking? && pc'.Fetching? then s.passed + [pc.pj] else s.passed,
         made := s.made + section.made)
    case Stop(c, lost) =>
      if c !in s.connections then s
      else s.(connections := s.connections[c := Connection(Closed, WithoutLast(s.connections[c].out, lost))])
  }

  /** What a runner's step does to the whole system. */
  lemma AdvanceNext(s: System, c: nat, accepts: bool)
    requires c in s.connections && Running(s.connections[c].pc) && WellPlaced(s.connections[c].pc)
    ensures var Connection(pc, out) := s.connections[c];
            var t := RunnerStep(s.fab, pc, accepts);
            Next(s, Advance(c, accepts)) == s.(
              fab := t.section.fab,
              connections := s.connections[c := Connection(t.pc, out + t.section.send)],
              passed := if pc.Checking? && t.pc.Fetching? then s.passed + [pc.pj] else s.passed,
              made := s.made + t.section.made)
  {
    hide RunnerStep;
  }

  function Initial(device: u16, mdln: string, softrev: string): System {
    System(Boot(device, mdln, softrev), map[], [], [], [])
  }

  function Run(s: System, steps: seq<Step>): System
    decreases steps
  {
    if steps == [] then s else Run(Next(s, steps[0]), steps[1..])
  }

  /** A run may be cut anywhere. */
  lemma {:induction false} RunConcat(s: System, first: seq<Step>, after: seq<Step>)
    ensures Run(s, first + after) == Run(Run(s, first), after)
    decreases first
  {
    hide Next;
    if first == [] {
      assert first + after == after;
    } else {
      assert (first + after)[1..] == first[1..] + after;
      RunConcat(Next(s, first[0]), first[1..], after);
    }
  }
}
