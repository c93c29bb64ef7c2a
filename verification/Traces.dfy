/** What one uninterrupted run of a process job sends, message by message. */
module Traces {
  import opened Basics
  import opened Secs
  import opened Hsms
  import opened Gem300
  import opened Fab
  import opened FabEffects
  import opened Interleaving
  import opened Protocol
  import opened Pairing
  import opened RecipeBooks
  import Drift
  import Gem

  // ----- a runner left alone -----

  /** The backend, as its answer for each position in the wafer list. */
  type Plan = nat -> bool

  function Answer(pc: Pc, plan: Plan): bool {
    pc.Planning? && plan(pc.k)
  }

  function Leg(pc: Pc): nat {
    match pc
    case Starting(_) => 5
    case Checking(_) => 4
    case Fetching(_) => 3
    case Entering(_, _, _) => 2
    case Planning(_, _, _) => 2
    case Leaving(_, _, _) => 2
    case Failing(_) => 1
    case _ => 0
  }

  function Ahead(pc: Pc): int {
    match pc
    case Entering(_, ws, k) => 3 * (|ws| - k)
    case Planning(_, ws, k) => 3 * (|ws| - k) - 1
    case Leaving(_, ws, k) => 3 * (|ws| - k) - 2
    case Finishing(_, _) => 1
    case _ => 0
  }

  /** Where a runner ends up and all it sent. */
  datatype Solo = Solo(fab: Fab, out: seq<Message>, pc: Pc)

  /** The runner goes on to its end with no other connection moving. */
  function Alone(f: Fab, pc: Pc, plan: Plan): Solo
    decreases Leg(pc), Ahead(pc)
  {
    if !Running(pc) || !WellPlaced(pc) then Solo(f, [], pc) else
    var t := RunnerStep(f, pc, Answer(pc, plan));
    var rest := Alone(t.section.fab, t.pc, plan);
    rest.(out := t.section.send + rest.out)
  }

  lemma AloneStep(f: Fab, pc: Pc, plan: Plan, send: seq<Message>, g: Fab, next: Pc)
    requires Running(pc) && WellPlaced(pc)
    requires var t := RunnerStep(f, pc, Answer(pc, plan)); t.pc == next && t.section.fab == g && t.section.send == send
    ensures var a, b := Alone(f, pc, plan), Alone(g, next, plan);
            a.fab == b.fab && a.pc == b.pc && a.out == send + b.out
  {
    hide RunnerStep;
  }

  lemma AloneStill(f: Fab, plan: Plan)
    ensures Alone(f, Serving, plan) == Solo(f, [], Serving)
  {
  }

  function AloneSteps(f: Fab, pc: Pc, plan: Plan, c: nat): seq<Step>
    decreases Leg(pc), Ahead(pc)
  {
    if !Running(pc) || !WellPlaced(pc) then [] else
    var t := RunnerStep(f, pc, Answer(pc, plan));
    [Advance(c, Answer(pc, plan))] + AloneSteps(t.section.fab, t.pc, plan, c)
  }

  /** Running alone is one of the schedules. */
  lemma {:induction false} AloneIsARun(s: System, c: nat, plan: Plan)
    requires c in s.connections
    ensures var Connection(pc, out) := s.connections[c];
            var solo := Alone(s.fab, pc, plan);
            var s' := Run(s, AloneSteps(s.fab, pc, plan, c));
            s'.fab == solo.fab && s'.connections == s.connections[c := Connection(solo.pc, out + solo.out)]
    decreases Leg(s.connections[c].pc), Ahead(s.connections[c].pc)
  {
    hide RunnerStep, Next, Leg, Ahead;
    var Connection(pc, out) := s.connections[c];
    if Running(pc) && WellPlaced(pc) {
      var a := Advance(c, Answer(pc, plan));
      var t := RunnerStep(s.fab, pc, Answer(pc, plan));
      AdvanceNext(s, c, Answer(pc, plan));
      var s1 := Next(s, a);
      LegsDescend(s.fab, pc, Answer(pc, plan));
      AloneIsARun(s1, c, plan);
      var rest := AloneSteps(t.section.fab, t.pc, plan, c);
      assert AloneSteps(s.fab, pc, plan, c) == [a] + rest;
      RunCons(s, a, rest);
      var solo := Alone(t.section.fab, t.pc, plan);
      assert (out + t.section.send) + solo.out == out + (t.section.send + solo.out);
    } else {
      assert out + [] == out && s.connections == s.connections[c := s.connections[c]];
    }
  }

  lemma RunCons(s: System, a: Step, rest: seq<Step>)
    ensures Run(s, [a] + rest) == Run(Next(s, a), rest)
  {
    hide Next;
    assert ([a] + rest)[1..] == rest;
  }

  lemma LegsDescend(f: Fab, pc: Pc, accepts: bool)
    requires Running(pc) && WellPlaced(pc)
    ensures var pc' := RunnerStep(f, pc, accepts).pc;
            Leg(pc') < Leg(pc) || (Leg(pc') == Leg(pc) && 0 <= Ahead(pc') < Ahead(pc))
  {
    hide PhaseOne, PhaseThree, MoveWafer;
  }

  // ----- what a message announces -----

  /** An event's id with the values it reports, or an alarm's id with whether it is set. */
  datatype Notice = Notice(code: int, values: seq<Item>)

  function ReportedValue(report: Item): Item {
    if report.L? && |report.items| == 2 then report.items[1] else report
  }

  function NoticeOf(m: Message): Notice {
    var parts := if m.item.Some? && m.item.value.L? then m.item.value.items else [];
    if |parts| != 3 || !parts[1].Num? || parts[1].vals == [] then Notice(-1, []) else
    Notice(parts[1].vals[0],
           if parts[2].L? then seq(|parts[2].items|, i requires 0 <= i < |parts[2].items| => ReportedValue(parts[2].items[i]))
           else [parts[0]])
  }

  const SET := B([1])

  function Notices(ms: seq<Message>): seq<Notice> {
    seq(|ms|, i requires 0 <= i < |ms| => NoticeOf(ms[i]))
  }

  lemma NoticesConcat(x: seq<Message>, y: seq<Message>)
    ensures Notices(x + y) == Notices(x) + Notices(y)
  {
  }

  lemma NoticeOfEvent(g: Gem.State, ceid: nat, reports: seq<(string, Item)>)
    ensures NoticeOf(Gem.MakeEvent(g, ceid, reports).message) ==
              Notice(ceid, seq(|reports|, i requires 0 <= i < |reports| => reports[i].1))
  {
    var items := Gem.ReportItems(reports);
    assert forall i :: 0 <= i < |reports| ==> ReportedValue(items[i]) == reports[i].1;
  }

  lemma NoticeOfEventFor(g: Gem.State, ceid: nat, subject: string, note: string)
    ensures NoticeOf(EventFor(g, ceid, subject, note).message) == Notice(ceid, [A(subject), A(note)])
  {
    NoticeOfEvent(g, ceid, [("SubjectID", A(subject)), ("Note", A(note))]);
  }

  // ----- the parts of a run -----

  function LaunchNotices(pj: Id, lot: Id): seq<Notice> {
    [Notice(6001, [A(pj), A("RUNNING")]), Notice(6001, [A(pj), A("RUNNING")]),
     Notice(6002, [A(pj), A("RUNNING")]), Notice(7002, [A(lot), A("RUNNING")])]
  }

  lemma LaunchMessagesNotices(g: Gem.State, pj: Id)
    ensures Notices(LaunchMessages(g, pj)) == LaunchNotices(pj, "")[..3]
  {
    var b1 := EventFor(g, 6001, pj, "RUNNING");
    var b2 := EventFor(b1.gem, 6001, pj, "RUNNING");
    NoticeOfEventFor(g, 6001, pj, "RUNNING");
    NoticeOfEventFor(b1.gem, 6001, pj, "RUNNING");
    NoticeOfEventFor(b2.gem, 6002, pj, "RUNNING");
    hide NoticeOf, EventFor;
  }

  /** The active lot moves and says so. */
  lemma ActiveLotNotices(f: Fab, to: LotState, note: string, i: nat)
    requires Books(f) && FirstActive(f, i) && LotEventOf(f.lots[i].state, to).Some?
    ensures var s := MoveActiveLot(f, to, note);
            && s.turn == Onward && s.fab == f.(gem := s.fab.gem, lots := MovedTo(f.lots, i, to))
            && s.fab.gem.alarms == f.gem.alarms
            && Notices(s.send) == [Notice(LotEventOf(f.lots[i].state, to).value, [A(f.lots[i].id), A(note)])]
  {
    ActiveIsFirst(f.lots, f.wafers, i);
    FindAt(f.lots, i);
    var e := LotEventOf(f.lots[i].state, to).value;
    NoticeOfEventFor(f.gem, e, f.lots[i].id, note);
    hide NoticeOf, Books, FirstActive;
  }

  /** Nothing has changed but the identifiers and statuses of the engine, the jobs and the lots. */
  predicate SameFloorAndAlarms(f: Fab, g: Fab) {
    g.gem.alarms == f.gem.alarms && g.registry == f.registry && g.wafers == f.wafers
  }

  lemma PhaseOneLaunches(f: Fab, pj: Id)
    requires LaunchesJob(f, pj)
    ensures PhaseOne(f, pj) == Launch(f, pj)
  {
    hide Launch, MayRun, Refuse;
  }

  /** Phase 1 of a job whose lot is the active one. */
  lemma LaunchTrace(f: Fab, pj: Id, i: nat)
    requires Books(f) && LaunchesJob(f, pj) && FirstActive(f, i) && f.lots[i].state == InQueue
    ensures var s := PhaseOne(f, pj);
            && s.turn == Onward && SameFloorAndAlarms(f, s.fab)
            && s.fab.jobs == WithJobState(f.jobs, pj, Executing) && s.fab.lots == MovedTo(f.lots, i, InProcessing)
            && Notices(s.send) == LaunchNotices(pj, f.lots[i].id)
  {
    hide PhaseOne, RunMoves, MayRun, NoticeOf, GemAfterLaunch, LaunchMessages, Notices, WithJobState, MovedTo, HasKnownWafer, Books;
    PhaseOneLaunches(f, pj);
    LaunchMoves(f, pj);
    GemAfterLaunchKeeps(f.gem, pj);
    LaunchMessagesNotices(f.gem, pj);
    var s1 := RunMoves(f, pj, TO_EXECUTING);
    BooksAfterJobMove(f, s1.fab, pj, Executing);
    ActiveLotNotices(s1.fab, InProcessing, "RUNNING", i);
    var s2 := MoveActiveLot(s1.fab, InProcessing, "RUNNING");
    hide MoveActiveLot, FirstActive;
    NoticesConcat(s1.send, s2.send);
    assert LaunchNotices(pj, "")[..3] + [Notice(7002, [A(f.lots[i].id), A("RUNNING")])] == LaunchNotices(pj, f.lots[i].id);
  }

  function MoveNotice(w: Id, from: Location, to: Location): Notice {
    Notice(5001, [A(w), A(FormatLocation(from)), A(FormatLocation(to))])
  }

  /** Two reports per wafer, in list order: into the chamber and out of it. */
  function MoveNotices(wafers: Wafers, ws: seq<Id>, k: nat, stop: nat): seq<Notice>
    requires k <= stop <= |ws| && forall w :: w in ws ==> w in wafers
    decreases stop - k
  {
    if k == stop then [] else
    [MoveNotice(ws[k], wafers[ws[k]].location, LITHO), MoveNotice(ws[k], LITHO, Fixed)] + MoveNotices(wafers, ws, k + 1, stop)
  }

  lemma MoveWaferNotice(f: Fab, w: Id, to: Location)
    requires w in f.wafers
    ensures var s := MoveWafer(f, w, to);
            && s.fab == f.(gem := s.fab.gem, wafers := f.wafers[w := f.wafers[w].(location := to)])
            && s.fab.gem.alarms == f.gem.alarms
            && Notices(s.send) == [MoveNotice(w, f.wafers[w].location, to)]
  {
    var from := f.wafers[w].location;
    var reports := [("SubstrateID", A(w)), ("FromLocation", A(FormatLocation(from))), ("ToLocation", A(FormatLocation(to)))];
    NoticeOfEvent(f.gem, 5001, reports);
    assert seq(|reports|, i requires 0 <= i < |reports| => reports[i].1) == [A(w), A(FormatLocation(from)), A(FormatLocation(to))];
    hide NoticeOf, FormatLocation;
  }

  /** A run of the wafer loop: the state in which the runner reaches `stop`. */
  ghost predicate LoopReaches(f: Fab, pj: Id, ws: seq<Id>, k: nat, stop: nat, plan: Plan, g: Fab)
    requires k <= stop <= |ws| && forall w :: w in ws ==> w in f.wafers
  {
    var a, b := Alone(f, Loop(pj, ws, k), plan), Alone(g, Loop(pj, ws, stop), plan);
    && a.fab == b.fab && a.pc == b.pc
    && Notices(a.out) == MoveNotices(f.wafers, ws, k, stop) + Notices(b.out)
    && g.jobs == f.jobs && g.lots == f.lots && g.registry == f.registry && g.gem.alarms == f.gem.alarms
    && g.wafers.Keys == f.wafers.Keys
    && (forall w :: w in f.wafers ==> g.wafers[w].lot == f.wafers[w].lot)
    && (forall j :: stop <= j < |ws| ==> g.wafers[ws[j]] == f.wafers[ws[j]])
  }

  /** The three steps of one accepted wafer. */
  lemma WaferSteps(f: Fab, pj: Id, ws: seq<Id>, k: nat, plan: Plan)
    requires k < |ws| && plan(k)
    ensures var s1 := MoveWafer(f, ws[k], LITHO);
            var s2 := MoveWafer(s1.fab, ws[k], Fixed);
            var a, b := Alone(f, Entering(pj, ws, k), plan), Alone(s2.fab, Loop(pj, ws, k + 1), plan);
            a.fab == b.fab && a.pc == b.pc && a.out == s1.send + (s2.send + b.out)
  {
    hide MoveWafer, Alone, PhaseOne, PhaseThree, RaiseBackendAlarm, Loop;
    var s1 := MoveWafer(f, ws[k], LITHO);
    var s2 := MoveWafer(s1.fab, ws[k], Fixed);
    AloneStep(s1.fab, Leaving(pj, ws, k), plan, s2.send, s2.fab, Loop(pj, ws, k + 1));
    AloneStep(s1.fab, Planning(pj, ws, k), plan, [], s1.fab, Leaving(pj, ws, k));
    AloneStep(f, Entering(pj, ws, k), plan, s1.send, s1.fab, Planning(pj, ws, k));
    hide RunnerStep;
    var a3 := Alone(s1.fab, Leaving(pj, ws, k), plan);
    assert [] + a3.out == a3.out;
  }

  /** One accepted wafer. */
  lemma WaferTrace(f: Fab, pj: Id, ws: seq<Id>, k: nat, plan: Plan) returns (g: Fab)
    requires k < |ws| && (forall w :: w in ws ==> w in f.wafers) && NoRepeats(ws) && plan(k)
    ensures LoopReaches(f, pj, ws, k, k + 1, plan, g)
  {
    var w := ws[k];
    var s1 := MoveWafer(f, w, LITHO);
    MoveWaferNotice(f, w, LITHO);
    var s2 := MoveWafer(s1.fab, w, Fixed);
    MoveWaferNotice(s1.fab, w, Fixed);
    g := s2.fab;
    WaferSteps(f, pj, ws, k, plan);
    hide MoveWafer, Alone, Notices, MoveNotice;
    var b := Alone(g, Loop(pj, ws, k + 1), plan);
    NoticesConcat(s2.send, b.out);
    NoticesConcat(s1.send, s2.send + b.out);
    MoveNoticesOne(f.wafers, ws, k);
    hide MoveNotices;
  }

  lemma MoveNoticesOne(wafers: Wafers, ws: seq<Id>, k: nat)
    requires k < |ws| && forall w :: w in ws ==> w in wafers
    ensures MoveNotices(wafers, ws, k, k + 1) == [MoveNotice(ws[k], wafers[ws[k]].location, LITHO), MoveNotice(ws[k], LITHO, Fixed)]
  {
    assert MoveNotices(wafers, ws, k + 1, k + 1) == [];
  }

  lemma LoopJoins(f: Fab, h: Fab, g: Fab, pj: Id, ws: seq<Id>, k: nat, mid: nat, stop: nat, plan: Plan)
    requires k < mid == k + 1 <= stop <= |ws| && (forall w :: w in ws ==> w in f.wafers)
    requires LoopReaches(f, pj, ws, k, mid, plan, h) && LoopReaches(h, pj, ws, mid, stop, plan, g)
    ensures LoopReaches(f, pj, ws, k, stop, plan, g)
  {
    hide Alone, NoticeOf, Notices;
    MoveNoticesFrame(f.wafers, h.wafers, ws, mid, stop);
    assert MoveNotices(f.wafers, ws, k, stop) == MoveNotices(f.wafers, ws, k, mid) + MoveNotices(f.wafers, ws, mid, stop) by {
      assert MoveNotices(f.wafers, ws, mid, mid) == [];
    }
  }

  /** The loop over accepted wafers. */
  lemma {:induction false} LoopTrace(f: Fab, pj: Id, ws: seq<Id>, k: nat, stop: nat, plan: Plan) returns (g: Fab)
    requires k <= stop <= |ws| && (forall w :: w in ws ==> w in f.wafers) && NoRepeats(ws)
    requires forall j: nat :: k <= j < stop ==> plan(j)
    ensures LoopReaches(f, pj, ws, k, stop, plan, g)
    decreases stop - k
  {
    hide Alone, NoticeOf, Notices;
    if k == stop {
      g := f;
      assert [] + Notices(Alone(f, Loop(pj, ws, k), plan).out) == Notices(Alone(f, Loop(pj, ws, k), plan).out);
    } else {
      var h := WaferTrace(f, pj, ws, k, plan);
      g := LoopTrace(h, pj, ws, k + 1, stop, plan);
      hide LoopReaches;
      LoopJoins(f, h, g, pj, ws, k, k + 1, stop, plan);
    }
  }

  lemma {:induction false} MoveNoticesFrame(wafers: Wafers, wafers': Wafers, ws: seq<Id>, k: nat, stop: nat)
    requires k <= stop <= |ws| && (forall w :: w in ws ==> w in wafers && w in wafers')
    requires forall j :: k <= j < |ws| ==> wafers'[ws[j]] == wafers[ws[j]]
    ensures MoveNotices(wafers', ws, k, stop) == MoveNotices(wafers, ws, k, stop)
    decreases stop - k
  {
    if k < stop {
      MoveNoticesFrame(wafers, wafers', ws, k + 1, stop);
    }
  }

  function FinishNotices(pj: Id, lot: Id, failed: bool): seq<Notice> {
    var note := if failed then "ABORTED" else "DONE";
    [Notice(if failed then 6004 else 6003, [A(pj), A(note)]), Notice(if failed then 7004 else 7003, [A(lot), A(note)])]
  }

  /** Phase 3 of a job whose lot is the active one. */
  lemma PhaseThreeTrace(f: Fab, pj: Id, i: nat, failed: bool)
    requires Books(f) && pj in f.registry && pj in f.jobs && f.jobs[pj].state == Executing
    requires FirstActive(f, i) && f.lots[i].state == InProcessing
    ensures var t := PhaseThree(f, pj, failed);
            && t.turn == Over
            && t.fab.jobs == WithJobState(f.jobs, pj, EndState(failed)) && t.fab.lots == MovedTo(f.lots, i, LotEndState(failed))
            && Notices(t.send) == FinishNotices(pj, f.lots[i].id, failed)
  {
    var note := if failed then "ABORTED" else "DONE";
    var ceid := if failed then 6004 else 6003;
    var Built(g, event) := EventFor(f.gem, ceid, pj, note);
    NoticeOfEventFor(f.gem, ceid, pj, note);
    var f1 := f.(gem := g, jobs := WithJobState(f.jobs, pj, EndState(failed)));
    BooksAfterJobMove(f, f1, pj, EndState(failed));
    hide Books, NoticeOf;
    ActiveLotNotices(f1, LotEndState(failed), note, i);
    var s := MoveActiveLot(f1, LotEndState(failed), note);
    PhaseThreeIs(f, pj, failed);
    hide MoveActiveLot, WithJobState, FirstActive, PhaseThree, Notices;
    NoticesConcat([event], s.send);
    NoticesOne(event);
  }

  lemma NoticesOne(m: Message)
    ensures Notices([m]) == [NoticeOf(m)]
  {
  }

  lemma PhaseThreeIs(f: Fab, pj: Id, failed: bool)
    requires pj in f.registry && pj in f.jobs && f.jobs[pj].state == Executing
    ensures var note := if failed then "ABORTED" else "DONE";
            var Built(g, event) := EventFor(f.gem, if failed then 6004 else 6003, pj, note);
            var s := MoveActiveLot(f.(gem := g, jobs := WithJobState(f.jobs, pj, EndState(failed))), LotEndState(failed), note);
            var t := PhaseThree(f, pj, failed);
            && t.send == [event] + s.send && t.turn == Over
            && t.fab.jobs == s.fab.jobs && t.fab.lots == s.fab.lots
  {
    hide MoveActiveLot, EventFor;
  }

  lemma FinishingTurn(f: Fab, pj: Id, failed: bool)
    ensures var s := PhaseThree(f, pj, failed);
            RunnerStep(f, Finishing(pj, failed), false) == Turned(s, if s.turn == Dropped then Closed else Serving)
  {
    hide PhaseThree;
  }

  lemma StartingTurn(f: Fab, pj: Id)
    requires PhaseOne(f, pj).turn == Onward
    ensures RunnerStep(f, Starting(pj), false) == Turned(PhaseOne(f, pj), Checking(pj))
  {
    hide PhaseOne;
  }

  lemma CheckingTurns(f: Fab, pj: Id)
    ensures Started(f, pj) ==> RunnerStep(f, Checking(pj), false) == Turned(Section(f, Onward, [], []), Fetching(pj))
    ensures pj in f.jobs ==> RunnerStep(f, Fetching(pj), false) == Turned(Section(f, Onward, [], []), Loop(pj, f.jobs[pj].wafers, 0))
  {
    hide PhaseOne;
  }

  lemma FinishTrace(f: Fab, pj: Id, i: nat, failed: bool, plan: Plan)
    requires Books(f) && pj in f.registry && pj in f.jobs && f.jobs[pj].state == Executing
    requires FirstActive(f, i) && f.lots[i].state == InProcessing
    ensures var a := Alone(f, Finishing(pj, failed), plan);
            && a.pc == Serving
            && a.fab.jobs == WithJobState(f.jobs, pj, EndState(failed)) && a.fab.lots == MovedTo(f.lots, i, LotEndState(failed))
            && Notices(a.out) == FinishNotices(pj, f.lots[i].id, failed)
  {
    hide PhaseOne, PhaseThree, Notices, Books, FirstActive, WithJobState, MovedTo, Alone, FinishNotices, RunnerStep;
    PhaseThreeTrace(f, pj, i, failed);
    var t := PhaseThree(f, pj, failed);
    AloneStill(t.fab, plan);
    FinishingTurn(f, pj, failed);
    AloneStep(f, Finishing(pj, failed), plan, t.send, t.fab, Serving);
    assert t.send + [] == t.send;
  }

  lemma BooksAfterJobMove(f: Fab, f1: Fab, pj: Id, to: JobState)
    requires Books(f) && pj in f.jobs && f1 == f.(gem := f1.gem, jobs := WithJobState(f.jobs, pj, to))
    ensures Books(f1)
  {
    assert OneLotMoves(f.lots, f1.lots, 0);
    MovesKeepBooks(f, f1);
  }

  // ----- whole runs -----

  /** A queued job that may run, with distinct registered wafers, whose lot to be moved is at `i`. */
  ghost predicate ReadyToRun(f: Fab, pj: Id, i: nat) {
    && Books(f) && LaunchesJob(f, pj) && FirstActive(f, i) && f.lots[i].state == InQueue
    && NoRepeats(f.jobs[pj].wafers) && forall w :: w in f.jobs[pj].wafers ==> w in f.wafers
  }

  /** From START to the wafer loop. */
  lemma UntilLoop(f: Fab, pj: Id, i: nat, plan: Plan)
    requires ReadyToRun(f, pj, i)
    ensures var s := PhaseOne(f, pj);
            var a, b := Alone(f, Starting(pj), plan), Alone(s.fab, Loop(pj, f.jobs[pj].wafers, 0), plan);
            && a.fab == b.fab && a.pc == b.pc && Notices(a.out) == LaunchNotices(pj, f.lots[i].id) + Notices(b.out)
  {
    LaunchTrace(f, pj, i);
    hide PhaseOne, PhaseThree, NoticeOf, ReadyToRun, Books, FirstActive, MovedTo, Notices, Alone, LaunchNotices, RunnerStep, MayRun;
    var s := PhaseOne(f, pj);
    var ws := f.jobs[pj].wafers;
    StartingTurn(f, pj);
    CheckingTurns(s.fab, pj);
    AloneStep(s.fab, Fetching(pj), plan, [], s.fab, Loop(pj, ws, 0));
    AloneStep(s.fab, Checking(pj), plan, [], s.fab, Fetching(pj));
    AloneStep(f, Starting(pj), plan, s.send, s.fab, Checking(pj));
    var b := Alone(s.fab, Loop(pj, ws, 0), plan);
    assert [] + b.out == b.out && [] + ([] + b.out) == b.out;
    NoticesConcat(s.send, b.out);
  }

  /** The state in which a runner of `pj` meets the wafer loop. */
  ghost predicate InTheLoop(f: Fab, pj: Id, i: nat) {
    && Books(f) && FirstActive(f, i) && f.lots[i].state == InProcessing
    && pj in f.registry && pj in f.jobs && f.jobs[pj].state == Executing
  }

  lemma AfterLaunch(f: Fab, pj: Id, i: nat) returns (f1: Fab)
    requires ReadyToRun(f, pj, i)
    ensures f1 == PhaseOne(f, pj).fab && SameFloorAndAlarms(f, f1) && InTheLoop(f1, pj, i)
    ensures i < |f.lots| && f1.lots[i].id == f.lots[i].id
  {
    LaunchTrace(f, pj, i);
    f1 := PhaseOne(f, pj).fab;
    StartingBooks(f, pj);
    hide PhaseOne, MayRun, Books;
    MovedStaysActive(f, f1, i);
  }

  lemma MovedStaysActive(f: Fab, f1: Fab, i: nat)
    requires FirstActive(f, i) && f.lots[i].state == InQueue && f1.wafers == f.wafers && f1.lots == MovedTo(f.lots, i, InProcessing)
    ensures FirstActive(f1, i) && f1.lots[i].state == InProcessing && f1.lots[i].id == f.lots[i].id
  {
    assert f1.lots[i].wafers == f.lots[i].wafers;
    assert HasKnownWafer(f1.wafers, f1.lots[i]);
    assert forall j :: 0 <= j < i ==> f1.lots[j] == f.lots[j];
  }

  /** The books, and the active lot, as the runner finds them after the loop. */
  lemma AfterLoop(f: Fab, g: Fab, pj: Id, i: nat)
    requires InTheLoop(f, pj, i) && g.jobs == f.jobs && g.lots == f.lots && g.registry == f.registry
    requires g.wafers.Keys == f.wafers.Keys && forall w :: w in f.wafers ==> g.wafers[w].lot == f.wafers[w].lot
    ensures InTheLoop(g, pj, i)
  {
    assert OneLotMoves(f.lots, g.lots, 0);
    MovesKeepBooks(f, g);
    hide Books;
  }

  /** The end of a job met in the loop. */
  lemma LoopEnds(f: Fab, pj: Id, i: nat, failed: bool, plan: Plan)
    requires InTheLoop(f, pj, i)
    ensures i < |f.lots|
    ensures var a := Alone(f, Finishing(pj, failed), plan);
            && a.pc == Serving && pj in a.fab.jobs && a.fab.jobs[pj].state == EndState(failed)
            && i < |a.fab.lots| && a.fab.lots[i].id == f.lots[i].id && a.fab.lots[i].state == LotEndState(failed)
            && Notices(a.out) == FinishNotices(pj, f.lots[i].id, failed)
  {
    FinishTrace(f, pj, i, failed, plan);
    hide Alone, Notices, Books, FinishNotices;
  }

  /** A run whose every plan is accepted: three job reports and the lot's, two reports per wafer in
      order, then the job's and the lot's completion, and nothing else. */
  lemma AcceptedRun(f: Fab, pj: Id, i: nat, plan: Plan)
    requires ReadyToRun(f, pj, i) && forall k: nat :: k < |f.jobs[pj].wafers| ==> plan(k)
    ensures var a, ws, lot := Alone(f, Starting(pj), plan), f.jobs[pj].wafers, f.lots[i].id;
            && a.pc == Serving
            && pj in a.fab.jobs && a.fab.jobs[pj].state == Completed
            && i < |a.fab.lots| && a.fab.lots[i].id == lot && a.fab.lots[i].state == LotCompleted
            && Notices(a.out) == LaunchNotices(pj, lot) + (MoveNotices(f.wafers, ws, 0, |ws|) + FinishNotices(pj, lot, false))
  {
    var ws := f.jobs[pj].wafers;
    UntilLoop(f, pj, i, plan);
    var f1 := AfterLaunch(f, pj, i);
    hide PhaseOne, ReadyToRun, Notices, Alone, InTheLoop, LaunchNotices, MoveNotices, FinishNotices;
    var g := LoopTrace(f1, pj, ws, 0, |ws|, plan);
    AfterLoop(f1, g, pj, i);
    assert Loop(pj, ws, |ws|) == Finishing(pj, false);
    LoopEnds(g, pj, i, false, plan);
  }

  /** A run whose backend refuses wafer `k`: the wafers before it go through, the refused one stays in the
      chamber, and the alarm, the abort and the hold follow. */
  lemma RefusedRun(f: Fab, pj: Id, i: nat, plan: Plan, k: nat)
    requires ReadyToRun(f, pj, i) && k < |f.jobs[pj].wafers| && BACKEND_ERROR in f.gem.alarms
    requires !plan(k) && forall j: nat :: j < k ==> plan(j)
    ensures var a, ws, lot := Alone(f, Starting(pj), plan), f.jobs[pj].wafers, f.lots[i].id;
            && a.pc == Serving
            && pj in a.fab.jobs && a.fab.jobs[pj].state == Aborted
            && i < |a.fab.lots| && a.fab.lots[i].id == lot && a.fab.lots[i].state == OnHold
            && Notices(a.out) == LaunchNotices(pj, lot) + (MoveNotices(f.wafers, ws, 0, k)
                 + ([MoveNotice(ws[k], f.wafers[ws[k]].location, LITHO), Notice(BACKEND_ERROR, [SET])] + FinishNotices(pj, lot, true)))
  {
    var ws := f.jobs[pj].wafers;
    UntilLoop(f, pj, i, plan);
    var f1 := AfterLaunch(f, pj, i);
    hide PhaseOne, ReadyToRun, Notices, Alone, InTheLoop, LaunchNotices, MoveNotices, FinishNotices, MoveNotice;
    var g := LoopTrace(f1, pj, ws, 0, k, plan);
    AfterLoop(f1, g, pj, i);
    var h := RefusedWafer(g, pj, ws, k, plan);
    AfterLoop(g, h, pj, i);
    LoopEnds(h, pj, i, true, plan);
  }

  lemma RefusedSteps(f: Fab, pj: Id, ws: seq<Id>, k: nat, plan: Plan)
    requires k < |ws| && !plan(k)
    ensures var s1 := MoveWafer(f, ws[k], LITHO);
            var s2 := RaiseBackendAlarm(s1.fab);
            var a, b := Alone(f, Entering(pj, ws, k), plan), Alone(s2.fab, Finishing(pj, true), plan);
            a.fab == b.fab && a.pc == b.pc && a.out == s1.send + (s2.send + b.out)
  {
    hide MoveWafer, RaiseBackendAlarm, Alone, PhaseOne, PhaseThree;
    var s1 := MoveWafer(f, ws[k], LITHO);
    var s2 := RaiseBackendAlarm(s1.fab);
    AloneStep(s1.fab, Failing(pj), plan, s2.send, s2.fab, Finishing(pj, true));
    AloneStep(s1.fab, Planning(pj, ws, k), plan, [], s1.fab, Failing(pj));
    AloneStep(f, Entering(pj, ws, k), plan, s1.send, s1.fab, Planning(pj, ws, k));
    hide RunnerStep;
    var a3 := Alone(s1.fab, Failing(pj), plan);
    assert [] + a3.out == a3.out;
  }

  lemma RefusedWafer(f: Fab, pj: Id, ws: seq<Id>, k: nat, plan: Plan) returns (g: Fab)
    requires k < |ws| && ws[k] in f.wafers && BACKEND_ERROR in f.gem.alarms && !plan(k)
    ensures var a, b := Alone(f, Loop(pj, ws, k), plan), Alone(g, Finishing(pj, true), plan);
            && a.fab == b.fab && a.pc == b.pc
            && Notices(a.out) == [MoveNotice(ws[k], f.wafers[ws[k]].location, LITHO), Notice(BACKEND_ERROR, [SET])] + Notices(b.out)
    ensures g.jobs == f.jobs && g.lots == f.lots && g.registry == f.registry && g.wafers.Keys == f.wafers.Keys
    ensures forall w :: w in f.wafers ==> g.wafers[w].lot == f.wafers[w].lot
  {
    var s1 := MoveWafer(f, ws[k], LITHO);
    MoveWaferNotice(f, ws[k], LITHO);
    var s2 := RaiseBackendAlarm(s1.fab);
    g := s2.fab;
    BackendAlarmNotice(s1.fab);
    RefusedSteps(f, pj, ws, k, plan);
    hide MoveWafer, RaiseBackendAlarm, Notices, Alone, MoveNotice;
    var b := Alone(g, Finishing(pj, true), plan);
    NoticesConcat(s2.send, b.out);
    NoticesConcat(s1.send, s2.send + b.out);
  }

  lemma BackendAlarmNotice(f: Fab)
    requires BACKEND_ERROR in f.gem.alarms
    ensures var s := RaiseBackendAlarm(f);
            s.fab == f.(gem := s.fab.gem) && Notices(s.send) == [Notice(BACKEND_ERROR, [SET])]
  {
  }

  /** The length and the codes of the wafer reports. */
  lemma {:induction false} MoveNoticesAre5001(wafers: Wafers, ws: seq<Id>, k: nat, stop: nat)
    requires k <= stop <= |ws| && forall w :: w in ws ==> w in wafers
    ensures |MoveNotices(wafers, ws, k, stop)| == 2 * (stop - k)
    ensures forall j :: 0 <= j < 2 * (stop - k) ==>
              MoveNotices(wafers, ws, k, stop)[j].code == 5001
              && MoveNotices(wafers, ws, k, stop)[j].values != [] && MoveNotices(wafers, ws, k, stop)[j].values[0] == A(ws[k + j / 2])
    decreases stop - k
  {
    if k < stop {
      MoveNoticesAre5001(wafers, ws, k + 1, stop);
      var first := [MoveNotice(ws[k], wafers[ws[k]].location, LITHO), MoveNotice(ws[k], LITHO, Fixed)];
      var all, rest := MoveNotices(wafers, ws, k, stop), MoveNotices(wafers, ws, k + 1, stop);
      assert all == first + rest;
      forall j | 0 <= j < 2 * (stop - k)
        ensures all[j].code == 5001 && all[j].values != [] && all[j].values[0] == A(ws[k + j / 2]) {
        if j >= 2 {
          assert all[j] == rest[j - 2] && (j - 2) / 2 == j / 2 - 1;
        }
      }
    }
  }

  /** Does the run, from here, get the same answers from both backends? Only the wafers it asks about matter. */
  predicate SameAnswers(f: Fab, pc: Pc, plan: Plan, plan': Plan)
    decreases Leg(pc), Ahead(pc)
  {
    Running(pc) && WellPlaced(pc) ==>
      && Answer(pc, plan) == Answer(pc, plan')
      && var t := RunnerStep(f, pc, Answer(pc, plan)); SameAnswers(t.section.fab, t.pc, plan, plan')
  }

  /** Backends are told apart by their answers alone: from any state and place, the same answers to what the
      run asks give the same messages, identifiers included, the same end state and the same place. */
  lemma {:induction false} SameAnswersSameRun(f: Fab, pc: Pc, plan: Plan, plan': Plan)
    requires SameAnswers(f, pc, plan, plan')
    ensures Alone(f, pc, plan) == Alone(f, pc, plan')
    decreases Leg(pc), Ahead(pc)
  {
    hide RunnerStep, Leg, Ahead;
    if Running(pc) && WellPlaced(pc) {
      LegsDescend(f, pc, Answer(pc, plan));
      var t := RunnerStep(f, pc, Answer(pc, plan));
      SameAnswersSameRun(t.section.fab, t.pc, plan, plan');
    }
  }

  /** Any two backends that accept every plan give the same run. */
  lemma {:induction false} AcceptingBackendsAgree(f: Fab, pc: Pc, plan: Plan, plan': Plan)
    requires forall k: nat :: plan(k) && plan'(k)
    ensures SameAnswers(f, pc, plan, plan') && Alone(f, pc, plan) == Alone(f, pc, plan')
    decreases Leg(pc), Ahead(pc)
  {
    hide RunnerStep, Leg, Ahead;
    if Running(pc) && WellPlaced(pc) {
      LegsDescend(f, pc, Answer(pc, plan));
      var t := RunnerStep(f, pc, Answer(pc, plan));
      AcceptingBackendsAgree(t.section.fab, t.pc, plan, plan');
    }
    SameAnswersSameRun(f, pc, plan, plan');
  }

  // ----- refusals before the start -----

  function DriftNotices(pj: Id): seq<Notice> {
    [Notice(DRIFT_OUT_OF_SPEC, [SET]), Notice(6004, [A(pj), A("ABORTED")])]
  }

  lemma NoticeOfAlarm(g: Gem.State, alid: nat)
    requires alid in g.alarms
    ensures NoticeOf(Gem.MakeAlarm(g, alid, true).value.message) == Notice(alid, [SET])
  {
  }

  lemma RefuseSends(f: Fab, pj: Id, job: Job)
    requires DRIFT_OUT_OF_SPEC in f.gem.alarms && CanAbort(f, pj)
    ensures var b := Gem.MakeAlarm(f.gem, DRIFT_OUT_OF_SPEC, true).value;
            Refuse(f, pj, job, true).send == [b.message, EventFor(b.gem, 6004, pj, "ABORTED").message]
  {
    hide HoldLot, EventFor, UpdateStatus;
  }

  predicate CanAbort(f: Fab, pj: Id) {
    pj in f.registry && pj in f.jobs && !Terminal(f.jobs[pj].state)
  }

  lemma RefusalMessages(f: Fab, pj: Id)
    requires RefusesJob(f, pj)
    ensures Notices(Refuse(f, pj, f.jobs[pj], true).send) == DriftNotices(pj)
  {
    RefuseSends(f, pj, f.jobs[pj]);
    NoticeOfAlarm(f.gem, DRIFT_OUT_OF_SPEC);
    hide Refuse, EventFor, NoticeOf, MayRun;
    var b := Gem.MakeAlarm(f.gem, DRIFT_OUT_OF_SPEC, true).value;
    hide Gem.MakeAlarm;
    NoticeOfEventFor(b.gem, 6004, pj, "ABORTED");
  }

  /** A live job with a known recipe that may not run: the alarm, the abort, and nothing else; the
      connection goes on serving. */
  lemma DriftRefusal(f: Fab, pj: Id, plan: Plan)
    requires RefusesJob(f, pj) && f.jobs[pj].recipe in f.recipes
    ensures var a := Alone(f, Starting(pj), plan);
            && a.pc == Serving && Notices(a.out) == DriftNotices(pj)
            && pj in a.fab.jobs && a.fab.jobs[pj].state == Aborted
  {
    var s := PhaseOne(f, pj);
    PhaseOneEffect(f, pj);
    RefusalMessages(f, pj);
    assert s == Refuse(f, pj, f.jobs[pj], true);
    hide PhaseOne, Refuse, Notices, Alone, MayRun;
    AloneStep(s.fab, Checking(pj), plan, [], s.fab, Serving);
    AloneStep(f, Starting(pj), plan, s.send, s.fab, Checking(pj));
    AloneStill(s.fab, plan);
    assert s.send + ([] + []) == s.send;
  }

  /** A live job with an unknown recipe is aborted without a word. */
  lemma UnknownRecipeRefusal(f: Fab, pj: Id, plan: Plan)
    requires RefusesJob(f, pj) && f.jobs[pj].recipe !in f.recipes
    ensures var a := Alone(f, Starting(pj), plan);
            a.pc == Serving && a.out == [] && pj in a.fab.jobs && a.fab.jobs[pj].state == Aborted
  {
    PhaseOneEffect(f, pj);
    hide PhaseOne;
    AloneStep(f, Starting(pj), plan, [], PhaseOne(f, pj).fab, Serving);
    AloneStill(PhaseOne(f, pj).fab, plan);
  }

  /** Any other job that cannot be launched, unknown ones included: the connection closes without a word
      and no job or lot has changed. */
  lemma StartImpossible(f: Fab, pj: Id, plan: Plan)
    requires !LaunchesJob(f, pj) && !RefusesJob(f, pj)
    ensures var a := Alone(f, Starting(pj), plan);
            a.pc == Closed && a.out == [] && a.fab.jobs == f.jobs && a.fab.lots == f.lots
  {
    PhaseOneEffect(f, pj);
    hide PhaseOne, LaunchesJob, RefusesJob;
    AloneStep(f, Starting(pj), plan, [], PhaseOne(f, pj).fab, Closed);
    assert Alone(PhaseOne(f, pj).fab, Closed, plan) == Solo(PhaseOne(f, pj).fab, [], Closed);
  }

  /** From any reachable state, a connection that has just answered START for a live job that may not run,
      left alone, sends exactly this after what it had sent, serves on, and leaves the job aborted: the
      alarm and the abort if the recipe is known, nothing if it is not. A recipe may not run exactly when
      the constants are out of their bands. */
  lemma ReachableJobRefused(device: u16, mdln: string, softrev: string, steps: seq<Step>, c: nat, pj: Id, plan: Plan)
    requires var s := Run(Initial(device, mdln, softrev), steps);
             && c in s.connections && s.connections[c].pc == Starting(pj)
             && pj in s.fab.jobs && !Terminal(s.fab.jobs[pj].state)
             && (s.fab.jobs[pj].recipe !in s.fab.recipes || !Drift.ConstantsInBand(s.fab.gem.ecids))
    ensures var s := Run(Initial(device, mdln, softrev), steps);
            var s' := Run(s, AloneSteps(s.fab, Starting(pj), plan, c));
            && c in s'.connections && s'.connections[c].pc == Serving && s.connections[c].out <= s'.connections[c].out
            && Notices(s'.connections[c].out[|s.connections[c].out|..])
               == (if s.fab.jobs[pj].recipe in s.fab.recipes then DriftNotices(pj) else [])
            && pj in s'.fab.jobs && s'.fab.jobs[pj].state == Aborted
  {
    var s := Run(Initial(device, mdln, softrev), steps);
    BootSound(device, mdln, softrev);
    RunSound(Initial(device, mdln, softrev), steps);
    AlarmsStayDefined(device, mdln, softrev, steps);
    Drift.JobsRunExactlyInBand(device, mdln, softrev, steps, pj);
    assert RefusesJob(s.fab, pj) by { hide Run, Initial, MayRun, Drift.ConstantsInBand; }
    hide Run, Initial, Alone, AloneSteps, Notices, MayRun, Drift.ConstantsInBand, Sound;
    if s.fab.jobs[pj].recipe in s.fab.recipes {
      DriftRefusal(s.fab, pj, plan);
    } else {
      UnknownRecipeRefusal(s.fab, pj, plan);
      NoNotices();
    }
    AloneIsARun(s, c, plan);
    var sent, out := s.connections[c].out, Alone(s.fab, Starting(pj), plan).out;
    assert (sent + out)[|sent|..] == out;
  }

  lemma NoNotices()
    ensures Notices([]) == []
  {
  }

  // ----- reachable runs -----

  /** From any reachable state in which at most one lot has ever been unfinished: a connection that has
      just answered START for a queued job that may run. */
  ghost predicate AboutToRun(device: u16, mdln: string, softrev: string, steps: seq<Step>, c: nat, pj: Id, i: nat) {
    var s := Run(Initial(device, mdln, softrev), steps);
    && SingleThroughout(Initial(device, mdln, softrev), steps)
    && Single(s.fab) && c in s.connections && s.connections[c].pc == Starting(pj)
    && LaunchesJob(s.fab, pj) && Owns(s.fab, pj, i)
  }

  /** Left alone from there, the connection sends exactly these reports after what it had sent, serves on,
      and leaves the job and its own lot in these states. */
  ghost predicate RunsTo(s: System, c: nat, pj: Id, i: nat, plan: Plan, notices: seq<Notice>, failed: bool) {
    var s' := Run(s, AloneSteps(s.fab, Starting(pj), plan, c));
    && c in s.connections && c in s'.connections && s'.connections[c].pc == Serving
    && s.connections[c].out <= s'.connections[c].out
    && Notices(s'.connections[c].out[|s.connections[c].out|..]) == notices
    && pj in s'.fab.jobs && s'.fab.jobs[pj].state == EndState(failed)
    && i < |s.fab.lots| && i < |s'.fab.lots| && s'.fab.lots[i].id == s.fab.lots[i].id
    && s'.fab.lots[i].state == LotEndState(failed)
  }

  lemma AboutToRunIsReady(device: u16, mdln: string, softrev: string, steps: seq<Step>, c: nat, pj: Id, i: nat)
    requires AboutToRun(device, mdln, softrev, steps, c, pj, i)
    ensures ReadyToRun(Run(Initial(device, mdln, softrev), steps).fab, pj, i)
  {
    Reachable(device, mdln, softrev, steps);
    var s := Run(Initial(device, mdln, softrev), steps);
    hide Run, Initial, HistoryExplains, SingleThroughout, MayRun;
    SingleIsActive(s.fab, i);
  }

  lemma SoloRunsTo(s: System, c: nat, pj: Id, i: nat, plan: Plan, notices: seq<Notice>, failed: bool)
    requires c in s.connections && s.connections[c].pc == Starting(pj) && i < |s.fab.lots|
    requires var a := Alone(s.fab, Starting(pj), plan);
             && a.pc == Serving && pj in a.fab.jobs && a.fab.jobs[pj].state == EndState(failed)
             && i < |a.fab.lots| && a.fab.lots[i].id == s.fab.lots[i].id && a.fab.lots[i].state == LotEndState(failed)
             && Notices(a.out) == notices
    ensures RunsTo(s, c, pj, i, plan, notices, failed)
  {
    hide Run, Alone, AloneSteps, Notices;
    AloneIsARun(s, c, plan);
    var sent, out := s.connections[c].out, Alone(s.fab, Starting(pj), plan).out;
    assert (sent + out)[|sent|..] == out;
  }

  /** With a backend that accepts, the run ends with the job and its lot completed. */
  lemma ReachableJobRuns(device: u16, mdln: string, softrev: string, steps: seq<Step>, c: nat, pj: Id, i: nat, plan: Plan)
    requires AboutToRun(device, mdln, softrev, steps, c, pj, i)
    requires forall k: nat :: k < |Run(Initial(device, mdln, softrev), steps).fab.jobs[pj].wafers| ==> plan(k)
    ensures var s := Run(Initial(device, mdln, softrev), steps);
            var ws, lot := s.fab.jobs[pj].wafers, s.fab.lots[i].id;
            && (forall w :: w in ws ==> w in s.fab.wafers)
            && RunsTo(s, c, pj, i, plan,
                      LaunchNotices(pj, lot) + (MoveNotices(s.fab.wafers, ws, 0, |ws|) + FinishNotices(pj, lot, false)), false)
  {
    AboutToRunIsReady(device, mdln, softrev, steps, c, pj, i);
    var s := Run(Initial(device, mdln, softrev), steps);
    hide Run, Initial, Alone, Notices, MoveNotices, LaunchNotices, FinishNotices, SingleThroughout, MayRun, RunsTo, Books;
    AcceptedRun(s.fab, pj, i, plan);
    var ws, lot := s.fab.jobs[pj].wafers, s.fab.lots[i].id;
    SoloRunsTo(s, c, pj, i, plan,
               LaunchNotices(pj, lot) + (MoveNotices(s.fab.wafers, ws, 0, |ws|) + FinishNotices(pj, lot, false)), false);
  }

  /** With a backend that refuses wafer `k` first, the run ends with the job aborted and its lot on hold. */
  lemma ReachableJobAborts(device: u16, mdln: string, softrev: string, steps: seq<Step>, c: nat, pj: Id, i: nat, plan: Plan, k: nat)
    requires AboutToRun(device, mdln, softrev, steps, c, pj, i)
    requires k < |Run(Initial(device, mdln, softrev), steps).fab.jobs[pj].wafers|
    requires !plan(k) && forall j: nat :: j < k ==> plan(j)
    ensures var s := Run(Initial(device, mdln, softrev), steps);
            var ws, lot := s.fab.jobs[pj].wafers, s.fab.lots[i].id;
            && (forall w :: w in ws ==> w in s.fab.wafers)
            && RunsTo(s, c, pj, i, plan,
                      LaunchNotices(pj, lot) + (MoveNotices(s.fab.wafers, ws, 0, k)
                        + ([MoveNotice(ws[k], s.fab.wafers[ws[k]].location, LITHO), Notice(BACKEND_ERROR, [SET])]
                           + FinishNotices(pj, lot, true))), true)
  {
    AboutToRunIsReady(device, mdln, softrev, steps, c, pj, i);
    AlarmsStayDefined(device, mdln, softrev, steps);
    var s := Run(Initial(device, mdln, softrev), steps);
    hide Run, Initial, Alone, Notices, MoveNotices, LaunchNotices, FinishNotices, MoveNotice, SingleThroughout, MayRun, RunsTo, Books;
    RefusedRun(s.fab, pj, i, plan, k);
    var ws, lot := s.fab.jobs[pj].wafers, s.fab.lots[i].id;
    SoloRunsTo(s, c, pj, i, plan,
               LaunchNotices(pj, lot) + (MoveNotices(s.fab.wafers, ws, 0, k)
                 + ([MoveNotice(ws[k], s.fab.wafers[ws[k]].location, LITHO), Notice(BACKEND_ERROR, [SET])]
                    + FinishNotices(pj, lot, true))), true);
  }
}
