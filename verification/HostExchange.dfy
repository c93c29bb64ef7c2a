/** Host and equipment together: every request gets exactly the reply made to it. */
module HostExchange {
  import opened Basics
  import opened Secs
  import opened Hsms
  import opened Gem300
  import opened Fab
  import opened FabEffects
  import opened Interleaving
  import opened Host
  import Gem

  // ----- what the equipment sends -----

  /** A reply has its request's stream and system bytes and the next function, which is even. */
  lemma ReplyAnswersItsRequest(g: Gem.State, m: Message)
    ensures var r := Gem.Handle(g, m).message;
            r.Some? ==>
              && Answers(r.value, m.header.system, m.header.fn) && r.value.header.stream == m.header.stream
              && r.value.header.sType == 0 && !r.value.header.wBit && m.header.fn % 2 == 1 && m.header.fn < 0xFF
  {
    hide Gem.LookUp, Gem.ApplySettings, Gem.Settings, Gem.SettingAcks, Gem.CommandParameters, Gem.Upload;
  }

  /** An event report or an alarm. */
  predicate Primary(m: Message) {
    m.header.sType == 0 && ((m.header.stream == 6 && m.header.fn == 11) || (m.header.stream == 5 && m.header.fn == 1))
  }

  predicate AllPrimary(ms: seq<Message>) {
    forall i :: 0 <= i < |ms| ==> Primary(ms[i])
  }

  lemma {:induction false} RunMovesPrimary(f: Fab, pj: Id, steps: seq<JobState>)
    ensures AllPrimary(RunMoves(f, pj, steps).send)
    decreases steps
  {
    if steps != [] && MoveJob(f.registry, f.jobs, pj, steps[0]).Some? {
      var Moved(jobs, ceid) := MoveJob(f.registry, f.jobs, pj, steps[0]).value;
      RunMovesPrimary(f.(gem := EventFor(f.gem, ceid, pj, "RUNNING").gem, jobs := jobs), pj, steps[1..]);
    }
  }

  lemma ActiveLotPrimary(f: Fab, to: LotState, note: string)
    ensures AllPrimary(MoveActiveLot(f, to, note).send)
  {
    hide ActiveLot, MoveLotById;
  }

  lemma PhaseOnePrimary(f: Fab, pj: Id)
    ensures AllPrimary(PhaseOne(f, pj).send)
  {
    hide MayRun, RunMoves, MoveActiveLot, HoldLot, MoveJob;
    RunMovesPrimary(f, pj, TO_EXECUTING);
    ActiveLotPrimary(RunMoves(f, pj, TO_EXECUTING).fab, InProcessing, "RUNNING");
  }

  lemma PhaseThreePrimary(f: Fab, pj: Id, failed: bool)
    ensures AllPrimary(PhaseThree(f, pj, failed).send)
  {
    hide MoveActiveLot, MoveJob, CountLot, UpdateStatus;
    var to := if failed then Aborted else Completed;
    if MoveJob(f.registry, f.jobs, pj, to).Some? {
      var Moved(jobs, ceid) := MoveJob(f.registry, f.jobs, pj, to).value;
      var note := if failed then "ABORTED" else "DONE";
      ActiveLotPrimary(f.(gem := EventFor(f.gem, ceid, pj, note).gem, jobs := jobs), if failed then OnHold else LotCompleted, note);
    }
  }

  /** Outside replies, the equipment sends nothing but event reports and alarms. */
  lemma RunnerPrimary(f: Fab, pc: Pc, accepts: bool)
    requires Running(pc) && WellPlaced(pc)
    ensures AllPrimary(RunnerStep(f, pc, accepts).section.send)
  {
    hide PhaseOne, PhaseThree;
    if pc.Starting? {
      PhaseOnePrimary(f, pc.pj);
    } else if pc.Finishing? {
      PhaseThreePrimary(f, pc.pj, pc.failed);
    }
  }

  // ----- what stands in a connection's output -----

  /** The system bytes a step puts into replies on one connection: those of a delivered message with an
      odd function. Acknowledgements, whose functions are even, get no reply. */
  function Asking(a: Step, c: nat): set<u32> {
    if a.Deliver? && a.c == c && a.message.header.fn % 2 == 1 then {a.message.header.system} else {}
  }

  /** The system bytes of the requests delivered on one connection. */
  function Used(steps: seq<Step>, c: nat): set<u32> {
    if steps == [] then {} else Asking(steps[0], c) + Used(steps[1..], c)
  }

  /** Every message sent on `c` is an event, an alarm, or carries one of these system bytes. */
  predicate OutFits(s: System, c: nat, used: set<u32>) {
    c in s.connections ==>
      forall i :: 0 <= i < |s.connections[c].out| ==>
        Primary(s.connections[c].out[i]) || s.connections[c].out[i].header.system in used
  }

  /** No step breaks off `c` with messages unsent. */
  predicate Intact(steps: seq<Step>, c: nat) {
    forall i :: 0 <= i < |steps| ==> !Loses(steps[i], c)
  }

  predicate Loses(a: Step, c: nat) {
    a.Stop? && a.c == c && a.lost > 0
  }

  /** One step that loses nothing only appends: events and alarms, or the one reply to a delivered request. */
  lemma NextOut(s: System, a: Step, c: nat)
    requires c in s.connections && !Loses(a, c)
    ensures var s' := Next(s, a);
            && c in s'.connections && s.connections[c].out <= s'.connections[c].out
            && var added := s'.connections[c].out[|s.connections[c].out|..];
               AllPrimary(added) || (a.Deliver? && a.c == c && |added| == 1 && added[0].header.system in Asking(a, c))
  {
    hide RunnerStep, Stage, Gem.Handle, ActAll, UpdateStatus;
    if a.Deliver? {
      ReplyAnswersItsRequest(s.fab.gem, a.message);
    } else if a.Advance? && a.c in s.connections && Running(s.connections[a.c].pc) && WellPlaced(s.connections[a.c].pc) {
      RunnerPrimary(s.fab, s.connections[a.c].pc, a.accepts);
    }
  }

  lemma NextOutFits(s: System, a: Step, c: nat, used: set<u32>)
    requires OutFits(s, c, used)
    ensures OutFits(Next(s, a), c, used + Asking(a, c))
  {
    if Loses(a, c) {
      hide Primary;
    } else if c in s.connections {
      NextOut(s, a, c);
      hide Next, Primary;
      var out, out' := s.connections[c].out, Next(s, a).connections[c].out;
      assert out' == out + out'[|out|..];
    } else {
      hide RunnerStep, Stage, Serve;
    }
  }

  lemma {:induction false} RunOutFits(s: System, steps: seq<Step>, c: nat, used: set<u32>)
    requires OutFits(s, c, used)
    ensures OutFits(Run(s, steps), c, used + Used(steps, c))
    decreases steps
  {
    hide Next, OutFits;
    if steps == [] {
      assert used + {} == used;
    } else {
      NextOutFits(s, steps[0], c, used);
      var used' := used + Asking(steps[0], c);
      RunOutFits(Next(s, steps[0]), steps[1..], c, used');
      assert used' + Used(steps[1..], c) == used + Used(steps, c);
    }
  }

  predicate NothingDelivered(steps: seq<Step>, c: nat) {
    forall i :: 0 <= i < |steps| ==> !(steps[i].Deliver? && steps[i].c == c)
  }

  /** While no request arrives on it, a connection's output only grows by events and alarms. */
  lemma {:induction false} OnlyEventsFollow(s: System, steps: seq<Step>, c: nat)
    requires c in s.connections && NothingDelivered(steps, c) && Intact(steps, c)
    ensures var s' := Run(s, steps);
            && c in s'.connections && s.connections[c].out <= s'.connections[c].out
            && AllPrimary(s'.connections[c].out[|s.connections[c].out|..])
    decreases steps
  {
    hide Next, Primary;
    if steps != [] {
      NextOut(s, steps[0], c);
      assert !(steps[0].Deliver? && steps[0].c == c);
      assert forall i :: 0 <= i < |steps[1..]| ==> steps[1..][i] == steps[i + 1];
      OnlyEventsFollow(Next(s, steps[0]), steps[1..], c);
      var o0, o1, o2 := s.connections[c].out, Next(s, steps[0]).connections[c].out, Run(s, steps).connections[c].out;
      assert o2[|o0|..] == o1[|o0|..] + o2[|o1|..];
    }
  }

  // ----- the exchange -----

  lemma {:induction false} FramesOfConcat(x: seq<Message>, y: seq<Message>)
    ensures FramesOf(x + y) == FramesOf(x) + FramesOf(y)
  {
    if x == [] {
      assert x + y == y;
    } else {
      assert (x + y)[1..] == x[1..] + y;
      FramesOfConcat(x[1..], y);
    }
  }

  lemma {:induction false} EncodeFramesConcat(x: seq<Frame>, y: seq<Frame>)
    ensures EncodeFrames(x + y) == EncodeFrames(x) + EncodeFrames(y)
  {
    hide EncodeFrame;
    if x == [] {
      assert x + y == y;
    } else {
      assert (x + y)[1..] == x[1..] + y;
      EncodeFramesConcat(x[1..], y);
      assert EncodeFrame(x[0]) + (EncodeFrames(x[1..]) + EncodeFrames(y)) == EncodeFrames(x) + EncodeFrames(y);
    }
  }

  lemma WireOf(before: seq<Message>, m: Message, later: seq<Message>)
    ensures Wire(before + [m] + later) == Wire(before) + (EncodeFrame(ToFrame(m)) + Wire(later))
  {
    hide EncodeFrame, ToFrame;
    FramesOfConcat(before, [m] + later);
    FramesOfConcat([m], later);
    assert before + [m] + later == before + ([m] + later);
    assert FramesOf([m]) == [ToFrame(m)];
    EncodeFramesConcat(FramesOf(before), [ToFrame(m)] + FramesOf(later));
    EncodeFramesConcat([ToFrame(m)], FramesOf(later));
    assert EncodeFrames([ToFrame(m)]) == EncodeFrame(ToFrame(m));
  }

  /** The reply goes out in the very step that handles the request. */
  lemma DeliverReplies(s: System, c: nat, m: Message)
    requires c in s.connections && s.connections[c].pc == Serving && Gem.Handle(s.fab.gem, m).message.Some?
    ensures var s1 := Next(s, Deliver(c, m));
            c in s1.connections && s1.connections[c].out == s.connections[c].out + [Gem.Handle(s.fab.gem, m).message.value]
  {
    hide Gem.Handle, ActAll, UpdateStatus;
  }

  /** A host that has read the first `read` messages of connection `c` sends `m` in state `s`, and `more`
      follows. What its request reads off the wire is: everything it had not read yet, into the inbox,
      once and in order; then the very reply the equipment made. Everything the request causes comes
      after that reply, and none of it is a reply. */
  predicate GetsItsOwnReply(s: System, c: nat, m: Message, more: seq<Step>, read: nat)
    requires Asks(s, c, m, read)
  {
    var s' := Run(Next(s, Deliver(c, m)), more);
    var reply, out := Gem.Handle(s.fab.gem, m).message.value, s.connections[c].out;
    && c in s'.connections && out + [reply] <= s'.connections[c].out
    && var later := s'.connections[c].out[|out| + 1..];
       && AllPrimary(later)
       && Await(Wire(s'.connections[c].out[read..]), m.header.system, m.header.fn)
          == Awaited(Ok(reply), out[read..], Wire(later))
  }

  /** The connection is being served, the equipment has a reply to `m`, and what the host has still to
      read can be carried. */
  predicate Asks(s: System, c: nat, m: Message, read: nat) {
    && c in s.connections && s.connections[c].pc == Serving && read <= |s.connections[c].out|
    && Gem.Handle(s.fab.gem, m).message.Some?
    && Arriving(s.connections[c].out[read..]) && Arriving([Gem.Handle(s.fab.gem, m).message.value])
  }

  /** The exchange, from any state whose output on `c` holds no reply with the request's system bytes. */
  lemma ExchangeFrom(s: System, used: set<u32>, c: nat, m: Message, more: seq<Step>, read: nat)
    requires OutFits(s, c, used) && m.header.system !in used && NothingDelivered(more, c) && Intact(more, c)
    requires Asks(s, c, m, read)
    ensures GetsItsOwnReply(s, c, m, more, read)
  {
    hide Gem.Handle, Next, Run, Arriving, Await, Wire, Primary, NothingDelivered, Intact, Answers;
    var s1 := Next(s, Deliver(c, m));
    var reply, out := Gem.Handle(s.fab.gem, m).message.value, s.connections[c].out;
    ReplyAnswersItsRequest(s.fab.gem, m);
    DeliverReplies(s, c, m);
    OnlyEventsFollow(s1, more, c);
    var out' := Run(s1, more).connections[c].out;
    var later := out'[|out| + 1..];
    assert out'[|out + [reply]|..] == later;
    assert out' == out + [reply] + later;
    assert out'[read..] == out[read..] + [reply] + later;
    NoneAnswers(out[read..], used, m);
    WireOf(out[read..], reply, later);
    RequestFindsReply(out[read..], reply, Wire(later), m.header.system, m.header.fn);
  }

  /** A request whose system bytes no earlier request on the connection had gets its own reply, wherever the
      equipment's other connections are and whatever happens next. Events and alarms may have had those
      system bytes, and the host may have acknowledged them. */
  lemma RequestGetsItsOwnReply(device: u16, mdln: string, softrev: string, steps: seq<Step>,
                               c: nat, m: Message, more: seq<Step>, read: nat)
    requires NothingDelivered(more, c) && Intact(more, c) && m.header.system !in Used(steps, c)
    requires Asks(Run(Initial(device, mdln, softrev), steps), c, m, read)
    ensures GetsItsOwnReply(Run(Initial(device, mdln, softrev), steps), c, m, more, read)
  {
    hide Initial, OutFits, Run, Used, Asks, GetsItsOwnReply, NothingDelivered, Intact;
    var s0 := Initial(device, mdln, softrev);
    InitialOut(device, mdln, softrev, c);
    RunOutFits(s0, steps, c, {});
    assert {} + Used(steps, c) == Used(steps, c);
    ExchangeFrom(Run(s0, steps), Used(steps, c), c, m, more, read);
  }

  lemma InitialOut(device: u16, mdln: string, softrev: string, c: nat)
    ensures OutFits(Initial(device, mdln, softrev), c, {})
  {
    hide Boot;
  }

  lemma NoneAnswers(before: seq<Message>, used: set<u32>, m: Message)
    requires forall i :: 0 <= i < |before| ==> Primary(before[i]) || before[i].header.system in used
    requires m.header.system !in used && m.header.fn % 2 == 1 && m.header.fn < 0xFF
    ensures forall i :: 0 <= i < |before| ==> !Answers(before[i], m.header.system, m.header.fn)
  {
  }

  // ----- the client's counter -----

  /** The messages handed to the simulator on one connection. */
  function Handed(steps: seq<Step>, c: nat): seq<Message> {
    if steps == [] then [] else
    (if steps[0].Deliver? && steps[0].c == c then [steps[0].message] else []) + Handed(steps[1..], c)
  }

  lemma {:induction false} UsedWereHanded(steps: seq<Step>, c: nat, u: u32)
    requires u in Used(steps, c)
    ensures exists i :: 0 <= i < |Handed(steps, c)| &&
              var h := Handed(steps, c)[i].header; h.system == u && h.fn % 2 == 1
  {
    var d, rest := Handed(steps, c), Handed(steps[1..], c);
    if u in Asking(steps[0], c) {
      assert d[0] == steps[0].message;
    } else {
      UsedWereHanded(steps[1..], c, u);
      var i :| 0 <= i < |rest| && rest[i].header.system == u && rest[i].header.fn % 2 == 1;
      assert d[|d| - |rest|..] == rest;
      assert d[|d| - |rest| + i] == rest[i];
    }
  }

  lemma {:induction false} FramesOfAt(ms: seq<Message>, i: nat)
    requires i < |ms|
    ensures |FramesOf(ms)| == |ms| && FramesOf(ms)[i] == ToFrame(ms[i])
  {
    if |ms| > 1 {
      FramesOfAt(ms[1..], if i > 0 then i - 1 else 0);
    } else {
      assert ms[1..] == [];
    }
  }

  lemma HandedWasSent(ms: seq<Message>, sent: seq<Frame>, i: nat)
    requires FramesOf(ms) <= sent && i < |ms|
    ensures i < |sent| && sent[i].header == ms[i].header
  {
    FramesOfAt(ms, i);
  }

  /** However much of what a client has sent has arrived, its next number is fresh, as long as it has given
      out fewer than 2^32: the invariant of `HostClient`. */
  lemma NextRequestIsFresh(steps: seq<Step>, c: nat, sent: seq<Frame>, last: u32, n: nat)
    requires Counted(sent, last, n) && FramesOf(Handed(steps, c)) <= sent && n < 0x1_0000_0000
    ensures After(last) !in Used(steps, c)
  {
    assert After(last) == Number(n + 1);
    hide After, Number, FramesOf, Handed, Used;
    if After(last) in Used(steps, c) {
      UsedWereHanded(steps, c, After(last));
      var ms := Handed(steps, c);
      var i :| 0 <= i < |ms| && ms[i].header.system == After(last) && ms[i].header.fn % 2 == 1;
      HandedWasSent(ms, sent, i);
      var j: nat :| 1 <= j <= n && sent[i].header.system == Number(j);
      NumbersCongruent(j, n + 1);
    }
  }

  /** A client's next request gets its own reply, whatever it has requested, sent or acknowledged before. */
  lemma ClientRequestGetsItsOwnReply(device: u16, mdln: string, softrev: string, steps: seq<Step>,
                                     c: nat, m: Message, more: seq<Step>, read: nat, sent: seq<Frame>, last: u32, n: nat)
    requires Counted(sent, last, n) && FramesOf(Handed(steps, c)) <= sent && n < 0x1_0000_0000
    requires m.header.system == After(last) && NothingDelivered(more, c) && Intact(more, c)
    requires Asks(Run(Initial(device, mdln, softrev), steps), c, m, read)
    ensures GetsItsOwnReply(Run(Initial(device, mdln, softrev), steps), c, m, more, read)
  {
    hide Asks, GetsItsOwnReply, Counted, NothingDelivered, Intact, Initial, Run, Used, Handed;
    NextRequestIsFresh(steps, c, sent, last, n);
    RequestGetsItsOwnReply(device, mdln, softrev, steps, c, m, more, read);
  }
}
