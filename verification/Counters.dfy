/** What the equipment counts: lots processed, and the identifiers of the messages it starts. */
module Counters {
  import opened Basics
  import opened Secs
  import opened Hsms
  import opened Gem300
  import opened Fab
  import opened FabEffects
  import opened Interleaving
  import opened Protocol
  import Gem

  // ----- what a host message leaves alone -----

  /** The parts of the equipment no message from the host touches by itself. */
  predicate Steady(g: Gem.State, g': Gem.State) {
    g'.svids == g.svids && g'.nextId == g.nextId && g'.mdln == g.mdln && g'.softrev == g.softrev
  }

  lemma HandlersSteady(g: Gem.State, system: u32, req: Option<Item>)
    ensures Steady(g, Gem.SetConstants(g, system, req).gem) && Steady(g, Gem.DoRemoteCommand(g, system, req).gem)
    ensures Steady(g, Gem.LoadProgram(g, system, req).gem) && Steady(g, Gem.ShowTerminal(g, system, req).gem)
    ensures Steady(g, Gem.GrantLoad(g, system, req).gem) && Steady(g, Gem.SendProgram(g, system, req).gem)
  {
    hide Gem.LookUp, Gem.ApplySettings, Gem.Settings, Gem.SettingAcks, Gem.Upload, Gem.CommandParameters;
  }

  lemma HandleKeeps(g: Gem.State, m: Message)
    ensures Steady(g, Gem.Handle(g, m).gem)
  {
    hide Gem.LookUp, Gem.SetConstants, Gem.DoRemoteCommand, Gem.LoadProgram, Gem.ShowTerminal, Gem.GrantLoad, Gem.SendProgram;
    HandlersSteady(g, m.header.system, m.item);
  }

  lemma ActKeeps(a: Acted, action: Gem.Action)
    ensures var g := Act(a, action).fab.gem; g.svids == a.fab.gem.svids && g.nextId == a.fab.gem.nextId
  {
    hide ApplyRecipe, LowerAll, JobParameter;
  }

  lemma {:induction false} ActAllKeeps(a: Acted, actions: seq<Gem.Action>)
    ensures var g := ActAll(a, actions).fab.gem; g.svids == a.fab.gem.svids && g.nextId == a.fab.gem.nextId
    decreases actions
  {
    hide Act;
    if actions != [] {
      ActKeeps(a, actions[0]);
      ActAllKeeps(Act(a, actions[0]), actions[1..]);
    }
  }

  lemma ServeKeeps(f: Fab, m: Message)
    ensures var g := Serve(f, m).fab.gem; SameCount(f.gem, g) && g.nextId == f.gem.nextId
  {
    hide Gem.Handle;
    HandleKeeps(f.gem, m);
    var Reply(g, reply) := Gem.Handle(f.gem, m);
    ActAllKeeps(Acted(f.(gem := g.(pending := [])), None), g.pending);
  }

  // ----- LOTS_PROCESSED -----

  predicate SameCount(g: Gem.State, g': Gem.State) {
    && (LOTS_PROCESSED in g.svids <==> LOTS_PROCESSED in g'.svids)
    && (LOTS_PROCESSED in g.svids ==> g'.svids[LOTS_PROCESSED] == g.svids[LOTS_PROCESSED])
  }

  lemma PhaseOneCount(f: Fab, pj: Id)
    ensures SameCount(f.gem, PhaseOne(f, pj).fab.gem)
  {
    hide MayRun, Refuse, Launch;
    if pj in f.jobs {
      RefuseCount(f, pj, f.jobs[pj], false);
      RefuseCount(f, pj, f.jobs[pj], true);
      LaunchCount(f, pj);
    }
  }

  lemma RefuseCount(f: Fab, pj: Id, job: Job, announce: bool)
    ensures SameCount(f.gem, Refuse(f, pj, job, announce).fab.gem)
  {
    hide HoldLot, MoveJob, ControlName, CommunicationName;
  }

  lemma ActiveLotCount(f: Fab, to: LotState, note: string)
    ensures MoveActiveLot(f, to, note).fab.gem.svids == f.gem.svids
  {
    hide ActiveLot, MoveLotById;
  }

  lemma LaunchCount(f: Fab, pj: Id)
    ensures SameCount(f.gem, Launch(f, pj).fab.gem)
  {
    hide RunMoves, MoveActiveLot, ControlName, CommunicationName;
    RunMovesCount(f, pj, TO_EXECUTING);
    ActiveLotCount(RunMoves(f, pj, TO_EXECUTING).fab, InProcessing, "RUNNING");
  }

  lemma {:induction false} RunMovesCount(f: Fab, pj: Id, steps: seq<JobState>)
    ensures RunMoves(f, pj, steps).fab.gem.svids == f.gem.svids
    decreases steps
  {
    if steps != [] && MoveJob(f.registry, f.jobs, pj, steps[0]).Some? {
      var Moved(jobs, ceid) := MoveJob(f.registry, f.jobs, pj, steps[0]).value;
      RunMovesCount(f.(gem := EventFor(f.gem, ceid, pj, "RUNNING").gem, jobs := jobs), pj, steps[1..]);
    }
  }

  function CompletedJobs(jobs: Jobs): set<Id> {
    set pj | pj in jobs && jobs[pj].state == Completed
  }

  predicate Shows(g: Gem.State, n: nat) {
    LOTS_PROCESSED in g.svids && g.svids[LOTS_PROCESSED] == Num(U4, [n % 0x1_0000_0000])
  }

  predicate Counted(s: System) {
    Shows(s.fab.gem, |CompletedJobs(s.fab.jobs)|)
  }

  lemma CompletedAfter(jobs: Jobs, pj: Id, to: JobState)
    requires pj in jobs && !Terminal(jobs[pj].state)
    ensures |CompletedJobs(WithJobState(jobs, pj, to))| == |CompletedJobs(jobs)| + if to == Completed then 1 else 0
  {
    var jobs' := WithJobState(jobs, pj, to);
    if to == Completed {
      assert CompletedJobs(jobs') == CompletedJobs(jobs) + {pj};
    } else {
      assert CompletedJobs(jobs') == CompletedJobs(jobs);
    }
  }

  lemma CountLotShows(g: Gem.State, n: nat)
    requires Shows(g, n)
    ensures Shows(CountLot(g), n + 1)
  {
    var vals := [n % 0x1_0000_0000];
    assert vals[0 := (vals[0] + 1) % 0x1_0000_0000] == [(n + 1) % 0x1_0000_0000];
  }

  lemma UpdateStatusShows(g: Gem.State, n: nat)
    ensures Shows(UpdateStatus(g), n) == Shows(g, n)
  {
  }

  lemma PhaseThreeCount(f: Fab, pj: Id, failed: bool, n: nat)
    requires Shows(f.gem, n) && MoveJob(f.registry, f.jobs, pj, if failed then Aborted else Completed).Some?
    ensures Shows(PhaseThree(f, pj, failed).fab.gem, if failed then n else n + 1)
  {
    hide MoveActiveLot, MoveJob, UpdateStatus, CountLot, Shows;
    var Moved(jobs, ceid) := MoveJob(f.registry, f.jobs, pj, if failed then Aborted else Completed).value;
    var note := if failed then "ABORTED" else "DONE";
    var f1 := f.(gem := EventFor(f.gem, ceid, pj, note).gem, jobs := jobs);
    var g := MoveActiveLot(f1, if failed then OnHold else LotCompleted, note).fab.gem;
    ActiveLotCount(f1, if failed then OnHold else LotCompleted, note);
    ShowsStill(f.gem, g, n);
    CountLotShows(g, n);
    UpdateStatusShows(g, n);
    UpdateStatusShows(CountLot(g), n + 1);
  }

  lemma FinishingCount(f: Fab, pj: Id, failed: bool)
    requires Shows(f.gem, |CompletedJobs(f.jobs)|)
    ensures var f' := PhaseThree(f, pj, failed).fab; Shows(f'.gem, |CompletedJobs(f'.jobs)|)
  {
    var to := if failed then Aborted else Completed;
    PhaseThreeEffect(f, pj, failed);
    if MoveJob(f.registry, f.jobs, pj, to).Some? {
      PhaseThreeCount(f, pj, failed, |CompletedJobs(f.jobs)|);
      CompletedAfter(f.jobs, pj, to);
    }
    hide PhaseThree;
  }

  lemma StartingCount(f: Fab, pj: Id)
    requires Shows(f.gem, |CompletedJobs(f.jobs)|)
    ensures var f' := PhaseOne(f, pj).fab; Shows(f'.gem, |CompletedJobs(f'.jobs)|)
  {
    PhaseOneEffect(f, pj);
    PhaseOneCount(f, pj);
    hide PhaseOne, MayRun;
    if LaunchesJob(f, pj) {
      CompletedAfter(f.jobs, pj, Executing);
    } else if RefusesJob(f, pj) {
      CompletedAfter(f.jobs, pj, Aborted);
    }
  }

  lemma StageCount(f: Fab, lot: Id, ws: seq<Id>, pj: Id, recipe: string)
    requires JobsSound(f)
    ensures CompletedJobs(Stage(f, lot, ws, pj, recipe).fab.jobs) == CompletedJobs(f.jobs)
    ensures Stage(f, lot, ws, pj, recipe).fab.gem == f.gem
  {
    StageEffect(f, lot, ws, pj, recipe);
    RegisterWafersFrame(f, lot, ws);
    hide RegisterWafers;
  }

  lemma QuietCount(f: Fab, pc: Pc, accepts: bool)
    requires Running(pc) && WellPlaced(pc) && !pc.Starting? && !pc.Finishing?
    ensures var f' := RunnerStep(f, pc, accepts).section.fab; SameCount(f.gem, f'.gem) && f'.jobs == f.jobs
  {
    hide PhaseOne, PhaseThree;
  }

  lemma ShowsStill(g: Gem.State, g': Gem.State, n: nat)
    requires SameCount(g, g') && Shows(g, n)
    ensures Shows(g', n)
  {
  }

  lemma NextCounted(s: System, a: Step)
    requires Sound(s) && Counted(s)
    ensures Counted(Next(s, a))
  {
    hide RunnersSound, WafersSound, PhaseOne, PhaseThree, Stage, Serve, Shows, MoveWafer, RunnerStep;
    var n := |CompletedJobs(s.fab.jobs)|;
    match a
    case Connect(_) =>
    case Stop(_, _) =>
    case StageLot(lot, ws, pj, recipe) => StageCount(s.fab, lot, ws, pj, recipe);
    case Deliver(_, m) =>
      ServeFloor(s.fab, m);
      ServeKeeps(s.fab, m);
      ShowsStill(s.fab.gem, Serve(s.fab, m).fab.gem, n);
    case Advance(c, accepts) =>
      if c in s.connections && Running(s.connections[c].pc) && WellPlaced(s.connections[c].pc) {
        AdvanceCounted(s, c, accepts);
      }
  }

  lemma AdvanceCounted(s: System, c: nat, accepts: bool)
    requires c in s.connections && Running(s.connections[c].pc) && WellPlaced(s.connections[c].pc) && Counted(s)
    ensures Counted(Next(s, Advance(c, accepts)))
  {
    AdvanceNext(s, c, accepts);
    hide Next, PhaseOne, PhaseThree, Shows, MoveWafer, Gem.MakeAlarm;
    var pc := s.connections[c].pc;
    if pc.Starting? {
      StartingCount(s.fab, pc.pj);
    } else if pc.Finishing? {
      FinishingCount(s.fab, pc.pj, pc.failed);
    } else {
      QuietCount(s.fab, pc, accepts);
      hide RunnerStep;
      ShowsStill(s.fab.gem, RunnerStep(s.fab, pc, accepts).section.fab.gem, |CompletedJobs(s.fab.jobs)|);
    }
  }

  lemma {:induction false} RunCounted(s: System, steps: seq<Step>)
    requires Sound(s) && Counted(s)
    ensures Counted(Run(s, steps))
    decreases steps
  {
    hide Sound, Counted;
    if steps != [] {
      NextCounted(s, steps[0]);
      NextSound(s, steps[0]);
      RunCounted(Next(s, steps[0]), steps[1..]);
    }
  }

  /** In every schedule the LOTS_PROCESSED status variable is the number of completed jobs, as a
      32-bit counter: each completion is counted once, and nothing else is. */
  lemma LotsProcessedCountsCompletedJobs(device: u16, mdln: string, softrev: string, steps: seq<Step>)
    ensures var f := Run(Initial(device, mdln, softrev), steps).fab;
            && LOTS_PROCESSED in f.gem.svids
            && f.gem.svids[LOTS_PROCESSED] == Num(U4, [|CompletedJobs(f.jobs)| % 0x1_0000_0000])
  {
    var s := Initial(device, mdln, softrev);
    assert CompletedJobs(s.fab.jobs) == {};
    BootSound(device, mdln, softrev);
    RunCounted(s, steps);
  }

  // ----- identifiers -----

  predicate IsEvent(m: Message) {
    m.header.stream == 6 && m.header.fn == 11
  }

  predicate IsAlarm(m: Message) {
    m.header.stream == 5 && m.header.fn == 1
  }

  /** The data id an event report opens with. */
  function DataId(m: Message): Option<int> {
    if m.item.Some? && m.item.value.L? && m.item.value.items != [] then Gem.FirstOf(NumKind.U4, m.item.value.items[0]) else None
  }

  /** Messages built one after another, taking the identifier counter from `n` to `end`: an alarm
      takes the next number, an event the present one as data id and the next but one. */
  predicate Issued(n: nat, made: seq<Message>, end: nat)
    decreases made
  {
    if made == [] then end == n
    else if IsEvent(made[0]) then
      DataId(made[0]) == Some(n) && made[0].header.system == n + 2 && Issued(n + 2, made[1..], end)
    else
      IsAlarm(made[0]) && made[0].header.system == n + 1 && Issued(n + 1, made[1..], end)
  }

  lemma {:induction false} IssuedConcat(a: nat, x: seq<Message>, b: nat, y: seq<Message>, c: nat)
    requires Issued(a, x, b) && Issued(b, y, c)
    ensures Issued(a, x + y, c)
    decreases x
  {
    if x == [] {
      assert x + y == y;
    } else {
      assert (x + y)[1..] == x[1..] + y;
      IssuedConcat(if IsEvent(x[0]) then a + 2 else a + 1, x[1..], b, y, c);
    }
  }

  lemma {:induction false} IssuedBounds(n: nat, made: seq<Message>, end: nat)
    requires Issued(n, made, end)
    ensures n + |made| <= end <= n + 2 * |made|
    ensures forall i :: 0 <= i < |made| ==> n < made[i].header.system <= end
    ensures forall i :: 0 <= i < |made| && IsEvent(made[i]) ==> DataId(made[i]).Some? && n <= DataId(made[i]).value < made[i].header.system
    decreases made
  {
    if made != [] {
      var next := if IsEvent(made[0]) then n + 2 else n + 1;
      IssuedBounds(next, made[1..], end);
      assert forall i :: 0 < i < |made| ==> made[i] == made[1..][i - 1];
    }
  }

  lemma {:induction false} IssuedIncreases(n: nat, made: seq<Message>, end: nat, i: nat, j: nat)
    requires Issued(n, made, end) && i < j < |made|
    ensures made[i].header.system < made[j].header.system
    ensures IsEvent(made[i]) && IsEvent(made[j]) ==>
              DataId(made[i]).Some? && DataId(made[j]).Some? && DataId(made[i]).value < DataId(made[j]).value
    decreases made
  {
    var next := if IsEvent(made[0]) then n + 2 else n + 1;
    IssuedBounds(next, made[1..], end);
    assert made[j] == made[1..][j - 1];
    if i > 0 {
      assert made[i] == made[1..][i - 1];
      IssuedIncreases(next, made[1..], end, i - 1, j - 1);
    }
  }

  /** A section's messages are numbered on from the counter it found, if that does not wrap. */
  predicate Numbers(g: Gem.State, made: seq<Message>, g': Gem.State) {
    g.nextId + 2 * |made| < 0x1_0000_0000 ==> Issued(g.nextId, made, g'.nextId)
  }

  lemma EventNumbers(g: Gem.State, ceid: nat, reports: seq<(string, Item)>)
    ensures var b := Gem.MakeEvent(g, ceid, reports); Numbers(g, [b.message], b.gem)
  {
    var b := Gem.MakeEvent(g, ceid, reports);
    assert [b.message][1..] == [];
  }

  lemma AlarmNumbers(g: Gem.State, alid: nat)
    ensures var r := Gem.MakeAlarm(g, alid, true); r.Some? ==> Numbers(g, [r.value.message], r.value.gem)
  {
    var r := Gem.MakeAlarm(g, alid, true);
    if r.Some? {
      assert [r.value.message][1..] == [];
    }
  }

  lemma NumbersConcat(g0: Gem.State, x: seq<Message>, g1: Gem.State, y: seq<Message>, g2: Gem.State)
    requires Numbers(g0, x, g1) && Numbers(g1, y, g2)
    ensures Numbers(g0, x + y, g2)
  {
    if g0.nextId + 2 * |x + y| < 0x1_0000_0000 {
      IssuedBounds(g0.nextId, x, g1.nextId);
      IssuedConcat(g0.nextId, x, g1.nextId, y, g2.nextId);
    }
  }

  lemma {:induction false} RunMovesNumbers(f: Fab, pj: Id, steps: seq<JobState>)
    ensures var s := RunMoves(f, pj, steps); Numbers(f.gem, s.made, s.fab.gem)
    decreases steps
  {
    hide Gem.MakeEvent, Numbers;
    if steps == [] || MoveJob(f.registry, f.jobs, pj, steps[0]).None? {
      NothingNumbered(f.gem);
    } else {
      var Moved(jobs, ceid) := MoveJob(f.registry, f.jobs, pj, steps[0]).value;
      var Built(g, event) := EventFor(f.gem, ceid, pj, "RUNNING");
      EventNumbers(f.gem, ceid, [("SubjectID", A(pj)), ("Note", A("RUNNING"))]);
      var f1 := f.(gem := g, jobs := jobs);
      RunMovesNumbers(f1, pj, steps[1..]);
      var rest := RunMoves(f1, pj, steps[1..]);
      NumbersConcat(f.gem, [event], g, rest.made, rest.fab.gem);
    }
  }

  lemma NothingNumbered(g: Gem.State)
    ensures Numbers(g, [], g)
  {
  }

  lemma MoveActiveLotNumbers(f: Fab, to: LotState, note: string)
    ensures var s := MoveActiveLot(f, to, note); Numbers(f.gem, s.made, s.fab.gem)
  {
    hide Gem.MakeEvent, Numbers, ActiveLot, MoveLotById;
    NothingNumbered(f.gem);
    var lot := ActiveLot(f.lots, f.wafers);
    if lot.Some? && MoveLotById(f.lots, lot.value, to).Some? {
      EventNumbers(f.gem, MoveLotById(f.lots, lot.value, to).value.event, [("SubjectID", A(lot.value)), ("Note", A(note))]);
    }
  }

  lemma RefuseNumbers(f: Fab, pj: Id, job: Job, announce: bool)
    ensures var s := Refuse(f, pj, job, announce); Numbers(f.gem, s.made, s.fab.gem)
  {
    hide Gem.MakeEvent, Gem.MakeAlarm, HoldLot, Issued;
    NothingNumbered(f.gem);
    AlarmNumbers(f.gem, DRIFT_OUT_OF_SPEC);
    if Gem.MakeAlarm(f.gem, DRIFT_OUT_OF_SPEC, true).Some? && MoveJob(f.registry, f.jobs, pj, Aborted).Some? {
      var Built(g1, alarm) := Gem.MakeAlarm(f.gem, DRIFT_OUT_OF_SPEC, true).value;
      var ceid := MoveJob(f.registry, f.jobs, pj, Aborted).value.event;
      var Built(g2, event) := EventFor(g1, ceid, pj, "ABORTED");
      EventNumbers(g1, ceid, [("SubjectID", A(pj)), ("Note", A("ABORTED"))]);
      NumbersConcat(f.gem, [alarm], g1, [event], g2);
      assert [alarm] + [event] == [alarm, event];
    }
  }

  lemma LaunchNumbers(f: Fab, pj: Id)
    ensures var s := Launch(f, pj); Numbers(f.gem, s.made, s.fab.gem)
  {
    hide RunMoves, MoveActiveLot, Issued;
    var s1 := RunMoves(f, pj, TO_EXECUTING);
    RunMovesNumbers(f, pj, TO_EXECUTING);
    var s2 := MoveActiveLot(s1.fab, InProcessing, "RUNNING");
    MoveActiveLotNumbers(s1.fab, InProcessing, "RUNNING");
    NumbersConcat(f.gem, s1.made, s1.fab.gem, s2.made, s2.fab.gem);
  }

  lemma PhaseOneNumbers(f: Fab, pj: Id)
    ensures var s := PhaseOne(f, pj); Numbers(f.gem, s.made, s.fab.gem)
  {
    hide MayRun, Refuse, Launch, Numbers;
    NothingNumbered(f.gem);
    if pj in f.jobs {
      RefuseNumbers(f, pj, f.jobs[pj], false);
      RefuseNumbers(f, pj, f.jobs[pj], true);
      LaunchNumbers(f, pj);
    }
  }

  lemma PhaseThreeNumbers(f: Fab, pj: Id, failed: bool)
    ensures var s := PhaseThree(f, pj, failed); Numbers(f.gem, s.made, s.fab.gem)
  {
    hide Gem.MakeEvent, MoveActiveLot, Issued, MoveJob;
    NothingNumbered(f.gem);
    var to := if failed then Aborted else Completed;
    if MoveJob(f.registry, f.jobs, pj, to).Some? {
      var Moved(jobs, ceid) := MoveJob(f.registry, f.jobs, pj, to).value;
      var note := if failed then "ABORTED" else "DONE";
      var Built(g, event) := EventFor(f.gem, ceid, pj, note);
      EventNumbers(f.gem, ceid, [("SubjectID", A(pj)), ("Note", A(note))]);
      var f1 := f.(gem := g, jobs := jobs);
      var lotTo := if failed then OnHold else LotCompleted;
      MoveActiveLotNumbers(f1, lotTo, note);
      var s := MoveActiveLot(f1, lotTo, note);
      NumbersConcat(f.gem, [event], g, s.made, s.fab.gem);
    }
  }

  lemma MoveWaferNumbers(f: Fab, wafer: Id, to: Location)
    ensures var s := MoveWafer(f, wafer, to); Numbers(f.gem, s.made, s.fab.gem)
  {
    hide Gem.MakeEvent, Numbers;
    NothingNumbered(f.gem);
    if wafer in f.wafers {
      EventNumbers(f.gem, 5001, [("SubstrateID", A(wafer)), ("FromLocation", A(FormatLocation(f.wafers[wafer].location))),
                                 ("ToLocation", A(FormatLocation(to)))]);
    }
  }

  lemma RunnerNumbers(f: Fab, pc: Pc, accepts: bool)
    requires Running(pc) && WellPlaced(pc)
    ensures var t := RunnerStep(f, pc, accepts); Numbers(f.gem, t.section.made, t.section.fab.gem)
  {
    hide PhaseOne, PhaseThree, MoveWafer, Gem.MakeAlarm, Numbers;
    NothingNumbered(f.gem);
    match pc
    case Starting(pj) => PhaseOneNumbers(f, pj);
    case Finishing(pj, failed) => PhaseThreeNumbers(f, pj, failed);
    case Entering(_, ws, k) => MoveWaferNumbers(f, ws[k], LITHO);
    case Leaving(_, ws, k) => MoveWaferNumbers(f, ws[k], Fixed);
    case Failing(_) => AlarmNumbers(f.gem, BACKEND_ERROR);
    case _ =>
  }

  lemma StageKeepsGem(f: Fab, lot: Id, ws: seq<Id>, pj: Id, recipe: string)
    ensures Stage(f, lot, ws, pj, recipe).fab.gem == f.gem
  {
    RegisterWafersFrame(f, lot, ws);
    hide RegisterWafers;
  }

  lemma NextNumbered(s0: Gem.State, s: System, a: Step)
    requires Numbers(s0, s.made, s.fab.gem)
    ensures Numbers(s0, Next(s, a).made, Next(s, a).fab.gem)
    ensures s.made <= Next(s, a).made
  {
    hide RunnerStep, Stage, Serve, Issued;
    match a
    case Connect(_) =>
    case Stop(_, _) =>
    case StageLot(lot, ws, pj, recipe) => StageKeepsGem(s.fab, lot, ws, pj, recipe);
    case Deliver(_, m) => ServeKeeps(s.fab, m);
    case Advance(c, accepts) =>
      if c in s.connections && Running(s.connections[c].pc) && WellPlaced(s.connections[c].pc) {
        var t := RunnerStep(s.fab, s.connections[c].pc, accepts);
        RunnerNumbers(s.fab, s.connections[c].pc, accepts);
        NumbersConcat(s0, s.made, s.fab.gem, t.section.made, t.section.fab.gem);
      }
  }

  lemma {:induction false} RunNumbered(s0: Gem.State, s: System, steps: seq<Step>)
    requires Numbers(s0, s.made, s.fab.gem)
    ensures Numbers(s0, Run(s, steps).made, Run(s, steps).fab.gem)
    decreases steps
  {
    hide Numbers, Next;
    if steps != [] {
      NextNumbered(s0, s, steps[0]);
      RunNumbered(s0, Next(s, steps[0]), steps[1..]);
    }
  }

  /** Whatever the schedule, messages the equipment makes on its own carry strictly increasing system
      bytes in the order they are made, across all connections, and event reports strictly increasing
      data ids, as long as fewer than 2^31 - 1 of them have been made. */
  lemma IdentifiersIncrease(device: u16, mdln: string, softrev: string, steps: seq<Step>, i: nat, j: nat)
    requires var made := Run(Initial(device, mdln, softrev), steps).made;
             i < j < |made| && 1 + 2 * |made| < 0x1_0000_0000
    ensures var made := Run(Initial(device, mdln, softrev), steps).made;
            && made[i].header.system < made[j].header.system
            && (IsEvent(made[i]) && IsEvent(made[j]) ==>
                  DataId(made[i]).Some? && DataId(made[j]).Some? && DataId(made[i]).value < DataId(made[j]).value)
  {
    var s := Initial(device, mdln, softrev);
    NothingNumbered(s.fab.gem);
    RunNumbered(s.fab.gem, s, steps);
    var end := Run(s, steps);
    IssuedIncreases(1, end.made, end.fab.gem.nextId, i, j);
  }
}
