/** The simulator as it runs: one object holding all shared state, one method per critical section,
    and the job runner that strings them together. */
module Simulator {
  import opened Basics
  import opened Secs
  import opened Hsms
  import opened Recipes
  import opened Gem300
  import opened Floor
  import opened Fab
  import opened Interleaving
  import opened Traces
  import Gem
  import GemEngine

  /** The status variables, constants and alarms `bind` defines. */
  method DefineRegistries(gem: GemEngine.GemEquipment)
    requires gem.svids == map[] && gem.ecids == map[] && gem.alarms == map[]
    modifies gem`svids, gem`ecids, gem`alarms
    ensures gem.View() == old(gem.View()).(svids := BootGem().svids, ecids := BootGem().ecids, alarms := BootGem().alarms)
  {
    gem.DefineSvid(2001, A(""));
    gem.DefineSvid(2002, A("EquipmentOffline"));
    gem.DefineSvid(2003, A("NotCommunicating"));
    gem.DefineSvid(LOTS_PROCESSED, Gem.U4(0));
    gem.DefineEcid(1001, Num(F8, [0]));
    gem.DefineEcid(1002, Num(F8, [0]));
    gem.DefineEcid(1003, Num(F8, [0x3FF0_0000_0000_0000]));
    gem.DefineAlid(DRIFT_OUT_OF_SPEC, "recipe drift out of spec");
    gem.DefineAlid(BACKEND_ERROR, "patterning backend refused plan");
  }

  function BootGem(): Gem.State {
    Boot(0, "", "").gem
  }

  class FabState {
    const gem: GemEngine.GemEquipment
    const recipes: RecipeStore
    const lots: LotTracker
    const registry: ObjectRegistry
    const substrates: SubstrateManager
    const jobs: ProcessJobManager

    /** The shared state as a value. */
    function View(): Fab
      reads this, gem, recipes, lots, registry, substrates, jobs
    {
      Fab(gem.View(), recipes.recipes, lots.lots, registry.objects, substrates.substrates, jobs.jobs)
    }

    /** `bind`. */
    constructor (device: u16, mdln: string, softrev: string)
      ensures View() == Boot(device, mdln, softrev)
      ensures fresh(gem) && fresh(recipes) && fresh(lots) && fresh(registry) && fresh(substrates) && fresh(jobs)
    {
      gem := new GemEngine.GemEquipment(device, mdln, softrev);
      recipes := new RecipeStore();
      lots := new LotTracker();
      registry := new ObjectRegistry();
      substrates := new SubstrateManager();
      jobs := new ProcessJobManager();
      new;
      DefineRegistries(gem);
    }

    /** `stage_lot_and_job`. */
    method StageLotAndJob(lot: Id, wafers: seq<Id>, pj: Id, recipe: string) returns (ok: bool)
      modifies registry, substrates, lots, jobs
      ensures Outcome(View(), ok) == Stage(old(View()), lot, wafers, pj, recipe)
    {
      var carrier := CarrierOf(lot);
      var i := 0;
      while i < |wafers|
        invariant 0 <= i <= |wafers|
        invariant RegisterWafers(old(View()), lot, wafers) == RegisterWafers(View(), lot, wafers[i..])
        invariant View() == old(View()).(registry := registry.objects, wafers := substrates.substrates)
      {
        assert wafers[i..][1..] == wafers[i + 1..];
        var registered := substrates.Register(registry, wafers[i], Some(lot), Port(1, Some(carrier)));
        if !registered {
          return false;
        }
        i := i + 1;
      }
      assert wafers[i..] == [];
      ok := registry.Create(carrier, Carrier);
      if !ok {
        return;
      }
      ok := lots.Register(MoveLot(Lot(lot, wafers, Created, []), InQueue).value.state);
      if !ok {
        return;
      }
      ok := jobs.Create(registry, pj, [carrier], recipe, wafers);
    }

    /** `apply_recipe_body`. */
    method ApplyRecipeBody(ppid: string, body: bytes)
      modifies recipes
      ensures recipes.recipes == ApplyRecipe(old(recipes.recipes), ppid, body)
    {
      if ppid in recipes.recipes {
        var ok := recipes.AppendVersion(ppid, NewVersion(0, HostParameters(), HostTolerances(), body));
      } else {
        var ok := recipes.Add(ppid, [NewVersion(1, HostParameters(), HostTolerances(), body)]);
      }
    }

    /** `update_svids`. */
    method UpdateSvids()
      modifies gem`svids
      ensures gem.View() == UpdateStatus(old(gem.View()))
    {
      gem.DefineSvid(2002, A(ControlName(gem.ctrl)));
      gem.DefineSvid(2003, A(CommunicationName(gem.com)));
    }

    method Perform(action: Gem.Action, start: Option<Id>) returns (start': Option<Id>)
      modifies gem, recipes
      ensures Acted(View(), start') == Act(Acted(old(View()), start), action)
    {
      start' := start;
      match action
      case RecipeReceived(ppid, body) => ApplyRecipeBody(ppid, body);
      case RemoteCommand(command, ps) =>
        if LowerAll(command) == "start" && JobParameter(ps).Some? {
          start' := JobParameter(ps);
        }
      case GoOnlineRequested => gem.OperatorRequestOnline(gem.onlineMode);
      case GoOfflineRequested => gem.TakeOffline(true);
      case ConstantsChanged(_) =>
      case TerminalMessage(_, _) =>
    }

    /** The critical section of `handle_data`. */
    method HandleData(m: Message) returns (reply: Option<Message>, start: Option<Id>)
      modifies gem, recipes
      ensures Served(View(), reply, start) == Serve(old(View()), m)
    {
      hide Gem.Handle, Act;
      reply := gem.HandleMessage(m);
      var actions := gem.TakeActions();
      start := None;
      ghost var begin := Acted(View(), None);
      var i := 0;
      while i < |actions|
        invariant 0 <= i <= |actions|
        invariant ActAll(begin, actions) == ActAll(Acted(View(), start), actions[i..])
      {
        assert actions[i..][0] == actions[i] && actions[i..][1..] == actions[i + 1..];
        start := Perform(actions[i], start);
        i := i + 1;
      }
      UpdateSvids();
    }

    method EventForSubject(ceid: nat, subject: string, note: string) returns (m: Message)
      modifies gem`nextId
      ensures Gem.Built(gem.View(), m) == EventFor(old(gem.View()), ceid, subject, note)
    {
      m := gem.MakeEventReport(ceid, [("SubjectID", A(subject)), ("Note", A(note))]);
    }

    /** `hold_lot`. */
    method Hold(job: Job)
      modifies lots
      ensures lots.lots == HoldLot(old(lots.lots), substrates.substrates, job)
    {
      if job.wafers != [] && job.wafers[0] in substrates.substrates && substrates.substrates[job.wafers[0]].lot.Some? {
        var ceid := lots.Transition(substrates.substrates[job.wafers[0]].lot.value, OnHold);
      }
    }

    /** Moves the active lot and appends its report. */
    method ReportActiveLot(to: LotState, note: string, events: seq<Message>) returns (all: seq<Message>)
      modifies gem`nextId, lots
      ensures Section(View(), Onward, all, all) ==
                var s := MoveActiveLot(old(View()), to, note); s.(send := events + s.send, made := events + s.made)
    {
      hide ActiveLot;
      all := events;
      var lot := ActiveLot(lots.lots, substrates.substrates);
      if lot.Some? {
        var ceid := lots.Transition(lot.value, to);
        if ceid.Some? {
          var event := EventForSubject(ceid.value, lot.value, note);
          all := all + [event];
        }
      }
      assert events + [] == events;
    }

    /** Phase 1 for a job that may not run. The messages of an unknown recipe are made and dropped. */
    method RefuseJob(pj: Id, job: Job, announce: bool) returns (turn: Turn, send: seq<Message>, ghost made: seq<Message>)
      modifies gem, jobs, lots
      ensures Section(View(), turn, send, made) == Refuse(old(View()), pj, job, announce)
    {
      hide HoldLot, JobEvent;
      var alarm := gem.MakeAlarm(DRIFT_OUT_OF_SPEC, true);
      if alarm.None? {
        return Dropped, [], [];
      }
      var ceid := jobs.Transition(registry, pj, Aborted);
      if ceid.None? {
        return Dropped, [], [alarm.value];
      }
      var event := EventForSubject(ceid.value, pj, "ABORTED");
      Hold(job);
      if announce {
        UpdateSvids();
        return Onward, [alarm.value, event], [alarm.value, event];
      }
      return Over, [], [alarm.value, event];
    }

    /** The three job moves of phase 1; an illegal one drops the connection with the events made so far. */
    method RunSteps(pj: Id) returns (ok: bool, events: seq<Message>)
      modifies gem`nextId, jobs
      ensures var s := RunMoves(old(View()), pj, TO_EXECUTING);
              View() == s.fab && events == s.made && ok == (s.turn == Onward) && (ok ==> s.send == s.made)
    {
      hide JobEvent, EventFor, RunMoves;
      var steps := TO_EXECUTING;
      events := [];
      ghost var f0 := View();
      var i := 0;
      RunMovesFrom(f0, pj, steps, f0, 0, []);
      while i < |steps|
        invariant 0 <= i <= |steps|
        invariant RunsOn(f0, pj, steps, View(), i, events)
      {
        ghost var f := View();
        var ceid := jobs.Transition(registry, pj, steps[i]);
        RunMovesNext(f0, pj, steps, f, i, events);
        if ceid.None? {
          return false, events;
        }
        var event := EventForSubject(ceid.value, pj, "RUNNING");
        events := events + [event];
        i := i + 1;
      }
      RunMovesEnd(f0, pj, steps, View(), events);
      ok := true;
    }

    /** Phase 1 for a job that may run. */
    method LaunchJob(pj: Id) returns (turn: Turn, send: seq<Message>, ghost made: seq<Message>)
      modifies gem, jobs, lots
      ensures Section(View(), turn, send, made) == Launch(old(View()), pj)
    {
      hide RunMoves, MoveActiveLot, UpdateStatus;
      var ok, events := RunSteps(pj);
      if !ok {
        return Dropped, [], events;
      }
      events := ReportActiveLot(InProcessing, "RUNNING", events);
      UpdateSvids();
      return Onward, events, events;
    }

    /** Phase 1 of `run_process_job`. */
    method Prepare(pj: Id) returns (turn: Turn, send: seq<Message>, ghost made: seq<Message>)
      modifies gem, jobs, lots
      ensures Section(View(), turn, send, made) == PhaseOne(old(View()), pj)
    {
      hide Refuse, Launch;
      if pj !in jobs.jobs {
        return Dropped, [], [];
      }
      var job := jobs.jobs[pj];
      if job.recipe !in recipes.recipes {
        turn, send, made := RefuseJob(pj, job, false);
        return;
      }
      var version := Latest(recipes.recipes[job.recipe]);
      var findings, worst := DetectDrift(version, Measured(gem.ecids, version.parameters));
      if worst == OutOfSpec {
        turn, send, made := RefuseJob(pj, job, true);
      } else {
        turn, send, made := LaunchJob(pj);
      }
    }

    /** A substrate move and its report. */
    method Transfer(wafer: Id, to: Location) returns (send: seq<Message>)
      modifies substrates, gem`nextId
      ensures Section(View(), Onward, send, send) == MoveWafer(old(View()), wafer, to)
    {
      hide Gem.MakeEvent, FormatLocation;
      send := [];
      var occurrence := substrates.MoveSubstrate(wafer, to);
      if occurrence.Some? {
        var event := gem.MakeEventReport(occurrence.value.ceid, occurrence.value.reports);
        send := [event];
      }
    }

    method RaiseAlarm() returns (send: seq<Message>)
      modifies gem`alarms, gem`nextId
      ensures Section(View(), Onward, send, send) == RaiseBackendAlarm(old(View()))
    {
      send := [];
      var alarm := gem.MakeAlarm(BACKEND_ERROR, true);
      if alarm.Some? {
        send := [alarm.value];
      }
    }

    /** Adds one to the first value of LOTS_PROCESSED, where there is one. */
    method BumpLotsProcessed()
      modifies gem`svids
      ensures gem.View() == CountLot(old(gem.View()))
    {
      if LOTS_PROCESSED in gem.svids {
        var status := gem.svids[LOTS_PROCESSED];
        if status.Num? && status.kind == NumKind.U4 && status.vals != [] {
          gem.DefineSvid(LOTS_PROCESSED, Num(NumKind.U4, status.vals[0 := (status.vals[0] + 1) % 0x1_0000_0000]));
        }
      }
    }

    /** Phase 3 of `run_process_job`. */
    method Conclude(pj: Id, failed: bool) returns (turn: Turn, send: seq<Message>)
      modifies gem, jobs, lots
      ensures Section(View(), turn, send, send) == PhaseThree(old(View()), pj, failed)
    {
      hide JobEvent, EventFor, MoveActiveLot, CountLot, UpdateStatus;
      var ceid := jobs.Transition(registry, pj, if failed then Aborted else Completed);
      if ceid.None? {
        return Dropped, [];
      }
      var note := if failed then "ABORTED" else "DONE";
      var event := EventForSubject(ceid.value, pj, note);
      send := ReportActiveLot(if failed then OnHold else LotCompleted, note, [event]);
      if !failed {
        BumpLotsProcessed();
      }
      UpdateSvids();
      turn := Over;
    }

    /** `run_process_job` with nobody else on the floor: exactly the run the interleaving semantics gives a
        runner left alone. `ok` is false when an error ends the connection. */
    method RunProcessJob(pj: Id, plan: Plan) returns (ok: bool, out: seq<Message>)
      modifies gem, jobs, lots, substrates
      ensures var solo := Alone(old(View()), Starting(pj), plan);
              View() == solo.fab && out == solo.out && ok == (solo.pc != Closed)
    {
      hide Alone, PhaseOne, PhaseThree, MoveWafer, RaiseBackendAlarm;
      ghost var f0 := View();
      var turn: Turn;
      ghost var made: seq<Message>;
      turn, out, made := Prepare(pj);
      ghost var f1 := View();
      StartingSteps(f0, pj, plan);
      if turn != Onward {
        return turn == Over, out;
      }
      CheckingSteps(f1, pj, plan);
      if !(pj in jobs.jobs && jobs.jobs[pj].state == Executing) {
        assert out + [] == out;
        return true, out;
      }
      var wafers := jobs.jobs[pj].wafers;
      var failed := false;
      var k := 0;
      while k < |wafers| && !failed
        invariant 0 <= k <= |wafers| && (failed ==> k < |wafers|)
        invariant var solo := Alone(f0, Starting(pj), plan);
                  var rest := Alone(View(), if failed then Finishing(pj, true) else Loop(pj, wafers, k), plan);
                  solo.fab == rest.fab && solo.pc == rest.pc && solo.out == out + rest.out
        decreases |wafers| - k, if failed then 0 else 1
      {
        ghost var f := View();
        var inEvents := Transfer(wafers[k], LITHO);
        WaferEntered(f, pj, wafers, k, plan);
        ghost var g := View();
        out := out + inEvents;
        if !plan(k) {
          failed := true;
          var alarm := RaiseAlarm();
          WaferRefused(g, pj, wafers, k, plan);
          out := out + alarm;
        } else {
          var outEvents := Transfer(wafers[k], Fixed);
          WaferLeft(g, pj, wafers, k, plan);
          out := out + outEvents;
          k := k + 1;
        }
      }
      ghost var h := View();
      var events: seq<Message>;
      turn, events := Conclude(pj, failed);
      FinishingSteps(h, pj, failed, plan);
      out := out + events;
      ok := turn != Dropped;
    }
  }

  // ----- the steps of phase 1 -----

  /** After `i` of the moves, with these events made. */
  ghost predicate RunsOn(f0: Fab, pj: Id, steps: seq<JobState>, f: Fab, i: nat, events: seq<Message>)
    requires i <= |steps|
  {
    var rest := RunMoves(f, pj, steps[i..]);
    RunMoves(f0, pj, steps) == rest.(send := events + rest.send, made := events + rest.made)
  }

  lemma RunMovesFrom(f0: Fab, pj: Id, steps: seq<JobState>, f: Fab, i: nat, events: seq<Message>)
    requires f == f0 && i == 0 && events == []
    ensures RunsOn(f0, pj, steps, f, i, events)
  {
    hide RunMoves;
    assert steps[0..] == steps;
    var s := RunMoves(f0, pj, steps);
    assert [] + s.send == s.send && [] + s.made == s.made;
  }

  lemma RunMovesNext(f0: Fab, pj: Id, steps: seq<JobState>, f: Fab, i: nat, events: seq<Message>)
    requires i < |steps| && RunsOn(f0, pj, steps, f, i, events)
    ensures match MoveJob(f.registry, f.jobs, pj, steps[i])
            case None => RunMoves(f0, pj, steps).fab == f && RunMoves(f0, pj, steps).turn == Dropped
                         && RunMoves(f0, pj, steps).made == events
            case Some(moved) =>
              var built := EventFor(f.gem, moved.event, pj, "RUNNING");
              RunsOn(f0, pj, steps, f.(gem := built.gem, jobs := moved.state), i + 1, events + [built.message])
  {
    hide JobEvent, EventFor, MoveJob;
    assert steps[i..][0] == steps[i] && steps[i..][1..] == steps[i + 1..];
    match MoveJob(f.registry, f.jobs, pj, steps[i])
    case None => assert events + [] == events;
    case Some(moved) =>
      var built := EventFor(f.gem, moved.event, pj, "RUNNING");
      var rest := RunMoves(f.(gem := built.gem, jobs := moved.state), pj, steps[i + 1..]);
      assert events + ([built.message] + rest.send) == (events + [built.message]) + rest.send;
      assert events + ([built.message] + rest.made) == (events + [built.message]) + rest.made;
  }

  lemma RunMovesEnd(f0: Fab, pj: Id, steps: seq<JobState>, f: Fab, events: seq<Message>)
    requires RunsOn(f0, pj, steps, f, |steps|, events)
    ensures RunMoves(f0, pj, steps) == Section(f, Onward, events, events)
  {
    assert steps[|steps|..] == [] && events + [] == events;
  }

  // ----- the steps of a lone runner -----

  lemma StartingSteps(f: Fab, pj: Id, plan: Plan)
    ensures var s := PhaseOne(f, pj);
            var a := Alone(f, Starting(pj), plan);
            match s.turn
            case Onward => var b := Alone(s.fab, Checking(pj), plan);
                           a.fab == b.fab && a.pc == b.pc && a.out == s.send + b.out
            case Over => a == Solo(s.fab, s.send, Serving)
            case Dropped => a == Solo(s.fab, s.send, Closed)
  {
    hide PhaseOne;
    var s := PhaseOne(f, pj);
    assert s.send + [] == s.send;
  }

  lemma CheckingSteps(f: Fab, pj: Id, plan: Plan)
    ensures Alone(f, Checking(pj), plan) ==
              if Started(f, pj) then Alone(f, Loop(pj, f.jobs[pj].wafers, 0), plan) else Solo(f, [], Serving)
  {
    hide PhaseThree, MoveWafer;
    if Started(f, pj) {
      CheckingTurns(f, pj);
      hide Alone;
      AloneStep(f, Checking(pj), plan, [], f, Fetching(pj));
      AloneStep(f, Fetching(pj), plan, [], f, Loop(pj, f.jobs[pj].wafers, 0));
      assert [] + Alone(f, Loop(pj, f.jobs[pj].wafers, 0), plan).out == Alone(f, Loop(pj, f.jobs[pj].wafers, 0), plan).out;
      assert [] + Alone(f, Fetching(pj), plan).out == Alone(f, Fetching(pj), plan).out;
    }
  }

  lemma WaferEntered(f: Fab, pj: Id, ws: seq<Id>, k: nat, plan: Plan)
    requires k < |ws|
    ensures var s := MoveWafer(f, ws[k], LITHO);
            var a, b := Alone(f, Loop(pj, ws, k), plan), Alone(s.fab, Planning(pj, ws, k), plan);
            a.fab == b.fab && a.pc == b.pc && a.out == s.send + b.out
  {
    hide MoveWafer, Alone, PhaseOne, PhaseThree, RaiseBackendAlarm;
    var s := MoveWafer(f, ws[k], LITHO);
    AloneStep(f, Entering(pj, ws, k), plan, s.send, s.fab, Planning(pj, ws, k));
  }

  lemma WaferRefused(f: Fab, pj: Id, ws: seq<Id>, k: nat, plan: Plan)
    requires k < |ws| && !plan(k)
    ensures var s := RaiseBackendAlarm(f);
            var a, b := Alone(f, Planning(pj, ws, k), plan), Alone(s.fab, Finishing(pj, true), plan);
            a.fab == b.fab && a.pc == b.pc && a.out == s.send + b.out
  {
    hide MoveWafer, Alone, PhaseOne, PhaseThree, RaiseBackendAlarm;
    var s := RaiseBackendAlarm(f);
    AloneStep(f, Planning(pj, ws, k), plan, [], f, Failing(pj));
    AloneStep(f, Failing(pj), plan, s.send, s.fab, Finishing(pj, true));
    assert [] + Alone(f, Failing(pj), plan).out == Alone(f, Failing(pj), plan).out;
  }

  lemma WaferLeft(f: Fab, pj: Id, ws: seq<Id>, k: nat, plan: Plan)
    requires k < |ws| && plan(k)
    ensures var s := MoveWafer(f, ws[k], Fixed);
            var a, b := Alone(f, Planning(pj, ws, k), plan), Alone(s.fab, Loop(pj, ws, k + 1), plan);
            a.fab == b.fab && a.pc == b.pc && a.out == s.send + b.out
  {
    hide MoveWafer, Alone, PhaseOne, PhaseThree, RaiseBackendAlarm, Loop;
    var s := MoveWafer(f, ws[k], Fixed);
    AloneStep(f, Planning(pj, ws, k), plan, [], f, Leaving(pj, ws, k));
    AloneStep(f, Leaving(pj, ws, k), plan, s.send, s.fab, Loop(pj, ws, k + 1));
    assert [] + Alone(f, Leaving(pj, ws, k), plan).out == Alone(f, Leaving(pj, ws, k), plan).out;
  }

  lemma FinishingSteps(f: Fab, pj: Id, failed: bool, plan: Plan)
    ensures var s := PhaseThree(f, pj, failed);
            Alone(f, Finishing(pj, failed), plan) == Solo(s.fab, s.send, if s.turn == Dropped then Closed else Serving)
  {
    hide PhaseThree;
    var s := PhaseThree(f, pj, failed);
    assert s.send + [] == s.send;
  }
}
