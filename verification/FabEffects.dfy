/** What each critical section can do to jobs, lots, wafers and registries. */
module FabEffects {
  import opened Basics
  import opened Secs
  import opened Hsms
  import opened Recipes
  import opened Gem300
  import opened Fab
  import Gem

  /** Nothing but the GEM engine and the recipes differs. */
  predicate SameFloor(f: Fab, g: Fab) {
    f.lots == g.lots && f.registry == g.registry && f.wafers == g.wafers && f.jobs == g.jobs
  }

  /** Nothing but jobs, lots and the GEM engine differs. */
  predicate SameMaterial(f: Fab, g: Fab) {
    f.registry == g.registry && f.wafers == g.wafers && f.recipes == g.recipes
  }

  function WithJobState(jobs: Jobs, pj: Id, to: JobState): Jobs
    requires pj in jobs
  {
    jobs[pj := jobs[pj].(state := to)]
  }

  // ----- host messages -----

  lemma {:induction false} ActAllFloor(a: Acted, actions: seq<Gem.Action>)
    ensures SameFloor(a.fab, ActAll(a, actions).fab)
    decreases actions
  {
    if actions != [] {
      ActAllFloor(Act(a, actions[0]), actions[1..]);
    }
  }

  /** A host message never touches a job, a lot, a wafer or the registry. */
  lemma ServeFloor(f: Fab, m: Message)
    ensures SameFloor(f, Serve(f, m).fab)
  {
    var Reply(g, reply) := Gem.Handle(f.gem, m);
    ActAllFloor(Acted(f.(gem := g.(pending := [])), None), g.pending);
  }

  // ----- phase 1 -----

  /** One move of phase 1, for a step that is legal. */
  lemma RunMovesStep(f: Fab, pj: Id, steps: seq<JobState>)
    requires steps != [] && pj in f.registry && pj in f.jobs && JobEvent(f.jobs[pj].state, steps[0]).Some?
    ensures var b := EventFor(f.gem, JobEvent(f.jobs[pj].state, steps[0]).value, pj, "RUNNING");
            var rest := RunMoves(f.(gem := b.gem, jobs := WithJobState(f.jobs, pj, steps[0])), pj, steps[1..]);
            RunMoves(f, pj, steps) == rest.(send := [b.message] + rest.send, made := [b.message] + rest.made)
  {
    hide EventFor;
  }

  /** The three messages of a launch, each made by the engine the one before left. */
  function LaunchMessages(g: Gem.State, pj: Id): seq<Message> {
    var b1 := EventFor(g, 6001, pj, "RUNNING");
    var b2 := EventFor(b1.gem, 6001, pj, "RUNNING");
    [b1.message, b2.message, EventFor(b2.gem, 6002, pj, "RUNNING").message]
  }

  function GemAfterLaunch(g: Gem.State, pj: Id): Gem.State {
    EventFor(EventFor(EventFor(g, 6001, pj, "RUNNING").gem, 6001, pj, "RUNNING").gem, 6002, pj, "RUNNING").gem
  }

  predicate CanLaunch(f: Fab, pj: Id) {
    pj in f.registry && pj in f.jobs && f.jobs[pj].state == Queued
  }

  /** The three moves of phase 1 succeed together or not at all. */
  lemma LaunchMoves(f: Fab, pj: Id)
    ensures RunMoves(f, pj, TO_EXECUTING) ==
              if CanLaunch(f, pj)
              then Section(f.(gem := GemAfterLaunch(f.gem, pj), jobs := WithJobState(f.jobs, pj, Executing)), Onward,
                           LaunchMessages(f.gem, pj), LaunchMessages(f.gem, pj))
              else Section(f, Dropped, [], [])
  {
    hide EventFor;
    if CanLaunch(f, pj) {
      hide RunMoves;
      var b1 := EventFor(f.gem, 6001, pj, "RUNNING");
      var f1 := f.(gem := b1.gem, jobs := WithJobState(f.jobs, pj, SettingUp));
      var b2 := EventFor(f1.gem, 6001, pj, "RUNNING");
      var f2 := f1.(gem := b2.gem, jobs := WithJobState(f1.jobs, pj, WaitingForStart));
      var b3 := EventFor(f2.gem, 6002, pj, "RUNNING");
      var f3 := f2.(gem := b3.gem, jobs := WithJobState(f2.jobs, pj, Executing));
      RunMovesStep(f, pj, [SettingUp, WaitingForStart, Executing]);
      RunMovesStep(f1, pj, [WaitingForStart, Executing]);
      RunMovesStep(f2, pj, [Executing]);
      RunMovesDone(f3, pj);
      assert f3.jobs == WithJobState(f.jobs, pj, Executing);
      assert [b1.message] + ([b2.message] + ([b3.message] + [])) == LaunchMessages(f.gem, pj);
    }
  }

  lemma RunMovesDone(f: Fab, pj: Id)
    ensures RunMoves(f, pj, []) == Section(f, Onward, [], [])
  {
  }

  lemma GemAfterLaunchKeeps(g: Gem.State, pj: Id)
    ensures GemAfterLaunch(g, pj) == g.(nextId := GemAfterLaunch(g, pj).nextId)
  {
  }

  predicate LaunchesJob(f: Fab, pj: Id) {
    && pj in f.registry && pj in f.jobs && f.jobs[pj].state == Queued
    && f.jobs[pj].recipe in f.recipes && MayRun(f, f.jobs[pj])
  }

  predicate RefusesJob(f: Fab, pj: Id) {
    && pj in f.registry && pj in f.jobs && !Terminal(f.jobs[pj].state)
    && DRIFT_OUT_OF_SPEC in f.gem.alarms
    && (f.jobs[pj].recipe !in f.recipes || !MayRun(f, f.jobs[pj]))
  }

  lemma MoveActiveLotFrame(f: Fab, to: LotState, note: string)
    ensures var s := MoveActiveLot(f, to, note);
            s.fab == f.(gem := s.fab.gem, lots := s.fab.lots) && s.turn == Onward && s.send == s.made
    ensures var s := MoveActiveLot(f, to, note);
            s.fab.lots == match ActiveLot(f.lots, f.wafers)
                          case None => f.lots
                          case Some(lot) =>
                            match MoveLotById(f.lots, lot, to)
                            case None => f.lots
                            case Some(moved) => moved.state
  {
  }

  function LotsAfterActive(f: Fab, to: LotState): Lots {
    MoveActiveLot(f, to, "").fab.lots
  }

  lemma LaunchEffect(f: Fab, pj: Id)
    ensures var s := Launch(f, pj);
            if CanLaunch(f, pj) then
              SameMaterial(f, s.fab) && s.turn == Onward
              && s.fab.jobs == WithJobState(f.jobs, pj, Executing) && s.fab.lots == LotsAfterActive(f, InProcessing)
              && s.send == s.made && |s.send| >= 3
            else
              s.fab == f && s.turn == Dropped && s.send == []
  {
    LaunchMoves(f, pj);
    assert |LaunchMessages(f.gem, pj)| == 3;
    hide RunMoves, GemAfterLaunch, LaunchMessages, WithJobState;
    var s1 := RunMoves(f, pj, TO_EXECUTING);
    if CanLaunch(f, pj) {
      MoveActiveLotFrame(s1.fab, InProcessing, "RUNNING");
      MoveActiveLotFrame(f, InProcessing, "");
    }
    hide MoveActiveLot;
  }

  lemma RefuseEffect(f: Fab, pj: Id, job: Job, announce: bool)
    ensures var s := Refuse(f, pj, job, announce);
            && SameMaterial(f, s.fab)
            && (if DRIFT_OUT_OF_SPEC in f.gem.alarms && pj in f.registry && pj in f.jobs && !Terminal(f.jobs[pj].state) then
                  && s.turn == (if announce then Onward else Over)
                  && s.fab.jobs == WithJobState(f.jobs, pj, Aborted)
                  && s.fab.lots == HoldLot(f.lots, f.wafers, job)
                  && |s.made| == 2 && s.send == (if announce then s.made else [])
                else
                  s.turn == Dropped && s.fab.jobs == f.jobs && s.fab.lots == f.lots && s.send == [])
  {
    hide HoldLot, EventFor;
  }

  /** Phase 1 launches a queued job that may run and sends what it made; it aborts a live job that may not,
      and sends the two messages it made if the recipe is known; otherwise it drops the connection with
      every job and lot as it was, and sends nothing. */
  lemma PhaseOneEffect(f: Fab, pj: Id)
    ensures var s := PhaseOne(f, pj);
            && SameMaterial(f, s.fab)
            && (if LaunchesJob(f, pj) then
                  && s.turn == Onward
                  && s.fab.jobs == WithJobState(f.jobs, pj, Executing)
                  && s.fab.lots == LotsAfterActive(f, InProcessing)
                  && s.send == s.made && |s.send| >= 3
                else if RefusesJob(f, pj) then
                  && s.turn == (if f.jobs[pj].recipe in f.recipes then Onward else Over)
                  && s.fab.jobs == WithJobState(f.jobs, pj, Aborted)
                  && s.fab.lots == HoldLot(f.lots, f.wafers, f.jobs[pj])
                  && |s.made| == 2 && s.send == (if f.jobs[pj].recipe in f.recipes then s.made else [])
                else
                  s.turn == Dropped && s.fab.jobs == f.jobs && s.fab.lots == f.lots && s.send == [])
  {
    hide Launch, Refuse, LotsAfterActive, HoldLot, WithJobState, MayRun;
    if pj in f.jobs {
      LaunchEffect(f, pj);
      RefuseEffect(f, pj, f.jobs[pj], f.jobs[pj].recipe in f.recipes);
    }
  }

  /** Phase 3 finishes a live job and moves the active lot, or drops the connection. */
  lemma PhaseThreeEffect(f: Fab, pj: Id, failed: bool)
    ensures var s := PhaseThree(f, pj, failed);
            var to := if failed then Aborted else Completed;
            && SameMaterial(f, s.fab)
            && (if pj in f.registry && pj in f.jobs && JobEvent(f.jobs[pj].state, to).Some? then
                  && s.turn == Over
                  && s.fab.jobs == WithJobState(f.jobs, pj, to)
                  && s.fab.lots == LotsAfterActive(f, if failed then OnHold else LotCompleted)
                else
                  s.turn == Dropped && s.fab == f)
  {
    var to := if failed then Aborted else Completed;
    if MoveJob(f.registry, f.jobs, pj, to).Some? {
      var note := if failed then "ABORTED" else "DONE";
      var lotTo := if failed then OnHold else LotCompleted;
      var Moved(jobs, ceid) := MoveJob(f.registry, f.jobs, pj, to).value;
      var f1 := f.(gem := EventFor(f.gem, ceid, pj, note).gem, jobs := jobs);
      MoveActiveLotFrame(f1, lotTo, note);
      MoveActiveLotFrame(f, lotTo, "");
    }
  }

  /** A wafer move changes one location. */
  lemma MoveWaferEffect(f: Fab, wafer: Id, to: Location)
    ensures var s := MoveWafer(f, wafer, to);
            && s.fab == f.(gem := s.fab.gem, wafers := s.fab.wafers)
            && s.fab.wafers == (if wafer in f.wafers then f.wafers[wafer := f.wafers[wafer].(location := to)] else f.wafers)
  {
  }

  // ----- staging -----

  predicate NoRepeats(ids: seq<Id>) {
    forall i, j :: 0 <= i < j < |ids| ==> ids[i] != ids[j]
  }

  function NewWafer(lot: Id): Wafer {
    Wafer(Some(lot), Port(1, Some(CarrierOf(lot))))
  }

  /** One wafer registered. */
  function Registered(f: Fab, lot: Id, w: Id): Fab {
    f.(registry := f.registry[w := Substrate], wafers := f.wafers[w := NewWafer(lot)])
  }

  lemma RegisterOne(f: Fab, lot: Id, ws: seq<Id>)
    requires ws != [] && ws[0] !in f.registry
    ensures RegisterWafers(f, lot, ws) == RegisterWafers(Registered(f, lot, ws[0]), lot, ws[1..])
  {
  }

  /** Registration touches only identifiers that were free. */
  lemma {:induction false} RegisterWafersFrame(f: Fab, lot: Id, ws: seq<Id>)
    ensures var o := RegisterWafers(f, lot, ws);
            && o.fab == f.(registry := o.fab.registry, wafers := o.fab.wafers)
            && (forall x :: x in f.registry ==> x in o.fab.registry)
            && (forall x :: x in o.fab.registry && x !in f.registry ==> x in ws)
            && (forall x :: x in f.wafers && x in f.registry ==> x in o.fab.wafers && o.fab.wafers[x] == f.wafers[x])
            && (forall x :: x in o.fab.wafers ==> x in o.fab.registry || x in f.wafers)
    decreases ws
  {
    if ws != [] && ws[0] !in f.registry {
      RegisterOne(f, lot, ws);
      var f' := Registered(f, lot, ws[0]);
      RegisterWafersFrame(f', lot, ws[1..]);
      hide RegisterWafers;
      var g := RegisterWafers(f', lot, ws[1..]).fab;
      forall x | x in g.registry && x !in f.registry ensures x in ws {
        if x != ws[0] {
          assert x in ws[1..];
        }
      }
      assert ws[0] in g.registry;
    }
  }

  predicate AllFree(f: Fab, ws: seq<Id>) {
    forall i :: 0 <= i < |ws| ==> ws[i] !in f.registry
  }

  lemma FreeStep(f: Fab, lot: Id, ws: seq<Id>)
    requires ws != [] && ws[0] !in f.registry
    ensures NoRepeats(ws) && AllFree(f, ws)
            <==> NoRepeats(ws[1..]) && AllFree(Registered(f, lot, ws[0]), ws[1..])
  {
    var f', rest := Registered(f, lot, ws[0]), ws[1..];
    assert forall i :: 0 < i < |ws| ==> ws[i] == rest[i - 1];
    if NoRepeats(ws) && AllFree(f, ws) {
      forall i | 0 <= i < |rest| ensures rest[i] !in f'.registry {
        assert rest[i] == ws[i + 1] != ws[0];
      }
      forall i, j | 0 <= i < j < |rest| ensures rest[i] != rest[j] {
        assert rest[i] == ws[i + 1] && rest[j] == ws[j + 1];
      }
    }
    if NoRepeats(rest) && AllFree(f', rest) {
      forall i, j | 0 <= i < j < |ws| ensures ws[i] != ws[j] {
        assert ws[j] == rest[j - 1];
        if i > 0 {
          assert ws[i] == rest[i - 1];
        }
      }
    }
  }

  /** Registration succeeds exactly when the list has no repeats and every name in it was free,
      and then every wafer is new, in its carrier, and marked with the lot. */
  lemma {:induction false} RegisterWafersSucceeds(f: Fab, lot: Id, ws: seq<Id>)
    ensures RegisterWafers(f, lot, ws).ok <==> NoRepeats(ws) && AllFree(f, ws)
    ensures var o := RegisterWafers(f, lot, ws);
            o.ok ==> forall i :: 0 <= i < |ws| ==>
                       ws[i] in o.fab.registry && ws[i] in o.fab.wafers && o.fab.wafers[ws[i]] == NewWafer(lot)
    decreases ws
  {
    if ws != [] && ws[0] !in f.registry {
      RegisterOne(f, lot, ws);
      FreeStep(f, lot, ws);
      var f' := Registered(f, lot, ws[0]);
      RegisterWafersSucceeds(f', lot, ws[1..]);
      RegisterWafersFrame(f', lot, ws[1..]);
      hide RegisterWafers;
      assert forall i :: 0 < i < |ws| ==> ws[i] == ws[1..][i - 1];
    }
  }

  lemma RegisterWafersEffect(f: Fab, lot: Id, ws: seq<Id>)
    ensures var o := RegisterWafers(f, lot, ws);
            && o.fab == f.(registry := o.fab.registry, wafers := o.fab.wafers)
            && (forall x :: x in f.registry ==> x in o.fab.registry)
            && (forall x :: x in o.fab.registry && x !in f.registry ==> x in ws)
            && (forall x :: x in f.wafers && x in f.registry ==> x in o.fab.wafers && o.fab.wafers[x] == f.wafers[x])
            && (forall x :: x in o.fab.wafers ==> x in o.fab.registry || x in f.wafers)
            && (o.ok <==> NoRepeats(ws) && AllFree(f, ws))
            && (o.ok ==> forall w :: w in ws ==> w in o.fab.registry && w in o.fab.wafers && o.fab.wafers[w] == NewWafer(lot))
  {
    RegisterWafersFrame(f, lot, ws);
    RegisterWafersSucceeds(f, lot, ws);
  }
}
