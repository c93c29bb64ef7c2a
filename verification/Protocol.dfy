/** Safety of the job protocol, as an invariant of every step: one runner per job, jobs at rest in four
    states only, wafers moved in order. */
module Protocol {
  import opened Basics
  import opened Hsms
  import opened Gem300
  import opened Fab
  import opened FabEffects
  import opened Interleaving

  // ----- the invariant -----

  /** A job outside a critical section. */
  predicate AtRest(s: JobState) {
    s == Queued || s == Executing || s == Completed || s == Aborted
  }

  /** Jobs are registered, at rest, and own disjoint lists of registered wafers. */
  ghost predicate JobsSound(f: Fab) {
    && (forall pj :: pj in f.jobs ==> pj in f.registry && AtRest(f.jobs[pj].state))
    && (forall w :: w in f.wafers ==> w in f.registry)
    && (forall pj :: pj in f.jobs ==>
          NoRepeats(f.jobs[pj].wafers) && forall w :: w in f.jobs[pj].wafers ==> w in f.wafers)
    && (forall p, q, w :: p in f.jobs && q in f.jobs && w in f.jobs[p].wafers && w in f.jobs[q].wafers ==> p == q)
  }

  /** The runner has passed the started check for `pj` and not finished with it. */
  predicate Engaged(pc: Pc, pj: Id) {
    && (pc.Fetching? || pc.Entering? || pc.Planning? || pc.Leaving? || pc.Failing? || pc.Finishing?)
    && pc.pj == pj
  }

  predicate EngagedAt(s: System, c: nat, pj: Id) {
    c in s.connections && Engaged(s.connections[c].pc, pj)
  }

  predicate CheckingAt(s: System, c: nat, pj: Id) {
    c in s.connections && s.connections[c].pc == Checking(pj)
  }

  /** The runner has left phase 1 for `pj` and not finished with it. */
  predicate InvolvedAt(s: System, c: nat, pj: Id) {
    CheckingAt(s, c, pj) || EngagedAt(s, c, pj)
  }

  /** The job exists and phase 1 has decided about it. */
  predicate Begun(f: Fab, pj: Id) {
    pj in f.jobs && f.jobs[pj].state != Queued
  }

  ghost predicate RunnersSound(s: System) {
    && (forall c, pj :: InvolvedAt(s, c, pj) ==> Begun(s.fab, pj))
    && (forall pj :: pj in s.passed ==> Begun(s.fab, pj))
    && (forall c, d, pj :: InvolvedAt(s, c, pj) && InvolvedAt(s, d, pj) && Started(s.fab, pj) ==> c == d)
    && (forall c, pj :: CheckingAt(s, c, pj) && Started(s.fab, pj) ==> pj !in s.passed)
    && (forall c, d, pj :: EngagedAt(s, c, pj) && EngagedAt(s, d, pj) ==> c == d)
    && (forall c, pj :: EngagedAt(s, c, pj) ==> pj in s.passed)
    && NoRepeats(s.passed)
  }

  /** The wafers of a job with the first `k` out of the tool, the next one in the chamber if
      `inside`, and the rest still in their carrier. */
  ghost predicate Shape(ws: Wafers, job: Job, k: nat, inside: bool) {
    && k <= |job.wafers| && (inside ==> k < |job.wafers|) && job.carriers != []
    && forall i :: 0 <= i < |job.wafers| ==>
         job.wafers[i] in ws && ws[job.wafers[i]].location == Place(job, i, k, inside)
  }

  function Place(job: Job, i: nat, k: nat, inside: bool): Location
    requires job.carriers != []
  {
    if i < k then Fixed else if i == k && inside then LITHO else Port(1, Some(job.carriers[0]))
  }

  ghost predicate SomeShape(ws: Wafers, job: Job) {
    exists k, inside :: Shape(ws, job, k, inside)
  }

  /** What a runner's place says about the wafers of its job. */
  ghost predicate PlaceFits(f: Fab, pc: Pc) {
    match pc
    case Fetching(pj) => pj in f.jobs && Shape(f.wafers, f.jobs[pj], 0, false)
    case Entering(pj, ws, k) => pj in f.jobs && ws == f.jobs[pj].wafers && k < |ws| && Shape(f.wafers, f.jobs[pj], k, false)
    case Planning(pj, ws, k) => pj in f.jobs && ws == f.jobs[pj].wafers && k < |ws| && Shape(f.wafers, f.jobs[pj], k, true)
    case Leaving(pj, ws, k) => pj in f.jobs && ws == f.jobs[pj].wafers && k < |ws| && Shape(f.wafers, f.jobs[pj], k, true)
    case Failing(pj) => pj in f.jobs
    case Finishing(pj, failed) =>
      pj in f.jobs && (!failed ==> Shape(f.wafers, f.jobs[pj], |f.jobs[pj].wafers|, false))
    case _ => true
  }

  ghost predicate JobWafersSound(s: System, pj: Id)
    requires pj in s.fab.jobs
  {
    var ws, job := s.fab.wafers, s.fab.jobs[pj];
    && SomeShape(ws, job)
    && (pj !in s.passed ==> Shape(ws, job, 0, false))
    && (job.state == Completed ==> Shape(ws, job, |job.wafers|, false))
  }

  ghost predicate WafersSound(s: System) {
    && (forall pj :: pj in s.fab.jobs ==> JobWafersSound(s, pj))
    && (forall c :: c in s.connections ==> PlaceFits(s.fab, s.connections[c].pc))
  }

  ghost predicate Sound(s: System) {
    JobsSound(s.fab) && RunnersSound(s) && WafersSound(s)
  }

  // ----- frames -----

  /** Every connection but `c` stands where it stood. */
  predicate OnlyMoves(s: System, s': System, c: nat) {
    && (forall d :: d in s.connections ==> d in s'.connections)
    && (forall d :: d in s'.connections && d != c ==> d in s.connections && s'.connections[d].pc == s.connections[d].pc)
  }

  /** What a runner's step does to the connections. */
  lemma AdvanceMoves(s: System, c: nat, accepts: bool)
    requires c in s.connections && Running(s.connections[c].pc) && WellPlaced(s.connections[c].pc)
    ensures var s', t := Next(s, Advance(c, accepts)), RunnerStep(s.fab, s.connections[c].pc, accepts);
            && OnlyMoves(s, s', c) && c in s'.connections && s'.connections[c].pc == t.pc && s'.fab == t.section.fab
            && s'.passed == if s.connections[c].pc.Checking? && t.pc.Fetching? then s.passed + [s.connections[c].pc.pj] else s.passed
  {
    hide RunnerStep;
  }

  lemma OthersStay(s: System, s': System, c: nat, d: nat, pj: Id)
    requires OnlyMoves(s, s', c) && d != c
    ensures EngagedAt(s', d, pj) == EngagedAt(s, d, pj)
    ensures CheckingAt(s', d, pj) == CheckingAt(s, d, pj)
    ensures InvolvedAt(s', d, pj) == InvolvedAt(s, d, pj)
  {
  }

  /** The same lists, in the same places. */
  lemma ShapeFrame(ws: Wafers, ws': Wafers, job: Job, job': Job)
    requires job'.wafers == job.wafers && job'.carriers == job.carriers
    requires forall w :: w in job.wafers && w in ws ==> w in ws' && ws'[w].location == ws[w].location
    ensures forall k, inside :: Shape(ws, job, k, inside) ==> Shape(ws', job', k, inside)
    ensures SomeShape(ws, job) ==> SomeShape(ws', job')
  {
    forall k, inside | Shape(ws, job, k, inside) ensures Shape(ws', job', k, inside) {
      forall i | 0 <= i < |job.wafers| ensures job.wafers[i] in ws' && ws'[job.wafers[i]].location == Place(job', i, k, inside) {
        assert job.wafers[i] in job.wafers;
      }
    }
    if SomeShape(ws, job) {
      var k, inside :| Shape(ws, job, k, inside);
      assert Shape(ws', job', k, inside);
    }
  }

  /** A job keeps its lists and its wafers keep their places. */
  ghost predicate JobStays(f: Fab, f': Fab, pj: Id) {
    && pj in f.jobs && pj in f'.jobs
    && f'.jobs[pj].wafers == f.jobs[pj].wafers && f'.jobs[pj].carriers == f.jobs[pj].carriers
    && forall w :: w in f.jobs[pj].wafers && w in f.wafers ==> w in f'.wafers && f'.wafers[w].location == f.wafers[w].location
  }

  lemma PlaceFrame(f: Fab, f': Fab, pc: Pc)
    requires PlaceFits(f, pc)
    requires !pc.Serving? && !pc.Closed? && pc.pj in f.jobs ==> JobStays(f, f', pc.pj)
    ensures PlaceFits(f', pc)
  {
    if !pc.Serving? && !pc.Closed? && pc.pj in f.jobs {
      ShapeFrame(f.wafers, f'.wafers, f.jobs[pc.pj], f'.jobs[pc.pj]);
    }
  }

  // ----- staging -----

  /** Staging leaves every job and every wafer of a job alone, and adds at most one job: queued,
      with fresh distinct wafers still in their carrier. */
  lemma StageEffect(f: Fab, lot: Id, ws: seq<Id>, pj: Id, recipe: string)
    requires JobsSound(f)
    ensures var f' := Stage(f, lot, ws, pj, recipe).fab;
            && (forall x :: x in f.registry ==> x in f'.registry)
            && (forall x :: x in f.wafers ==> x in f'.wafers && f'.wafers[x] == f.wafers[x])
            && (forall x :: x in f'.wafers ==> x in f'.registry)
            && (f'.jobs == f.jobs || AddsJob(f, f', lot, ws, pj, recipe))
  {
    RegisterWafersEffect(f, lot, ws);
    hide RegisterWafers, NoRepeats, FindLot;
  }

  ghost predicate AddsJob(f: Fab, f': Fab, lot: Id, ws: seq<Id>, pj: Id, recipe: string) {
    && pj !in f.registry && f'.jobs == f.jobs[pj := Job([CarrierOf(lot)], recipe, Queued, ws)]
    && pj in f'.registry && NoRepeats(ws)
    && (forall w :: w in ws ==> w !in f.registry && w in f'.wafers && f'.wafers[w] == NewWafer(lot))
  }

  lemma StageSound(s: System, lot: Id, ws: seq<Id>, pj: Id, recipe: string)
    requires Sound(s)
    ensures Sound(Next(s, StageLot(lot, ws, pj, recipe)))
  {
    var f' := Stage(s.fab, lot, ws, pj, recipe).fab;
    StageEffect(s.fab, lot, ws, pj, recipe);
    hide Stage, WafersSound, Shape;
    StageJobsSound(s.fab, f', lot, ws, pj, recipe);
    StageRunnersSound(s, f');
    StageWafersSound(s, f', lot, ws, pj, recipe);
  }

  lemma StageWafersSound(s: System, f': Fab, lot: Id, ws: seq<Id>, pj: Id, recipe: string)
    requires JobsSound(s.fab) && WafersSound(s) && RunnersSound(s)
    requires forall x :: x in s.fab.wafers ==> x in f'.wafers && f'.wafers[x] == s.fab.wafers[x]
    requires f'.jobs == s.fab.jobs || AddsJob(s.fab, f', lot, ws, pj, recipe)
    ensures WafersSound(s.(fab := f'))
  {
    var s' := s.(fab := f');
    assert forall q :: q in s.passed ==> Begun(s.fab, q);
    hide RunnersSound;
    forall q | q in f'.jobs ensures JobWafersSound(s', q) {
      if q in s.fab.jobs {
        assert JobWafersSound(s, q);
        ShapeFrame(s.fab.wafers, f'.wafers, s.fab.jobs[q], f'.jobs[q]);
      } else {
        assert Shape(f'.wafers, f'.jobs[q], 0, false);
      }
    }
    forall c | c in s'.connections ensures PlaceFits(f', s'.connections[c].pc) {
      var pc := s.connections[c].pc;
      assert PlaceFits(s.fab, pc);
      PlaceFrame(s.fab, f', pc);
    }
  }

  lemma StageJobsSound(f: Fab, f': Fab, lot: Id, ws: seq<Id>, pj: Id, recipe: string)
    requires JobsSound(f)
    requires forall x :: x in f.registry ==> x in f'.registry
    requires forall x :: x in f.wafers ==> x in f'.wafers
    requires forall x :: x in f'.wafers ==> x in f'.registry
    requires f'.jobs == f.jobs || AddsJob(f, f', lot, ws, pj, recipe)
    ensures JobsSound(f')
  {
  }

  lemma StageRunnersSound(s: System, f': Fab)
    requires RunnersSound(s)
    requires forall q :: q in s.fab.jobs ==> q in f'.jobs && f'.jobs[q] == s.fab.jobs[q]
    requires forall q :: q in f'.jobs && q !in s.fab.jobs ==> f'.jobs[q].state == Queued
    ensures RunnersSound(s.(fab := f'))
  {
    var s' := s.(fab := f');
    assert forall c, pj :: EngagedAt(s', c, pj) == EngagedAt(s, c, pj) && CheckingAt(s', c, pj) == CheckingAt(s, c, pj)
                           && InvolvedAt(s', c, pj) == InvolvedAt(s, c, pj);
    assert forall pj :: Begun(f', pj) == Begun(s.fab, pj) && Started(f', pj) == Started(s.fab, pj);
  }

  // ----- steps that leave jobs and wafers alone -----

  /** A connection opens, stops, is served, or takes a decision; no job or wafer changes. */
  lemma IdleSound(s: System, s': System, c: nat)
    requires Sound(s) && OnlyMoves(s, s', c) && s'.passed == s.passed
    requires s'.fab.registry == s.fab.registry && s'.fab.wafers == s.fab.wafers && s'.fab.jobs == s.fab.jobs
    requires c in s'.connections && PlaceFits(s'.fab, s'.connections[c].pc)
    requires forall pj :: InvolvedAt(s', c, pj) ==> EngagedAt(s', c, pj) && EngagedAt(s, c, pj)
    ensures Sound(s')
  {
    forall d, pj ensures EngagedAt(s', d, pj) ==> EngagedAt(s, d, pj)
                 ensures CheckingAt(s', d, pj) ==> CheckingAt(s, d, pj)
                 ensures InvolvedAt(s', d, pj) ==> InvolvedAt(s, d, pj) {
      if d != c {
        OthersStay(s, s', c, d, pj);
      }
    }
    assert forall pj :: Begun(s'.fab, pj) == Begun(s.fab, pj) && Started(s'.fab, pj) == Started(s.fab, pj);
    forall q | q in s'.fab.jobs ensures JobWafersSound(s', q) {
      assert JobWafersSound(s, q);
    }
    forall d | d in s'.connections ensures PlaceFits(s'.fab, s'.connections[d].pc) {
      if d != c {
        assert PlaceFits(s.fab, s.connections[d].pc);
        PlaceSame(s.fab, s'.fab, s.connections[d].pc);
      }
    }
  }

  lemma PlaceSame(f: Fab, f': Fab, pc: Pc)
    requires f'.wafers == f.wafers && f'.jobs == f.jobs
    ensures PlaceFits(f', pc) == PlaceFits(f, pc)
  {
  }

  // ----- phase 1 and phase 3 -----

  /** How a critical section may change one job's state. */
  predicate StateMove(from: JobState, to: JobState) {
    || from == to
    || (from == Queued && to == Executing)
    || (!Terminal(from) && to == Aborted)
    || (from == Executing && to == Completed)
  }

  /** Only the state of `pj` may differ, and only by a permitted move. */
  predicate JobsMove(jobs: Jobs, jobs': Jobs, pj: Id) {
    && jobs'.Keys == jobs.Keys
    && (forall q :: q in jobs ==> jobs'[q] == jobs[q].(state := jobs'[q].state))
    && (forall q :: q in jobs && q != pj ==> jobs'[q] == jobs[q])
    && (pj in jobs ==> StateMove(jobs[pj].state, jobs'[pj].state))
  }

  /** A section that moves one job's state and leaves its runner not engaged keeps the runners
      sound, provided a runner that now waits for the started check is the one that decided. */
  lemma MoveRunnersSound(s: System, s': System, c: nat, pj: Id)
    requires RunnersSound(s) && OnlyMoves(s, s', c) && s'.passed == s.passed
    requires JobsMove(s.fab.jobs, s'.fab.jobs, pj)
    requires forall q :: !EngagedAt(s', c, q)
    requires forall q :: CheckingAt(s', c, q) ==> q == pj && Begun(s'.fab, pj)
    requires forall q :: Started(s'.fab, q) && !Started(s.fab, q) ==> q == pj && !Begun(s.fab, pj)
    requires CheckingAt(s', c, pj) && Started(s'.fab, pj) ==> s.fab.jobs[pj].state == Queued
    ensures RunnersSound(s')
  {
    forall d, q ensures EngagedAt(s', d, q) ==> d != c && EngagedAt(s, d, q)
                ensures CheckingAt(s', d, q) ==> (d == c && q == pj) || CheckingAt(s, d, q)
                ensures InvolvedAt(s', d, q) ==> (d == c && q == pj && CheckingAt(s', c, pj)) || (d != c && InvolvedAt(s, d, q)) {
      if d != c {
        OthersStay(s, s', c, d, q);
      }
    }
    assert forall q :: Begun(s.fab, q) ==> Begun(s'.fab, q);
    assert forall d :: pj in s.fab.jobs && s.fab.jobs[pj].state == Queued ==> !InvolvedAt(s, d, pj);
    assert forall q :: Started(s'.fab, q) ==> Started(s.fab, q) || (q == pj && pj in s.fab.jobs && s.fab.jobs[pj].state == Queued);
  }

  lemma MoveJobsSound(f: Fab, f': Fab, pj: Id)
    requires JobsSound(f) && f'.registry == f.registry && f'.wafers == f.wafers
    requires JobsMove(f.jobs, f'.jobs, pj)
    ensures JobsSound(f')
  {
  }

  /** The wafers stay sound when one job moves, if it completes only with all wafers out. */
  lemma MoveWafersSound(s: System, s': System, c: nat, pj: Id)
    requires WafersSound(s) && OnlyMoves(s, s', c) && s'.passed == s.passed
    requires s'.fab.wafers == s.fab.wafers && JobsMove(s.fab.jobs, s'.fab.jobs, pj)
    requires pj in s'.fab.jobs && s'.fab.jobs[pj].state == Completed && s.fab.jobs[pj].state != Completed ==>
               Shape(s.fab.wafers, s.fab.jobs[pj], |s.fab.jobs[pj].wafers|, false)
    requires c in s'.connections && PlaceFits(s'.fab, s'.connections[c].pc)
    ensures WafersSound(s')
  {
    forall q | q in s'.fab.jobs ensures JobWafersSound(s', q) {
      assert JobWafersSound(s, q);
      ShapeFrame(s.fab.wafers, s'.fab.wafers, s.fab.jobs[q], s'.fab.jobs[q]);
    }
    forall d | d in s'.connections ensures PlaceFits(s'.fab, s'.connections[d].pc) {
      if d != c {
        assert PlaceFits(s.fab, s.connections[d].pc);
        PlaceFrame(s.fab, s'.fab, s.connections[d].pc);
      }
    }
  }

  lemma WithJobStateMoves(jobs: Jobs, pj: Id, to: JobState)
    requires pj in jobs && StateMove(jobs[pj].state, to)
    ensures JobsMove(jobs, WithJobState(jobs, pj, to), pj)
  {
  }

  /** What phase 1 or phase 3 of connection `c` does to everything but lots and the GEM engine. */
  ghost predicate DecidingStep(s: System, s': System, c: nat, pj: Id) {
    && OnlyMoves(s, s', c) && c in s'.connections && s'.passed == s.passed
    && s'.fab.registry == s.fab.registry && s'.fab.wafers == s.fab.wafers
    && JobsMove(s.fab.jobs, s'.fab.jobs, pj)
    && (s'.connections[c].pc == Serving || s'.connections[c].pc == Closed || s'.connections[c].pc == Checking(pj))
    && (s'.connections[c].pc == Checking(pj) ==>
          Begun(s'.fab, pj) && (Started(s'.fab, pj) ==> s.fab.jobs[pj].state == Queued))
    && (Started(s'.fab, pj) && !Started(s.fab, pj) ==> !Begun(s.fab, pj))
    && (pj in s'.fab.jobs && s'.fab.jobs[pj].state == Completed && s.fab.jobs[pj].state != Completed ==>
          Shape(s.fab.wafers, s.fab.jobs[pj], |s.fab.jobs[pj].wafers|, false))
  }

  lemma DecidingSound(s: System, s': System, c: nat, pj: Id)
    requires Sound(s) && DecidingStep(s, s', c, pj)
    ensures Sound(s')
  {
    hide JobsSound, RunnersSound, WafersSound, Shape;
    MoveJobsSound(s.fab, s'.fab, pj);
    MoveRunnersSound(s, s', c, pj);
    MoveWafersSound(s, s', c, pj);
  }

  lemma StartingStep(s: System, c: nat, accepts: bool)
    requires c in s.connections && s.connections[c].pc.Starting?
    ensures DecidingStep(s, Next(s, Advance(c, accepts)), c, s.connections[c].pc.pj)
  {
    hide PhaseOne, PhaseThree, Shape, MayRun, HoldLot, LotsAfterActive, JobsMove, WithJobState, MoveWafer, Next;
    AdvanceNext(s, c, accepts);
    var pj := s.connections[c].pc.pj;
    var s' := Next(s, Advance(c, accepts));
    assert s'.fab == PhaseOne(s.fab, pj).fab && OnlyMoves(s, s', c);
    PhaseOneEffect(s.fab, pj);
    StateAfter(s.fab.jobs, pj, Executing);
    StateAfter(s.fab.jobs, pj, Aborted);
    if LaunchesJob(s.fab, pj) {
      WithJobStateMoves(s.fab.jobs, pj, Executing);
    } else if RefusesJob(s.fab, pj) {
      WithJobStateMoves(s.fab.jobs, pj, Aborted);
    } else {
      SameJobsMove(s.fab.jobs, pj);
    }
  }

  lemma StateAfter(jobs: Jobs, pj: Id, to: JobState)
    ensures pj in jobs ==> pj in WithJobState(jobs, pj, to) && WithJobState(jobs, pj, to)[pj].state == to
  {
  }

  lemma SameJobsMove(jobs: Jobs, pj: Id)
    ensures JobsMove(jobs, jobs, pj)
  {
  }

  lemma FinishingStep(s: System, c: nat, accepts: bool)
    requires c in s.connections && s.connections[c].pc.Finishing? && PlaceFits(s.fab, s.connections[c].pc)
    ensures DecidingStep(s, Next(s, Advance(c, accepts)), c, s.connections[c].pc.pj)
  {
    hide PhaseOne, PhaseThree, Shape, LotsAfterActive, JobsMove, WithJobState, MoveWafer, Next;
    AdvanceNext(s, c, accepts);
    var Finishing(pj, failed) := s.connections[c].pc;
    var s' := Next(s, Advance(c, accepts));
    assert s'.fab == PhaseThree(s.fab, pj, failed).fab && OnlyMoves(s, s', c);
    PhaseThreeEffect(s.fab, pj, failed);
    var to := if failed then Aborted else Completed;
    StateAfter(s.fab.jobs, pj, to);
    if pj in s.fab.registry && pj in s.fab.jobs && JobEvent(s.fab.jobs[pj].state, to).Some? {
      WithJobStateMoves(s.fab.jobs, pj, to);
    } else {
      SameJobsMove(s.fab.jobs, pj);
    }
  }

  // ----- the started check -----

  lemma CheckingSound(s: System, c: nat, accepts: bool)
    requires Sound(s) && c in s.connections && s.connections[c].pc.Checking?
    ensures Sound(Next(s, Advance(c, accepts)))
  {
    AdvanceMoves(s, c, accepts);
    var pj := s.connections[c].pc.pj;
    var s' := Next(s, Advance(c, accepts));
    assert CheckingAt(s, c, pj);
    if Started(s.fab, pj) {
      assert JobWafersSound(s, pj) && pj !in s.passed;
      hide Shape, RunnersSound, JobsSound, Next, OnlyMoves, PhaseOne, PhaseThree, MoveWafer;
      PassRunnersSound(s, s', c, pj);
      PassWafersSound(s, s', c, pj);
    } else {
      hide Shape, RunnersSound, JobsSound, WafersSound, Next, OnlyMoves, PhaseOne, PhaseThree, MoveWafer;
      IdleSound(s, s', c);
    }
  }

  lemma PassRunnersSound(s: System, s': System, c: nat, pj: Id)
    requires RunnersSound(s) && OnlyMoves(s, s', c) && s'.fab == s.fab && s'.passed == s.passed + [pj]
    requires CheckingAt(s, c, pj) && Started(s.fab, pj)
    requires c in s'.connections && s'.connections[c].pc == Fetching(pj)
    ensures RunnersSound(s')
  {
    forall d, q ensures EngagedAt(s', d, q) ==> EngagedAt(s, d, q) || (d == c && q == pj)
                ensures CheckingAt(s', d, q) ==> CheckingAt(s, d, q) && d != c
                ensures InvolvedAt(s', d, q) ==> InvolvedAt(s, d, q) {
      if d != c {
        OthersStay(s, s', c, d, q);
      }
    }
    assert InvolvedAt(s, c, pj);
    assert forall d :: EngagedAt(s, d, pj) ==> InvolvedAt(s, d, pj);
    assert forall x :: x in s'.passed <==> x in s.passed || x == pj;
  }

  lemma PassWafersSound(s: System, s': System, c: nat, pj: Id)
    requires WafersSound(s) && OnlyMoves(s, s', c) && s'.fab == s.fab && s'.passed == s.passed + [pj]
    requires c in s'.connections && PlaceFits(s.fab, s'.connections[c].pc)
    ensures WafersSound(s')
  {
    forall q | q in s'.fab.jobs ensures JobWafersSound(s', q) {
      assert JobWafersSound(s, q);
    }
    forall d | d in s'.connections ensures PlaceFits(s'.fab, s'.connections[d].pc) {
      if d != c {
        assert PlaceFits(s.fab, s.connections[d].pc);
      }
    }
  }

  // ----- wafer moves -----

  /** Moving one wafer of a job, seen from another job and from itself. */
  lemma MoveKeepsOthers(f: Fab, f': Fab, pj: Id, k: nat, to: Location, q: Id)
    requires JobsSound(f) && pj in f.jobs && k < |f.jobs[pj].wafers| && q in f.jobs && q != pj
    requires f'.jobs == f.jobs && f'.wafers == MoveWafer(f, f.jobs[pj].wafers[k], to).fab.wafers
    ensures JobStays(f, f', q)
  {
    assert f.jobs[pj].wafers[k] in f.jobs[pj].wafers;
  }

  lemma MoveShapes(f: Fab, pj: Id, k: nat, to: Location)
    requires JobsSound(f) && pj in f.jobs && k < |f.jobs[pj].wafers|
    ensures var ws := MoveWafer(f, f.jobs[pj].wafers[k], to).fab.wafers;
            && (to == LITHO && Shape(f.wafers, f.jobs[pj], k, false) ==> Shape(ws, f.jobs[pj], k, true))
            && (to == Fixed && Shape(f.wafers, f.jobs[pj], k, true) ==> Shape(ws, f.jobs[pj], k + 1, false))
  {
    var job := f.jobs[pj];
    assert forall i :: 0 <= i < |job.wafers| && i != k ==> job.wafers[i] != job.wafers[k];
  }

  lemma WaferStepSound(s: System, c: nat, accepts: bool)
    requires Sound(s) && c in s.connections && (s.connections[c].pc.Entering? || s.connections[c].pc.Leaving?)
    ensures Sound(Next(s, Advance(c, accepts)))
    ensures Next(s, Advance(c, accepts)).fab.jobs == s.fab.jobs
  {
    hide MoveWafer, RunnersSound, Shape, PhaseOne, PhaseThree, Next, OnlyMoves;
    var pc := s.connections[c].pc;
    var pj, k := pc.pj, pc.k;
    var to := if pc.Entering? then LITHO else Fixed;
    var s' := Next(s, Advance(c, accepts));
    assert PlaceFits(s.fab, pc) && EngagedAt(s, c, pj);
    hide WafersSound, JobsSound;
    AdvanceMoves(s, c, accepts);
    MoveWaferEffect(s.fab, pc.wafers[k], to);
    MoveShapes(s.fab, pj, k, to);
    MoveKeepsJobs(s.fab, s'.fab, pc.wafers[k], to);
    WaferStepRunners(s, s', c, pj);
    WaferStepWafers(s, s', c, pj, k, to);
  }

  lemma MoveKeepsJobs(f: Fab, f': Fab, w: Id, to: Location)
    requires JobsSound(f) && f' == MoveWafer(f, w, to).fab
    ensures JobsSound(f') && f'.jobs == f.jobs
  {
  }

  lemma WaferStepWafers(s: System, s': System, c: nat, pj: Id, k: nat, to: Location)
    requires Sound(s) && OnlyMoves(s, s', c) && s'.passed == s.passed && s'.fab.jobs == s.fab.jobs
    requires EngagedAt(s, c, pj) && pj in s.fab.jobs && k < |s.fab.jobs[pj].wafers|
    requires s'.fab.wafers == MoveWafer(s.fab, s.fab.jobs[pj].wafers[k], to).fab.wafers
    requires c in s'.connections && PlaceFits(s'.fab, s'.connections[c].pc)
    requires SomeShape(s'.fab.wafers, s.fab.jobs[pj])
    requires exists inside :: Shape(s.fab.wafers, s.fab.jobs[pj], k, inside)
    ensures WafersSound(s')
  {
    hide MoveWafer, Shape;
    forall q | q in s'.fab.jobs ensures JobWafersSound(s', q) {
      assert JobWafersSound(s, q);
      if q != pj {
        MoveKeepsOthers(s.fab, s'.fab, pj, k, to, q);
        ShapeFrame(s.fab.wafers, s'.fab.wafers, s.fab.jobs[q], s'.fab.jobs[q]);
      } else {
        var inside :| Shape(s.fab.wafers, s.fab.jobs[pj], k, inside);
        NotAllOut(s.fab, pj, k, inside);
      }
    }
    forall d | d in s'.connections ensures PlaceFits(s'.fab, s'.connections[d].pc) {
      if d != c {
        var other := s.connections[d].pc;
        assert PlaceFits(s.fab, other);
        if Running(other) && other.pj in s.fab.jobs {
          if other.pj != pj {
            MoveKeepsOthers(s.fab, s'.fab, pj, k, to, other.pj);
          } else {
            assert !EngagedAt(s, d, pj);
          }
        }
        PlaceOfOthers(s.fab, s'.fab, other, pj);
      }
    }
  }

  lemma PlaceOfOthers(f: Fab, f': Fab, pc: Pc, pj: Id)
    requires PlaceFits(f, pc)
    requires Running(pc) && pc.pj == pj ==> !Engaged(pc, pj)
    requires Running(pc) && pc.pj in f.jobs && pc.pj != pj ==> JobStays(f, f', pc.pj)
    ensures PlaceFits(f', pc)
  {
    if Running(pc) && pc.pj in f.jobs && pc.pj != pj {
      PlaceFrame(f, f', pc);
    }
  }

  lemma WaferStepRunners(s: System, s': System, c: nat, pj: Id)
    requires RunnersSound(s) && OnlyMoves(s, s', c) && s'.passed == s.passed && s'.fab.jobs == s.fab.jobs
    requires EngagedAt(s, c, pj)
    requires forall q :: !CheckingAt(s', c, q) && (EngagedAt(s', c, q) ==> q == pj)
    ensures RunnersSound(s')
  {
    forall d, q ensures EngagedAt(s', d, q) ==> EngagedAt(s, d, q)
                ensures CheckingAt(s', d, q) ==> CheckingAt(s, d, q)
                ensures InvolvedAt(s', d, q) ==> InvolvedAt(s, d, q) {
      if d != c {
        OthersStay(s, s', c, d, q);
      }
    }
    assert forall q :: Begun(s'.fab, q) == Begun(s.fab, q) && Started(s'.fab, q) == Started(s.fab, q);
  }

  /** A job with a wafer still on its way has not completed. */
  lemma NotAllOut(f: Fab, pj: Id, k: nat, inside: bool)
    requires pj in f.jobs && k < |f.jobs[pj].wafers| && Shape(f.wafers, f.jobs[pj], k, inside)
    ensures !Shape(f.wafers, f.jobs[pj], |f.jobs[pj].wafers|, false)
  {
    var job := f.jobs[pj];
    assert f.wafers[job.wafers[k]].location == Place(job, k, k, inside) != Place(job, k, |job.wafers|, false);
  }

  // ----- every step, every run -----

  lemma NextSound(s: System, a: Step)
    requires Sound(s)
    ensures Sound(Next(s, a))
  {
    var s' := Next(s, a);
    match a
    case Connect(c) =>
      if c !in s.connections {
        IdleSound(s, s', c);
      }
    case Stop(c, _) =>
      if c in s.connections {
        IdleSound(s, s', c);
      }
    case StageLot(lot, ws, pj, recipe) => StageSound(s, lot, ws, pj, recipe);
    case Deliver(c, m) =>
      if c in s.connections && s.connections[c].pc == Serving {
        ServeFloor(s.fab, m);
        IdleSound(s, s', c);
      }
    case Advance(c, accepts) =>
      if c in s.connections && Running(s.connections[c].pc) {
        AdvanceSound(s, c, accepts);
      }
  }

  lemma AdvanceSound(s: System, c: nat, accepts: bool)
    requires Sound(s) && c in s.connections && Running(s.connections[c].pc)
    ensures Sound(Next(s, Advance(c, accepts)))
  {
    var pc, s' := s.connections[c].pc, Next(s, Advance(c, accepts));
    assert PlaceFits(s.fab, pc);
    hide RunnersSound, JobsSound, Shape, PhaseOne, PhaseThree, WafersSound, MoveWafer, RaiseBackendAlarm;
    match pc
    case Starting(pj) =>
      StartingStep(s, c, accepts);
      DecidingSound(s, s', c, pj);
    case Checking(_) => CheckingSound(s, c, accepts);
    case Entering(_, _, _) => WaferStepSound(s, c, accepts);
    case Leaving(_, _, _) => WaferStepSound(s, c, accepts);
    case Finishing(pj, _) =>
      FinishingStep(s, c, accepts);
      DecidingSound(s, s', c, pj);
    case Fetching(_) => QuietSound(s, c, accepts);
    case Planning(_, _, _) => QuietSound(s, c, accepts);
    case Failing(_) => QuietSound(s, c, accepts);
  }

  /** Fetching the list, asking the backend and raising the alarm move no job and no wafer. */
  lemma QuietSound(s: System, c: nat, accepts: bool)
    requires Sound(s) && c in s.connections
    requires var pc := s.connections[c].pc; pc.Fetching? || pc.Planning? || pc.Failing?
    ensures Sound(Next(s, Advance(c, accepts)))
  {
    var pc := s.connections[c].pc;
    assert PlaceFits(s.fab, pc);
    hide RunnersSound, JobsSound, WafersSound, Shape, PhaseOne, PhaseThree, MoveWafer, Next, OnlyMoves;
    AdvanceMoves(s, c, accepts);
    IdleSound(s, Next(s, Advance(c, accepts)), c);
  }

  lemma {:induction false} RunSound(s: System, steps: seq<Step>)
    requires Sound(s)
    ensures Sound(Run(s, steps))
    decreases steps
  {
    if steps != [] {
      NextSound(s, steps[0]);
      RunSound(Next(s, steps[0]), steps[1..]);
    }
  }

  lemma BootSound(device: u16, mdln: string, softrev: string)
    ensures Sound(Initial(device, mdln, softrev))
  {
  }
}
