/** What the job protocol promises of every reachable state and of every run. */
module Safety {
  import opened Basics
  import opened Hsms
  import opened Gem300
  import opened Fab
  import opened FabEffects
  import opened Interleaving
  import opened Protocol

  // ----- what every reachable state promises -----

  /** In every schedule of connections, stagings, host messages, backend answers and stops: no job
      ever passes the started check twice; jobs at rest are in four states only; no wafer belongs
      to two jobs or twice to one; and the wafers of each job are a prefix out of the tool, at most
      one in the chamber, and the rest in their carrier, all of them out once the job is done. */
  lemma EveryReachableStateIsSafe(device: u16, mdln: string, softrev: string, steps: seq<Step>)
    ensures var s := Run(Initial(device, mdln, softrev), steps);
            && NoRepeats(s.passed)
            && (forall pj :: pj in s.fab.jobs ==> AtRest(s.fab.jobs[pj].state) && NoRepeats(s.fab.jobs[pj].wafers))
            && (forall p, q, w ::
                  p in s.fab.jobs && q in s.fab.jobs && w in s.fab.jobs[p].wafers && w in s.fab.jobs[q].wafers ==>
                    p == q)
            && (forall pj :: pj in s.fab.jobs ==> SomeShape(s.fab.wafers, s.fab.jobs[pj]))
            && (forall pj, w :: pj in s.fab.jobs && s.fab.jobs[pj].state == Completed && w in s.fab.jobs[pj].wafers ==>
                  w in s.fab.wafers && s.fab.wafers[w].location == Fixed)
  {
    BootSound(device, mdln, softrev);
    RunSound(Initial(device, mdln, softrev), steps);
    var s := Run(Initial(device, mdln, softrev), steps);
    forall pj | pj in s.fab.jobs
      ensures SomeShape(s.fab.wafers, s.fab.jobs[pj])
      ensures s.fab.jobs[pj].state == Completed ==> forall w :: w in s.fab.jobs[pj].wafers ==>
                w in s.fab.wafers && s.fab.wafers[w].location == Fixed {
      assert JobWafersSound(s, pj);
    }
  }

  /** At any reachable state at most one runner is past the started check for a job. */
  lemma OneRunnerPerJob(device: u16, mdln: string, softrev: string, steps: seq<Step>, c: nat, d: nat, pj: Id)
    ensures var s := Run(Initial(device, mdln, softrev), steps);
            EngagedAt(s, c, pj) && EngagedAt(s, d, pj) ==> c == d
  {
    BootSound(device, mdln, softrev);
    RunSound(Initial(device, mdln, softrev), steps);
  }

  // ----- what a run may do to a job -----

  /** The order in which job states can be observed. */
  predicate Later(from: JobState, to: JobState) {
    || from == to
    || (from == Queued && (to == Executing || Terminal(to)))
    || (from == Executing && Terminal(to))
  }

  /** Every job is still there with its lists, and its state has only moved on. */
  ghost predicate JobsProgress(jobs: Jobs, jobs': Jobs) {
    forall pj :: pj in jobs ==>
      pj in jobs' && jobs'[pj] == jobs[pj].(state := jobs'[pj].state) && Later(jobs[pj].state, jobs'[pj].state)
  }

  lemma DecidingProgress(s: System, s': System, c: nat, pj: Id)
    requires JobsSound(s.fab) && DecidingStep(s, s', c, pj)
    ensures JobsProgress(s.fab.jobs, s'.fab.jobs)
  {
    assert JobsMove(s.fab.jobs, s'.fab.jobs, pj);
  }

  lemma NextProgress(s: System, a: Step)
    requires Sound(s)
    ensures JobsProgress(s.fab.jobs, Next(s, a).fab.jobs)
  {
    hide RunnersSound, Shape, PhaseOne, PhaseThree, Stage, Serve, MoveWafer;
    match a
    case Connect(_) =>
    case Stop(_, _) =>
    case StageLot(lot, ws, pj, recipe) => StageEffect(s.fab, lot, ws, pj, recipe);
    case Deliver(_, m) => ServeFloor(s.fab, m);
    case Advance(c, accepts) =>
      if c in s.connections && Running(s.connections[c].pc) {
        var pc := s.connections[c].pc;
        assert PlaceFits(s.fab, pc);
        if pc.Starting? {
          StartingStep(s, c, accepts);
          DecidingProgress(s, Next(s, a), c, pc.pj);
        } else if pc.Finishing? {
          FinishingStep(s, c, accepts);
          DecidingProgress(s, Next(s, a), c, pc.pj);
        } else if pc.Entering? || pc.Leaving? {
          WaferStepSound(s, c, accepts);
        }
      }
  }

  /** Jobs are never lost, their lists never change, and a completed or aborted job stays exactly
      as it is through every further step of every connection. */
  lemma {:induction false} JobsOnlyMoveOn(s: System, steps: seq<Step>)
    requires Sound(s)
    ensures JobsProgress(s.fab.jobs, Run(s, steps).fab.jobs)
    ensures forall pj :: pj in s.fab.jobs && Terminal(s.fab.jobs[pj].state) ==>
              pj in Run(s, steps).fab.jobs && Run(s, steps).fab.jobs[pj] == s.fab.jobs[pj]
    decreases steps
  {
    hide Sound, Next;
    if steps != [] {
      NextProgress(s, steps[0]);
      NextSound(s, steps[0]);
      JobsOnlyMoveOn(Next(s, steps[0]), steps[1..]);
    }
  }
}
