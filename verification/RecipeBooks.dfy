/** The process programs the GEM engine stores and the version chains of the recipe store. */
module RecipeBooks {
  import opened Basics
  import opened Secs
  import opened Hsms
  import opened Recipes
  import opened Gem300
  import opened Fab
  import opened FabEffects
  import opened Interleaving
  import Crc32
  import Gem
  import Counters

  /** The bodies uploaded under one name, oldest first. */
  function BodiesFor(uploads: seq<(Id, bytes)>, ppid: Id): seq<bytes> {
    if uploads == [] then [] else
    var last := uploads[|uploads| - 1];
    BodiesFor(uploads[..|uploads| - 1], ppid) + (if last.0 == ppid then [last.1] else [])
  }

  lemma BodiesForAppend(uploads: seq<(Id, bytes)>, u: (Id, bytes), ppid: Id)
    ensures BodiesFor(uploads + [u], ppid) == BodiesFor(uploads, ppid) + (if u.0 == ppid then [u.1] else [])
  {
    assert (uploads + [u])[..|uploads|] == uploads;
  }

  /** Every version carries the parameters and tolerances a downloaded program gets. */
  predicate HostMade(r: seq<Version>) {
    forall i :: 0 <= i < |r| ==> r[i].parameters == HostParameters() && r[i].tolerances == HostTolerances()
  }

  /** A chain numbered from 1, checksummed, and holding exactly the uploaded bodies in order. */
  ghost predicate ChainSound(recipes: Store, programs: map<string, bytes>, uploads: seq<(Id, bytes)>, ppid: Id) {
    && (ppid in recipes <==> ppid in programs)
    && (ppid in recipes ==>
          WellNumbered(recipes[ppid]) && HostMade(recipes[ppid]) && Latest(recipes[ppid]).body == programs[ppid]
          && Bodies(recipes[ppid]) == BodiesFor(uploads, ppid))
    && (ppid !in recipes ==> BodiesFor(uploads, ppid) == [])
  }

  ghost predicate ChainsSound(recipes: Store, programs: map<string, bytes>, uploads: seq<(Id, bytes)>) {
    forall ppid :: ChainSound(recipes, programs, uploads, ppid)
  }

  ghost predicate RecipesSound(s: System) {
    s.fab.gem.pending == [] && ChainsSound(s.fab.recipes, s.fab.gem.programs, s.uploads)
  }

  // ----- one host message -----

  /** An upload stores its program and queues one recipe action; any other message does neither. */
  lemma HandlePrograms(g: Gem.State, m: Message)
    requires g.pending == []
    ensures var g', us := Gem.Handle(g, m).gem, UploadOf(m);
            if us == []
            then g'.programs == g.programs && |g'.pending| <= 1 && (g'.pending != [] ==> !g'.pending[0].RecipeReceived?)
            else g'.programs == g.programs[us[0].0 := us[0].1] && g'.pending == [Gem.RecipeReceived(us[0].0, us[0].1)]
  {
    hide Gem.LookUp, Gem.ApplySettings, Gem.Settings, Gem.SettingAcks, Gem.CommandParameters, Gem.Upload;
  }

  lemma HandleAlarms(g: Gem.State, m: Message)
    ensures Gem.Handle(g, m).gem.alarms == g.alarms
  {
    hide Gem.LookUp, Gem.ApplySettings, Gem.Settings, Gem.SettingAcks, Gem.CommandParameters, Gem.Upload;
  }

  lemma ActLeavesRecipes(a: Acted, action: Gem.Action)
    requires !action.RecipeReceived?
    ensures var f := Act(a, action).fab;
            f.recipes == a.fab.recipes && f.gem.programs == a.fab.gem.programs && f.gem.pending == a.fab.gem.pending
            && f.gem.alarms.Keys == a.fab.gem.alarms.Keys
  {
    hide LowerAll, JobParameter;
  }

  lemma ServeRecipes(f: Fab, m: Message)
    requires f.gem.pending == []
    ensures var f', us := Serve(f, m).fab, UploadOf(m);
            && f'.gem.pending == [] && f'.gem.alarms.Keys == f.gem.alarms.Keys
            && (if us == []
                then f'.recipes == f.recipes && f'.gem.programs == f.gem.programs
                else f'.recipes == ApplyRecipe(f.recipes, us[0].0, us[0].1)
                     && f'.gem.programs == f.gem.programs[us[0].0 := us[0].1])
  {
    hide Gem.Handle, ApplyRecipe, UploadOf;
    HandlePrograms(f.gem, m);
    HandleAlarms(f.gem, m);
    var g := Gem.Handle(f.gem, m).gem;
    var a := Acted(f.(gem := g.(pending := [])), None);
    if g.pending != [] {
      assert g.pending[1..] == [];
      assert ActAll(a, g.pending) == Act(a, g.pending[0]);
      if !g.pending[0].RecipeReceived? {
        hide Act;
        ActLeavesRecipes(a, g.pending[0]);
      }
    }
  }

  lemma ApplyKeepsChain(recipes: Store, programs: map<string, bytes>, uploads: seq<(Id, bytes)>, u: (Id, bytes), p: Id)
    requires ChainSound(recipes, programs, uploads, p)
    ensures ChainSound(ApplyRecipe(recipes, u.0, u.1), programs[u.0 := u.1], uploads + [u], p)
  {
    BodiesForAppend(uploads, u, p);
    hide HostParameters, HostTolerances, BodiesFor, Octets, Crc32.Crc;
    if p == u.0 {
      if p in recipes {
        AddVersionKeepsChain(recipes[p], NewVersion(0, HostParameters(), HostTolerances(), u.1));
      } else {
        assert Bodies([NewVersion(1, HostParameters(), HostTolerances(), u.1)]) == [] + [u.1];
      }
    }
  }

  lemma ApplyKeepsChains(recipes: Store, programs: map<string, bytes>, uploads: seq<(Id, bytes)>, u: (Id, bytes))
    requires ChainsSound(recipes, programs, uploads)
    ensures ChainsSound(ApplyRecipe(recipes, u.0, u.1), programs[u.0 := u.1], uploads + [u])
    ensures ChainsGrow(recipes, ApplyRecipe(recipes, u.0, u.1))
  {
    hide ChainSound, HostParameters, HostTolerances;
    var recipes', programs', uploads' := ApplyRecipe(recipes, u.0, u.1), programs[u.0 := u.1], uploads + [u];
    forall p ensures ChainSound(recipes', programs', uploads', p) {
      assert ChainSound(recipes, programs, uploads, p);
      ApplyKeepsChain(recipes, programs, uploads, u, p);
    }
  }

  // ----- every step -----

  /** Every recipe is still there and its chain only grew at the end. */
  ghost predicate ChainsGrow(recipes: Store, recipes': Store) {
    forall p :: p in recipes ==> p in recipes' && recipes[p] <= recipes'[p]
  }

  /** The same recipes, programs and constants, the same alarms defined, the same control and communication
      state, and status variables that still tell them. */
  predicate Untouched(f: Fab, g: Fab) {
    && f.recipes == g.recipes && f.gem.programs == g.gem.programs && f.gem.pending == g.gem.pending
    && f.gem.alarms.Keys == g.gem.alarms.Keys && f.gem.ecids == g.gem.ecids
    && f.gem.ctrl == g.gem.ctrl && f.gem.com == g.gem.com && f.gem.onlineMode == g.gem.onlineMode
    && f.gem.mdln == g.gem.mdln && f.gem.softrev == g.gem.softrev
    && (Telling(f.gem) ==> Telling(g.gem))
  }

  /** The status variables there are, and what two of them say. */
  predicate Telling(g: Gem.State) {
    && g.svids.Keys == {2001, 2002, 2003, 2004} && g.svids[2001] == A("")
    && g.svids[2002] == A(ControlName(g.ctrl)) && g.svids[2003] == A(CommunicationName(g.com))
  }

  lemma StatusTold(g: Gem.State)
    ensures UpdateStatus(g) == g.(svids := UpdateStatus(g).svids)
    ensures g.svids.Keys == {2001, 2002, 2003, 2004} && g.svids[2001] == A("") ==> Telling(UpdateStatus(g))
  {
    hide ControlName, CommunicationName;
  }

  lemma {:induction false} RunMovesRecipes(f: Fab, pj: Id, steps: seq<JobState>)
    ensures Untouched(f, RunMoves(f, pj, steps).fab)
    decreases steps
  {
    if steps != [] && MoveJob(f.registry, f.jobs, pj, steps[0]).Some? {
      var Moved(jobs, ceid) := MoveJob(f.registry, f.jobs, pj, steps[0]).value;
      RunMovesRecipes(f.(gem := EventFor(f.gem, ceid, pj, "RUNNING").gem, jobs := jobs), pj, steps[1..]);
    }
  }

  lemma PhaseOneRecipes(f: Fab, pj: Id)
    ensures Untouched(f, PhaseOne(f, pj).fab)
  {
    hide MayRun, Refuse, Launch;
    if pj in f.jobs {
      RefuseRecipes(f, pj, f.jobs[pj], f.jobs[pj].recipe in f.recipes);
      LaunchRecipes(f, pj);
    }
  }

  lemma RefuseRecipes(f: Fab, pj: Id, job: Job, announce: bool)
    ensures Untouched(f, Refuse(f, pj, job, announce).fab)
  {
    hide HoldLot, MoveJob, UpdateStatus, ControlName, CommunicationName;
    var told := Gem.MakeAlarm(f.gem, DRIFT_OUT_OF_SPEC, true);
    var move := MoveJob(f.registry, f.jobs, pj, Aborted);
    if told.Some? && move.Some? {
      StatusTold(EventFor(told.value.gem, move.value.event, pj, "ABORTED").gem);
    }
  }

  lemma LaunchRecipes(f: Fab, pj: Id)
    ensures Untouched(f, Launch(f, pj).fab)
  {
    hide RunMoves, MoveActiveLot;
    var s1 := RunMoves(f, pj, TO_EXECUTING);
    RunMovesRecipes(f, pj, TO_EXECUTING);
    ActiveLotRecipes(s1.fab, InProcessing, "RUNNING");
  }

  lemma ActiveLotRecipes(f: Fab, to: LotState, note: string)
    ensures Untouched(f, MoveActiveLot(f, to, note).fab)
  {
  }

  lemma PhaseThreeRecipes(f: Fab, pj: Id, failed: bool)
    ensures Untouched(f, PhaseThree(f, pj, failed).fab)
  {
    hide MoveActiveLot;
    var to := if failed then Aborted else Completed;
    if MoveJob(f.registry, f.jobs, pj, to).Some? {
      var Moved(jobs, ceid) := MoveJob(f.registry, f.jobs, pj, to).value;
      var note := if failed then "ABORTED" else "DONE";
      ActiveLotRecipes(f.(gem := EventFor(f.gem, ceid, pj, note).gem, jobs := jobs), if failed then OnHold else LotCompleted, note);
    }
  }

  lemma RunnerRecipes(f: Fab, pc: Pc, accepts: bool)
    requires Running(pc) && WellPlaced(pc)
    ensures Untouched(f, RunnerStep(f, pc, accepts).section.fab)
  {
    hide PhaseOne, PhaseThree;
    match pc
    case Starting(pj) => PhaseOneRecipes(f, pj);
    case Finishing(pj, failed) => PhaseThreeRecipes(f, pj, failed);
    case _ =>
  }

  lemma StageRecipes(f: Fab, lot: Id, ws: seq<Id>, pj: Id, recipe: string)
    ensures Untouched(f, Stage(f, lot, ws, pj, recipe).fab)
  {
    RegisterWafersFrame(f, lot, ws);
    hide RegisterWafers;
  }

  lemma NextRecipes(s: System, a: Step)
    requires RecipesSound(s)
    ensures RecipesSound(Next(s, a)) && ChainsGrow(s.fab.recipes, Next(s, a).fab.recipes)
    ensures Next(s, a).fab.gem.alarms.Keys == s.fab.gem.alarms.Keys
  {
    hide RunnerStep, Stage, Serve, ChainSound, ApplyRecipe;
    match a
    case Connect(_) =>
    case Stop(_, _) =>
    case StageLot(lot, ws, pj, recipe) => StageRecipes(s.fab, lot, ws, pj, recipe);
    case Deliver(_, m) =>
      ServeRecipes(s.fab, m);
      if UploadOf(m) != [] {
        ApplyKeepsChains(s.fab.recipes, s.fab.gem.programs, s.uploads, UploadOf(m)[0]);
        assert UploadOf(m) == [UploadOf(m)[0]];
      } else {
        assert s.uploads + [] == s.uploads;
      }
    case Advance(c, accepts) =>
      if c in s.connections && Running(s.connections[c].pc) && WellPlaced(s.connections[c].pc) {
        RunnerRecipes(s.fab, s.connections[c].pc, accepts);
      }
  }

  lemma {:induction false} RunRecipes(s: System, steps: seq<Step>)
    requires RecipesSound(s)
    ensures RecipesSound(Run(s, steps)) && ChainsGrow(s.fab.recipes, Run(s, steps).fab.recipes)
    ensures Run(s, steps).fab.gem.alarms.Keys == s.fab.gem.alarms.Keys
    decreases steps
  {
    hide RecipesSound, Next;
    if steps != [] {
      NextRecipes(s, steps[0]);
      RunRecipes(Next(s, steps[0]), steps[1..]);
      var r0, r1, r2 := s.fab.recipes, Next(s, steps[0]).fab.recipes, Run(s, steps).fab.recipes;
      forall p | p in r0 ensures p in r2 && r0[p] <= r2[p] {
        assert p in r1 && r0[p] <= r1[p];
      }
    }
  }

  lemma ReachableRecipes(device: u16, mdln: string, softrev: string, steps: seq<Step>)
    ensures RecipesSound(Run(Initial(device, mdln, softrev), steps))
  {
    var s := Initial(device, mdln, softrev);
    assert RecipesSound(s);
    hide Initial, RecipesSound;
    RunRecipes(s, steps);
  }

  /** In every schedule exactly the two alarms defined at the start are defined. */
  lemma AlarmsStayDefined(device: u16, mdln: string, softrev: string, steps: seq<Step>)
    ensures Run(Initial(device, mdln, softrev), steps).fab.gem.alarms.Keys == {DRIFT_OUT_OF_SPEC, BACKEND_ERROR}
  {
    var s := Initial(device, mdln, softrev);
    assert RecipesSound(s) && s.fab.gem.alarms.Keys == {DRIFT_OUT_OF_SPEC, BACKEND_ERROR};
    hide Initial, RecipesSound;
    RunRecipes(s, steps);
  }

  /** In every schedule: the engine stores a program under a name exactly when the recipe store has a
      chain for it; the stored program is the body of the latest version; and the chain has one version
      per accepted upload of that name, in order, numbered from 1, each checksum that of its body. */
  lemma ProgramsAndRecipesAgree(device: u16, mdln: string, softrev: string, steps: seq<Step>, ppid: Id)
    ensures var s := Run(Initial(device, mdln, softrev), steps);
            && (ppid in s.fab.recipes <==> ppid in s.fab.gem.programs)
            && (ppid in s.fab.recipes <==> BodiesFor(s.uploads, ppid) != [])
            && (ppid in s.fab.recipes ==>
                  var chain := s.fab.recipes[ppid];
                  && chain[|chain| - 1].body == s.fab.gem.programs[ppid]
                  && |chain| == |BodiesFor(s.uploads, ppid)|
                  && forall i :: 0 <= i < |chain| ==>
                       chain[i].number == i + 1 && chain[i].body == BodiesFor(s.uploads, ppid)[i]
                       && chain[i].checksum == Crc32.Crc(Octets(chain[i].body)))
  {
    ReachableRecipes(device, mdln, softrev, steps);
    var s' := Run(Initial(device, mdln, softrev), steps);
    hide Run, Initial, BodiesFor, HostMade;
    assert ChainSound(s'.fab.recipes, s'.fab.gem.programs, s'.uploads, ppid);
    if ppid in s'.fab.recipes {
      var chain := s'.fab.recipes[ppid];
      assert |Bodies(chain)| == |chain|;
      forall i | 0 <= i < |chain| ensures chain[i].body == BodiesFor(s'.uploads, ppid)[i] {
        assert Bodies(chain)[i] == chain[i].body;
      }
    }
  }

  /** Once a version is in a chain, no later step of any connection changes it. */
  lemma VersionsNeverChange(s: System, steps: seq<Step>, ppid: Id, i: nat)
    requires RecipesSound(s) && ppid in s.fab.recipes && i < |s.fab.recipes[ppid]|
    ensures var r := Run(s, steps).fab.recipes;
            ppid in r && i < |r[ppid]| && r[ppid][i] == s.fab.recipes[ppid][i]
  {
    RunRecipes(s, steps);
  }
}
