/** Why the pairing of jobs and lots needs its conditions: concrete states where it fails. */
module PairingLimits {
  import opened Basics
  import opened Floats
  import opened Recipes
  import opened Secs
  import opened Hsms
  import opened Gem300
  import opened Fab
  import opened FabEffects
  import opened Interleaving
  import opened Pairing
  import Drift
  import Gem
  import RecipeBooks

  const UPLOAD := Message(Header(0, 7, 3, true, 0, 101), Some(L([A("etch"), B([])])))

  const START := Message(Header(0, 2, 41, true, 0, 102), Some(L([A("START"), L([L([A("PJID"), A("jb")])])])))

  /** A host connects and downloads a recipe; two lots of one wafer each are staged. */
  const PREPARING: seq<Step> := [
    Connect(0),
    Deliver(0, UPLOAD),
    StageLot("A", ["a"], "ja", "etch"),
    StageLot("B", ["b"], "jb", "etch")]

  /** Then the host starts the second job, and its runner takes its first step. */
  const STARTING: seq<Step> := [Deliver(0, START), Advance(0, true)]

  /** What the preparation leads to. */
  predicate TwoLots(f: Fab) {
    && f.registry == map["a" := Substrate]["C-A" := Carrier]["ja" := ProcessJob]["b" := Substrate]["C-B" := Carrier]["jb" := ProcessJob]
    && f.wafers == map["a" := NewWafer("A")]["b" := NewWafer("B")]
    && f.lots == [QueuedLot("A", ["a"]), QueuedLot("B", ["b"])]
    && f.jobs == map["ja" := Job(["C-A"], "etch", Queued, ["a"])]["jb" := Job(["C-B"], "etch", Queued, ["b"])]
    && f.recipes == ApplyRecipe(map[], "etch", []) && f.gem.ecids == Boot(0, "", "").gem.ecids && f.gem.pending == []
  }

  lemma StageOne(f: Fab, lot: Id, w: Id, pj: Id)
    requires w !in f.registry && CarrierOf(lot) !in f.registry && pj !in f.registry && FindLot(f.lots, lot).None?
    requires w != CarrierOf(lot) && w != pj && pj != CarrierOf(lot)
    ensures Stage(f, lot, [w], pj, "etch").fab == f.(
              registry := f.registry[w := Substrate][CarrierOf(lot) := Carrier][pj := ProcessJob],
              wafers := f.wafers[w := NewWafer(lot)],
              lots := f.lots + [QueuedLot(lot, [w])],
              jobs := f.jobs[pj := Job([CarrierOf(lot)], "etch", Queued, [w])])
  {
    var f1 := Registered(f, lot, w);
    RegisterOne(f, lot, [w]);
    assert [w][1..] == [];
    assert RegisterWafers(f1, lot, []) == Outcome(f1, true);
    assert [] + [LotEvent(Created, InQueue, 7001)] == [LotEvent(Created, InQueue, 7001)];
  }

  lemma StagedTwice(f: Fab)
    requires f.registry == map[] && f.wafers == map[] && f.lots == [] && f.jobs == map[]
    requires f.recipes == ApplyRecipe(map[], "etch", []) && f.gem.ecids == Boot(0, "", "").gem.ecids && f.gem.pending == []
    ensures TwoLots(Stage(Stage(f, "A", ["a"], "ja", "etch").fab, "B", ["b"], "jb", "etch").fab)
  {
    hide Stage, QueuedLot, NewWafer, ApplyRecipe, Boot;
    assert CarrierOf("A") == "C-A" && CarrierOf("B") == "C-B";
    StageOne(f, "A", "a", "ja");
    var f1 := Stage(f, "A", ["a"], "ja", "etch").fab;
    assert f1.lots == [QueuedLot("A", ["a"])];
    assert QueuedLot("A", ["a"]).id == "A" by { QueuedLotId("A", ["a"]); }
    StageOne(f1, "B", "b", "jb");
    assert f1.lots + [QueuedLot("B", ["b"])] == [QueuedLot("A", ["a"]), QueuedLot("B", ["b"])];
  }

  lemma QueuedLotId(lot: Id, ws: seq<Id>)
    ensures QueuedLot(lot, ws).id == lot
  {
  }

  lemma UploadHandled(g: Gem.State)
    requires g.pending == []
    ensures Gem.Handle(g, UPLOAD).gem.ecids == g.ecids
    ensures Gem.Handle(g, UPLOAD).gem.pending == [Gem.RecipeReceived("etch", [])]
  {
  }

  lemma UploadServed(f: Fab)
    requires f.gem.pending == []
    ensures var s := Serve(f, UPLOAD);
            && s.start.None? && s.fab == f.(gem := s.fab.gem, recipes := ApplyRecipe(f.recipes, "etch", []))
            && s.fab.gem.ecids == f.gem.ecids && s.fab.gem.pending == []
  {
    UploadHandled(f.gem);
    hide Gem.Handle, ApplyRecipe;
    assert [Gem.RecipeReceived("etch", [])][1..] == [];
  }

  lemma StartHandled(g: Gem.State)
    requires g.pending == []
    ensures Gem.Handle(g, START).gem == g.(pending := [Gem.RemoteCommand("START", [("PJID", A("jb"))])])
  {
    var pair := L([A("PJID"), A("jb")]);
    assert [pair][1..] == [];
    var parameters := [("PJID", A("jb"))];
    assert parameters + [] == parameters;
    assert Gem.CommandParameters([pair]) == parameters;
    hide Gem.CommandParameters;
    var parts := START.item.value.items;
    assert parts[0] == A("START") && parts[1].items == [pair];
    assert g.pending + [Gem.RemoteCommand("START", parameters)] == [Gem.RemoteCommand("START", parameters)];
  }

  lemma StartServed(f: Fab)
    requires f.gem.pending == []
    ensures var s := Serve(f, START);
            s.start == Some("jb") && s.fab == f.(gem := s.fab.gem) && s.fab.gem.ecids == f.gem.ecids && s.fab.gem.pending == []
  {
    StartHandled(f.gem);
    hide Gem.Handle;
    var command := Gem.RemoteCommand("START", [("PJID", A("jb"))]);
    assert LowerAll("START") == "start";
    assert [command][1..] == [];
  }

  lemma BootIsEmpty()
    ensures var f := Boot(0, "", "");
            f.registry == map[] && f.wafers == map[] && f.lots == [] && f.jobs == map[] && f.recipes == map[] && f.gem.pending == []
  {
  }

  /** The preparation, step by step. */
  lemma Prepared()
    ensures var s := Run(Initial(0, "", ""), PREPARING);
            TwoLots(s.fab) && 0 in s.connections && s.connections[0].pc == Serving
  {
    var s0 := Initial(0, "", "");
    UploadServed(s0.fab);
    BootIsEmpty();
    hide Boot, Serve, Stage, ApplyRecipe, TwoLots;
    var s1 := Next(s0, PREPARING[0]);
    var s2 := Next(s1, PREPARING[1]);
    var s4 := Next(Next(s2, PREPARING[2]), PREPARING[3]);
    assert s2.fab == Serve(s0.fab, UPLOAD).fab;
    assert s2.connections[0].pc == Serving;
    assert s4.connections == s2.connections;
    StagedTwice(s2.fab);
    RunOf4(s0, PREPARING);
  }

  lemma RunOf4(s: System, steps: seq<Step>)
    requires |steps| == 4
    ensures Run(s, steps) == Next(Next(Next(Next(s, steps[0]), steps[1]), steps[2]), steps[3])
  {
    hide Next;
    assert steps == steps[..2] + steps[2..];
    RunConcat(s, steps[..2], steps[2..]);
    RunOf2(s, steps[..2]);
    RunOf2(Next(Next(s, steps[0]), steps[1]), steps[2..]);
  }

  /** Both jobs may run: the constants are nominal. */
  lemma TwoLotsMayRun(f: Fab)
    requires TwoLots(f)
    ensures LaunchesJob(f, "jb")
  {
    NominalConstants();
    hide Boot, Runnable, Measured, Drift.ConstantsInBand;
    Drift.DownloadedRecipeRunsExactlyInBand(Latest(f.recipes["etch"]), f.gem.ecids);
  }

  lemma NominalConstants()
    ensures Drift.ConstantsInBand(Boot(0, "", "").gem.ecids)
  {
    BitsOfNominal();
    hide OfBits64;
  }

  lemma BitsOfNominal()
    ensures OfBits64(0) == Finite(0.0) && OfBits64(0x3FF0_0000_0000_0000) == Finite(1.0)
  {
    Powers();
    hide PowerOfTwo;
    assert OfFields(false, 0, 0, 11, 52) == Finite(0.0);
    assert OfFields(false, 0x3FF, 0, 11, 52) == Finite(1.0);
    hide OfFields;
  }

  lemma LotsAfterLaunch(f: Fab)
    requires TwoLots(f)
    ensures var ls := LotsAfterActive(f, InProcessing);
            && |ls| == 2 && ls[0].id == "A" && ls[0].wafers == ["a"] && ls[0].state == InProcessing
            && ls[1] == f.lots[1] && ls[1].id == "B" && ls[1].wafers == ["b"] && ls[1].state == InQueue
  {
    hide Boot, ApplyRecipe;
    assert f.lots[0].wafers[0] in f.wafers;
    ActiveIsFirst(f.lots, f.wafers, 0);
    hide ActiveLot;
    MoveActiveLotFrame(f, InProcessing, "");
  }

  lemma LaunchedJobs(jobs: Jobs)
    requires jobs == map["ja" := Job(["C-A"], "etch", Queued, ["a"])]["jb" := Job(["C-B"], "etch", Queued, ["b"])]
    ensures WithJobState(jobs, "jb", Executing)
            == map["ja" := Job(["C-A"], "etch", Queued, ["a"])]["jb" := Job(["C-B"], "etch", Executing, ["b"])]
  {
  }

  lemma MovedFirst(g: Fab)
    requires g.jobs == map["ja" := Job(["C-A"], "etch", Queued, ["a"])]["jb" := Job(["C-B"], "etch", Executing, ["b"])]
    requires |g.lots| == 2
             && g.lots[0].id == "A" && g.lots[0].wafers == ["a"] && g.lots[0].state == InProcessing
             && g.lots[1].id == "B" && g.lots[1].wafers == ["b"] && g.lots[1].state == InQueue
    ensures MovedFirstLot(g)
  {
    assert CarrierOf("A") == "C-A" && CarrierOf("B") == "C-B";
  }

  lemma LaunchMovesFirstLot(f: Fab)
    requires TwoLots(f)
    ensures MovedFirstLot(PhaseOne(f, "jb").fab)
  {
    TwoLotsMayRun(f);
    LotsAfterLaunch(f);
    hide LaunchesJob, PhaseOne, Boot, ApplyRecipe, LotsAfterActive, QueuedLot, NewWafer, HoldLot, RefusesJob, WithJobState, MovedFirstLot;
    PhaseOneEffect(f, "jb");
    assert PhaseOne(f, "jb").fab.lots == LotsAfterActive(f, InProcessing);
    LaunchedJobs(f.jobs);
    MovedFirst(PhaseOne(f, "jb").fab);
  }

  /** The second job executes while its own lot is queued; the first job is queued while its lot is in process. */
  ghost predicate MovedFirstLot(f: Fab) {
    && Owns(f, "jb", 1) && f.jobs["jb"].state == Executing && f.lots[1].state == InQueue
    && Owns(f, "ja", 0) && f.jobs["ja"].state == Queued && f.lots[0].state == InProcessing
  }

  lemma StartedTwoLots(s: System)
    requires TwoLots(s.fab) && 0 in s.connections && s.connections[0].pc == Serving
    ensures MovedFirstLot(Run(s, STARTING).fab)
  {
    StartServed(s.fab);
    hide Serve, TwoLots, MovedFirstLot, RunnerStep;
    var s1 := Next(s, Deliver(0, START));
    assert s1.fab == Serve(s.fab, START).fab && 0 in s1.connections && s1.connections[0].pc == Starting("jb");
    SameTwoLots(s.fab, s1.fab);
    LaunchMovesFirstLot(s1.fab);
    StartedIsPhaseOne(s1);
    RunOf2(s, STARTING);
  }

  lemma RunOf2(s: System, steps: seq<Step>)
    requires |steps| == 2
    ensures Run(s, steps) == Next(Next(s, steps[0]), steps[1])
  {
    hide Next;
    var s1 := Next(s, steps[0]);
    assert steps[1..][0] == steps[1] && steps[1..][1..] == [];
    assert Run(s1, steps[1..]) == Run(Next(s1, steps[1]), []);
  }

  lemma StartedIsPhaseOne(s: System)
    requires 0 in s.connections && s.connections[0].pc == Starting("jb")
    ensures Next(s, Advance(0, true)).fab == PhaseOne(s.fab, "jb").fab
  {
    hide PhaseOne;
  }

  lemma SameTwoLots(f: Fab, g: Fab)
    requires TwoLots(f) && g == f.(gem := g.gem) && g.gem.ecids == f.gem.ecids && g.gem.pending == []
    ensures TwoLots(g)
  {
  }

  /** A run of the program in which starting the second job takes the first lot into processing and leaves
      its own lot queued. */
  lemma SecondJobMovesFirstLot()
    ensures MovedFirstLot(Run(Initial(0, "", ""), PREPARING + STARTING).fab)
  {
    var s := Run(Initial(0, "", ""), PREPARING);
    Prepared();
    RunConcat(Initial(0, "", ""), PREPARING, STARTING);
    StartedTwoLots(s);
  }

  /** A refused job without wafers finds no lot to hold: its lot stays queued while the job is aborted. */
  lemma RefusedEmptyJobLeavesItsLot(f: Fab, pj: Id, i: nat)
    requires RefusesJob(f, pj) && Owns(f, pj, i) && f.lots[i].wafers == []
    ensures var f' := PhaseOne(f, pj).fab;
            f'.jobs[pj].state == Aborted && f'.lots == f.lots
            && (i < |f'.lots| && Agree(Aborted, f'.lots[i].state) <==> f.lots[i].state == OnHold)
  {
    PhaseOneEffect(f, pj);
    hide PhaseOne, MayRun;
  }
}
