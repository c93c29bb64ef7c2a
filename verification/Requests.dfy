/** Only a START from a host sets a job going. */
module Requests {
  import opened Basics
  import opened Secs
  import opened Hsms
  import opened Gem300
  import opened Fab
  import opened FabEffects
  import opened Interleaving
  import opened Protocol
  import opened RecipeBooks
  import Gem

  /** The job an S2F41 asks to start: the command is START in any case, and its first PJID is text. */
  function StartOf(m: Message): Option<Id> {
    if m.header.sType != 0 || m.header.stream != 2 || m.header.fn != 41 then None
    else if m.item.None? || !m.item.value.L? || m.item.value.items == [] then None
    else
      var parts := m.item.value.items;
      if LowerAll(Gem.AsciiOr(parts[0], "")) != "start" || |parts| < 2 || !parts[1].L? then None
      else JobParameter(Gem.CommandParameters(parts[1].items))
  }

  lemma HandlePending(g: Gem.State, m: Message)
    requires g.pending == []
    ensures var p := Gem.Handle(g, m).gem.pending;
            && |p| <= 1
            && (p != [] && p[0].RemoteCommand? ==>
                  StartOf(m) == if LowerAll(p[0].command) == "start" then JobParameter(p[0].parameters) else None)
            && (p == [] || !p[0].RemoteCommand? ==> StartOf(m) == None)
  {
    hide Gem.LookUp, Gem.ApplySettings, Gem.Settings, Gem.SettingAcks, Gem.CommandParameters, Gem.Upload, LowerAll;
    assert JobParameter([]) == None;
    hide JobParameter;
  }

  /** A message starts a job exactly when it asks for it. */
  lemma ServeStartsExactly(f: Fab, m: Message)
    requires f.gem.pending == []
    ensures Serve(f, m).start == StartOf(m)
  {
    HandlePending(f.gem, m);
    hide Gem.Handle, StartOf, LowerAll, JobParameter, ApplyRecipe, UpdateStatus;
    var g := Gem.Handle(f.gem, m).gem;
    var a := Acted(f.(gem := g.(pending := [])), None);
    if g.pending != [] {
      assert g.pending[1..] == [];
      assert ActAll(a, g.pending) == Act(a, g.pending[0]);
    }
  }

  /** The jobs asked for in a run. */
  function Requested(steps: seq<Step>): set<Id> {
    if steps == [] then {} else
    (if steps[0].Deliver? && StartOf(steps[0].message).Some? then {StartOf(steps[0].message).value} else {})
      + Requested(steps[1..])
  }

  /** Every runner works on, and every job begun is, one of these. */
  ghost predicate OnlyThese(s: System, asked: set<Id>) {
    && (forall c :: c in s.connections && Running(s.connections[c].pc) ==> s.connections[c].pc.pj in asked)
    && (forall pj :: Begun(s.fab, pj) ==> pj in asked)
  }

  lemma AdvanceOnlyThese(s: System, c: nat, accepts: bool, asked: set<Id>)
    requires Sound(s) && OnlyThese(s, asked) && c in s.connections && Running(s.connections[c].pc)
    ensures OnlyThese(Next(s, Advance(c, accepts)), asked)
  {
    var pc := s.connections[c].pc;
    var s' := Next(s, Advance(c, accepts));
    assert PlaceFits(s.fab, pc);
    AdvanceBegins(s, c, accepts);
    assert WellPlaced(pc);
    AdvanceNext(s, c, accepts);
    SamePlaceJob(s.fab, pc, accepts);
    hide Next, RunnerStep, Sound;
  }

  lemma SamePlaceJob(f: Fab, pc: Pc, accepts: bool)
    requires Running(pc) && WellPlaced(pc)
    ensures var pc' := RunnerStep(f, pc, accepts).pc; Running(pc') ==> pc'.pj == pc.pj
  {
    hide PhaseOne, PhaseThree, MoveWafer, RaiseBackendAlarm;
  }

  /** A runner's step begins no job but its own. */
  lemma AdvanceBegins(s: System, c: nat, accepts: bool)
    requires Sound(s) && c in s.connections && Running(s.connections[c].pc)
    ensures forall q :: Begun(Next(s, Advance(c, accepts)).fab, q) ==> Begun(s.fab, q) || q == s.connections[c].pc.pj
  {
    var pc, s' := s.connections[c].pc, Next(s, Advance(c, accepts));
    assert PlaceFits(s.fab, pc);
    hide RunnersSound, JobsSound, Shape, PhaseOne, PhaseThree, WafersSound, MoveWafer, RaiseBackendAlarm;
    if pc.Starting? {
      StartingStep(s, c, accepts);
    } else if pc.Finishing? {
      FinishingStep(s, c, accepts);
    } else if pc.Entering? || pc.Leaving? {
      MoveWaferEffect(s.fab, pc.wafers[pc.k], if pc.Entering? then LITHO else Fixed);
    }
  }

  lemma NextOnlyThese(s: System, a: Step, asked: set<Id>)
    requires Sound(s) && RecipesSound(s) && OnlyThese(s, asked)
    ensures OnlyThese(Next(s, a), asked + Requested([a]))
  {
    assert [a][1..] == [] && Requested([]) == {};
    hide RunnersSound, WafersSound, Stage, Serve, RunnerStep, StartOf, ChainsSound;
    match a
    case Connect(_) =>
    case Stop(_, _) =>
    case StageLot(lot, ws, pj, recipe) => StageEffect(s.fab, lot, ws, pj, recipe);
    case Deliver(c, m) =>
      ServeFloor(s.fab, m);
      ServeStartsExactly(s.fab, m);
    case Advance(c, accepts) =>
      if c in s.connections && Running(s.connections[c].pc) {
        AdvanceOnlyThese(s, c, accepts, asked);
      }
  }

  lemma {:induction false} RunOnlyThese(s: System, steps: seq<Step>, asked: set<Id>)
    requires Sound(s) && RecipesSound(s) && OnlyThese(s, asked)
    ensures OnlyThese(Run(s, steps), asked + Requested(steps))
    decreases steps
  {
    hide Sound, RecipesSound, OnlyThese, Next, StartOf;
    if steps == [] {
      assert asked + {} == asked;
    } else {
      NextOnlyThese(s, steps[0], asked);
      NextSound(s, steps[0]);
      NextRecipes(s, steps[0]);
      RunOnlyThese(Next(s, steps[0]), steps[1..], asked + Requested([steps[0]]));
      assert [steps[0]][1..] == [] && Requested([]) == {};
      assert asked + Requested([steps[0]]) + Requested(steps[1..]) == asked + Requested(steps);
    }
  }

  /** In every schedule, a job has left the queue only if some host asked for it by name: nothing else,
      neither staging nor other jobs nor wafers, sets a job going. */
  lemma OnlyRequestedJobsBegin(device: u16, mdln: string, softrev: string, steps: seq<Step>, pj: Id)
    ensures var f := Run(Initial(device, mdln, softrev), steps).fab;
            pj in f.jobs && f.jobs[pj].state != Queued ==> pj in Requested(steps)
  {
    var s := Initial(device, mdln, softrev);
    BootSound(device, mdln, softrev);
    assert RecipesSound(s) && OnlyThese(s, {});
    hide Sound, RecipesSound, Initial, Requested, Run;
    RunOnlyThese(s, steps, {});
    assert {} + Requested(steps) == Requested(steps);
    var f := Run(s, steps).fab;
    assert pj in f.jobs && f.jobs[pj].state != Queued ==> Begun(f, pj);
  }
}
