/** The simulator's shared state and every critical section of the process-job protocol,
    each as one function from state to state. */
module Fab {
  import opened Basics
  import opened Secs
  import opened Hsms
  import opened Recipes
  import opened Gem300
  import opened Floats
  import Gem

  const LOTS_PROCESSED := 2004
  const DRIFT_OUT_OF_SPEC := 9001
  const BACKEND_ERROR := 9002

  /** `FabState`. */
  datatype Fab = Fab(
    gem: Gem.State,
    recipes: Store,
    lots: Lots,
    registry: Registry,
    wafers: Wafers,
    jobs: Jobs)

  // ----- staging -----

  function CarrierOf(lot: Id): Id {
    "C-" + lot
  }

  /** A state and whether the operation that led to it succeeded. */
  datatype Outcome = Outcome(fab: Fab, ok: bool)

  /** Registers the wafers one by one; stops at the first identifier already in use and keeps
      what was registered before it. */
  function RegisterWafers(f: Fab, lot: Id, wafers: seq<Id>): (o: Outcome)
    decreases wafers
  {
    if wafers == [] then Outcome(f, true) else
    match CreateObject(f.registry, wafers[0], Substrate)
    case None => Outcome(f, false)
    case Some(registry) =>
      var wafer := Wafer(Some(lot), Port(1, Some(CarrierOf(lot))));
      RegisterWafers(f.(registry := registry, wafers := f.wafers[wafers[0] := wafer]), lot, wafers[1..])
  }

  /** `stage_lot_and_job`; each `?` leaves the steps before it in place. */
  function Stage(f: Fab, lot: Id, wafers: seq<Id>, pj: Id, recipe: string): Outcome {
    var Outcome(f1, ok) := RegisterWafers(f, lot, wafers);
    if !ok then Outcome(f1, false) else
    match CreateObject(f1.registry, CarrierOf(lot), Carrier)
    case None => Outcome(f1, false)
    case Some(registry) =>
      var f2 := f1.(registry := registry);
      if FindLot(f2.lots, lot).Some? then Outcome(f2, false) else
      var queued := MoveLot(Lot(lot, wafers, Created, []), InQueue).value.state;
      var f3 := f2.(lots := f2.lots + [queued]);
      match CreateObject(f3.registry, pj, ProcessJob)
      case None => Outcome(f3, false)
      case Some(registry') =>
        Outcome(f3.(registry := registry', jobs := f3.jobs[pj := Job([CarrierOf(lot)], recipe, Queued, wafers)]), true)
  }

  // ----- drift -----

  /** The value of an equipment constant that holds a number; anything else reads as zero. */
  function Offset(ecids: map<nat, Item>, id: nat): F64 {
    if id !in ecids || !ecids[id].Num? || ecids[id].vals == [] || ecids[id].vals[0] < 0 then Finite(0.0) else
    var v: nat := ecids[id].vals[0];
    match ecids[id].kind
    case F8 => OfBits64(v)
    case F4 => OfBits32(v)
    case U4 => Finite(v as real)
    case _ => Finite(0.0)
  }

  /** The process-time factor; one that is not positive counts as nominal. */
  function Scale(ecids: map<nat, Item>): F64 {
    var s := Offset(ecids, 1003);
    if Gt(s, Finite(0.0)) then s else Finite(1.0)
  }

  predicate Contains(s: string, part: string) {
    part <= s || (s != [] && Contains(s[1..], part))
  }

  /** A recipe parameter as the equipment would run it. */
  function Effective(ecids: map<nat, Item>, name: string, value: ParameterValue): ParameterValue {
    if !value.Numeric? then value
    else if Contains(name, "temp") then Numeric(Add(value.value, Offset(ecids, 1001)))
    else if Contains(name, "pressure") then Numeric(Add(value.value, Offset(ecids, 1002)))
    else if Contains(name, "time") then Numeric(Mul(value.value, Scale(ecids)))
    else value
  }

  function Measured(ecids: map<nat, Item>, p: Parameters): Parameters {
    map name | name in p :: Effective(ecids, name, p[name])
  }

  // ----- handling a host message -----

  function HostParameters(): Parameters {
    map["chamber_temp_c" := Numeric(Finite(150.0)),
        "chamber_pressure_mtorr" := Numeric(Finite(50.0)),
        "process_time_s" := Numeric(Finite(60.0))]
  }

  function HostTolerances(): map<string, Tolerance> {
    map["chamber_temp_c" := Absolute(Finite(3.0)),
        "chamber_pressure_mtorr" := Absolute(Finite(4.0)),
        "process_time_s" := Relative(Finite(0.05))]
  }

  /** `apply_recipe_body`. */
  function ApplyRecipe(recipes: Store, ppid: string, body: bytes): Store {
    if ppid in recipes
    then recipes[ppid := AddVersion(recipes[ppid], NewVersion(0, HostParameters(), HostTolerances(), body))]
    else recipes[ppid := [NewVersion(1, HostParameters(), HostTolerances(), body)]]
  }

  function Lower(c: char): char {
    if 'A' <= c <= 'Z' then (c as int + 32) as char else c
  }

  function LowerAll(s: string): string {
    seq(|s|, i requires 0 <= i < |s| => Lower(s[i]))
  }

  /** The first parameter called PJID, if its value is text. */
  function JobParameter(ps: seq<(string, Item)>): Option<Id> {
    if ps == [] then None
    else if ps[0].0 == "PJID" then Gem.AsAscii(ps[0].1)
    else JobParameter(ps[1..])
  }

  /** The state and the job to start once the reply is out. */
  datatype Acted = Acted(fab: Fab, start: Option<Id>)

  function Act(a: Acted, action: Gem.Action): Acted {
    match action
    case RecipeReceived(ppid, body) => a.(fab := a.fab.(recipes := ApplyRecipe(a.fab.recipes, ppid, body)))
    case RemoteCommand(command, ps) =>
      if LowerAll(command) == "start" && JobParameter(ps).Some? then a.(start := JobParameter(ps)) else a
    case GoOnlineRequested => a.(fab := a.fab.(gem := Gem.RequestOnline(a.fab.gem, a.fab.gem.onlineMode)))
    case GoOfflineRequested => a.(fab := a.fab.(gem := Gem.GoOffline(a.fab.gem, true)))
    case ConstantsChanged(_) => a
    case TerminalMessage(_, _) => a
  }

  function ActAll(a: Acted, actions: seq<Gem.Action>): Acted
    decreases actions
  {
    if actions == [] then a else ActAll(Act(a, actions[0]), actions[1..])
  }

  function ControlName(c: Gem.ControlState): string {
    match c
    case EquipmentOffline => "EquipmentOffline"
    case AttemptOnline => "AttemptOnline"
    case HostOffline => "HostOffline"
    case OnlineLocal => "OnlineLocal"
    case OnlineRemote => "OnlineRemote"
  }

  function CommunicationName(c: Gem.CommunicationState): string {
    match c
    case Disabled => "Disabled"
    case EnabledNotCommunicating => "NotCommunicating"
    case EnabledCommunicating => "Communicating"
  }

  /** `update_svids`. */
  function UpdateStatus(g: Gem.State): Gem.State {
    g.(svids := g.svids[2002 := A(ControlName(g.ctrl))][2003 := A(CommunicationName(g.com))])
  }

  /** The state after a host message, the reply, and the job it asks to start. */
  datatype Served = Served(fab: Fab, reply: Option<Message>, start: Option<Id>)

  /** The critical section of `handle_data`. */
  function Serve(f: Fab, m: Message): Served {
    var Reply(g, reply) := Gem.Handle(f.gem, m);
    var Acted(f', start) := ActAll(Acted(f.(gem := g.(pending := [])), None), g.pending);
    Served(f'.(gem := UpdateStatus(f'.gem)), reply, start)
  }

  // ----- phase 1 -----

  /** `event_for`. */
  function EventFor(g: Gem.State, ceid: nat, subject: string, note: string): Gem.Built {
    Gem.MakeEvent(g, ceid, [("SubjectID", A(subject)), ("Note", A(note))])
  }

  /** `hold_lot`: the lot of the job's first wafer goes on hold if it may. */
  function HoldLot(lots: Lots, wafers: Wafers, job: Job): Lots {
    if job.wafers == [] || job.wafers[0] !in wafers || wafers[job.wafers[0]].lot.None? then lots else
    match MoveLotById(lots, wafers[job.wafers[0]].lot.value, OnHold)
    case None => lots
    case Some(moved) => moved.state
  }

  predicate HasKnownWafer(wafers: Wafers, l: Lot) {
    exists i :: 0 <= i < |l.wafers| && l.wafers[i] in wafers
  }

  /** `lot_of_via`: the first unfinished lot with a registered wafer. The job is not consulted. */
  function ActiveLot(lots: Lots, wafers: Wafers): (r: Option<Id>)
    ensures r.Some? <==> exists i :: 0 <= i < |lots| && !Finished(lots[i]) && HasKnownWafer(wafers, lots[i])
  {
    if lots == [] then None
    else if !Finished(lots[0]) && HasKnownWafer(wafers, lots[0]) then Some(lots[0].id)
    else
      assert forall i :: 0 < i < |lots| ==> lots[i] == lots[1..][i - 1];
      ActiveLot(lots[1..], wafers)
  }

  /** Where a critical section leaves its runner: gone with the connection, back to serving, or
      carrying on. */
  datatype Turn = Dropped | Over | Onward

  /** A critical section's result: the messages it hands over to send, and all those it made. */
  datatype Section = Section(fab: Fab, turn: Turn, send: seq<Message>, made: seq<Message>)

  /** Phase 1 when the job may not run: alarm, abort, hold the lot. An unknown recipe discards
      the messages; drift sends them. */
  function Refuse(f: Fab, pj: Id, job: Job, announce: bool): Section {
    match Gem.MakeAlarm(f.gem, DRIFT_OUT_OF_SPEC, true)
    case None => Section(f, Dropped, [], [])
    case Some(Built(g1, alarm)) =>
      match MoveJob(f.registry, f.jobs, pj, Aborted)
      case None => Section(f.(gem := g1), Dropped, [], [alarm])
      case Some(Moved(jobs, ceid)) =>
        var Built(g2, event) := EventFor(g1, ceid, pj, "ABORTED");
        var f' := f.(gem := g2, jobs := jobs, lots := HoldLot(f.lots, f.wafers, job));
        if announce
        then Section(f'.(gem := UpdateStatus(g2)), Onward, [alarm, event], [alarm, event])
        else Section(f', Over, [], [alarm, event])
  }

  const TO_EXECUTING: seq<JobState> := [SettingUp, WaitingForStart, Executing]

  /** The three job moves of phase 1, stopping at the first illegal one. */
  function RunMoves(f: Fab, pj: Id, steps: seq<JobState>): Section
    decreases steps
  {
    if steps == [] then Section(f, Onward, [], []) else
    match MoveJob(f.registry, f.jobs, pj, steps[0])
    case None => Section(f, Dropped, [], [])
    case Some(Moved(jobs, ceid)) =>
      var Built(g, event) := EventFor(f.gem, ceid, pj, "RUNNING");
      var rest := RunMoves(f.(gem := g, jobs := jobs), pj, steps[1..]);
      rest.(send := [event] + rest.send, made := [event] + rest.made)
  }

  /** Moves the active lot, if there is one and it may move, and reports it. */
  function MoveActiveLot(f: Fab, to: LotState, note: string): Section {
    match ActiveLot(f.lots, f.wafers)
    case None => Section(f, Onward, [], [])
    case Some(lot) =>
      match MoveLotById(f.lots, lot, to)
      case None => Section(f, Onward, [], [])
      case Some(Moved(lots, ceid)) =>
        var Built(g, event) := EventFor(f.gem, ceid, lot, note);
        Section(f.(gem := g, lots := lots), Onward, [event], [event])
  }

  /** Phase 1 when the job may run. */
  function Launch(f: Fab, pj: Id): Section {
    var s1 := RunMoves(f, pj, TO_EXECUTING);
    if s1.turn != Onward then Section(s1.fab, Dropped, [], s1.made) else
    var s2 := MoveActiveLot(s1.fab, InProcessing, "RUNNING");
    Section(s2.fab.(gem := UpdateStatus(s2.fab.gem)), Onward, s1.send + s2.send, s1.made + s2.made)
  }

  predicate MayRun(f: Fab, job: Job)
    requires job.recipe in f.recipes
  {
    var v := Latest(f.recipes[job.recipe]);
    Runnable(v, Measured(f.gem.ecids, v.parameters))
  }

  /** Phase 1 of `run_process_job`. */
  function PhaseOne(f: Fab, pj: Id): Section {
    if pj !in f.jobs then Section(f, Dropped, [], []) else
    var job := f.jobs[pj];
    if job.recipe !in f.recipes then Refuse(f, pj, job, false)
    else if !MayRun(f, job) then Refuse(f, pj, job, true)
    else Launch(f, pj)
  }

  /** The started check. */
  predicate Started(f: Fab, pj: Id) {
    pj in f.jobs && f.jobs[pj].state == Executing
  }

  // ----- phase 2 -----

  const LITHO: Location := Chamber("CH-LITHO")

  /** `move_substrate` and the report of the move. */
  function MoveWafer(f: Fab, wafer: Id, to: Location): Section {
    if wafer !in f.wafers then Section(f, Onward, [], []) else
    var from := f.wafers[wafer].location;
    var Built(g, event) := Gem.MakeEvent(f.gem, 5001, [
      ("SubstrateID", A(wafer)), ("FromLocation", A(FormatLocation(from))), ("ToLocation", A(FormatLocation(to)))]);
    Section(f.(gem := g, wafers := f.wafers[wafer := f.wafers[wafer].(location := to)]), Onward, [event], [event])
  }

  function RaiseBackendAlarm(f: Fab): Section {
    match Gem.MakeAlarm(f.gem, BACKEND_ERROR, true)
    case None => Section(f, Onward, [], [])
    case Some(Built(g, alarm)) => Section(f.(gem := g), Onward, [alarm], [alarm])
  }

  // ----- phase 3 -----

  /** One more lot processed: a 32-bit counter, present as the first value of a U4 item. */
  function CountLot(g: Gem.State): Gem.State {
    match if LOTS_PROCESSED in g.svids then g.svids[LOTS_PROCESSED] else L([])
    case Num(U4, vals) =>
      if vals == [] then g
      else g.(svids := g.svids[LOTS_PROCESSED := Num(U4, vals[0 := (vals[0] + 1) % 0x1_0000_0000])])
    case _ => g
  }

  /** Phase 3 of `run_process_job`. */
  function PhaseThree(f: Fab, pj: Id, failed: bool): Section {
    match MoveJob(f.registry, f.jobs, pj, if failed then Aborted else Completed)
    case None => Section(f, Dropped, [], [])
    case Some(Moved(jobs, ceid)) =>
      var note := if failed then "ABORTED" else "DONE";
      var Built(g, event) := EventFor(f.gem, ceid, pj, note);
      var s := MoveActiveLot(f.(gem := g, jobs := jobs), if failed then OnHold else LotCompleted, note);
      var g' := if failed then s.fab.gem else CountLot(s.fab.gem);
      Section(s.fab.(gem := UpdateStatus(g')), Over, [event] + s.send, [event] + s.made)
  }

  // ----- the initial state -----

  /** The state `bind` sets up. */
  function Boot(device: u16, mdln: string, softrev: string): Fab {
    var f8 := (bits: nat) => Num(F8, [bits]);
    Fab(Gem.State(
          device, mdln, softrev, Gem.Remote, Gem.EnabledNotCommunicating, Gem.EquipmentOffline,
          map[2001 := A(""), 2002 := A("EquipmentOffline"), 2003 := A("NotCommunicating"), 2004 := Gem.U4(0)],
          map[1001 := f8(0), 1002 := f8(0), 1003 := f8(0x3FF0_0000_0000_0000)],
          map[DRIFT_OUT_OF_SPEC := Gem.Alarm("recipe drift out of spec", false),
              BACKEND_ERROR := Gem.Alarm("patterning backend refused plan", false)],
          map[], [], None, [], 1),
        map[], [], map[], map[], map[])
  }
}
