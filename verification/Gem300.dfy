/** Tracked objects, substrates, process jobs and lots: their values and legal moves. */
module Gem300 {
  import opened Basics
  import Decimals

  type Id = string

  datatype Kind = Substrate | Carrier | ProcessJob | ControlJob

  type Registry = map<Id, Kind>

  /** `ObjectRegistry::create`. */
  function CreateObject(r: Registry, id: Id, kind: Kind): Option<Registry> {
    if id in r then None else Some(r[id := kind])
  }

  datatype Location = Port(port: nat, carrier: Option<Id>) | Buffer(slot: nat) | Chamber(id: string) | Fixed

  datatype Wafer = Wafer(lot: Option<Id>, location: Location)

  type Wafers = map<Id, Wafer>

  function FormatLocation(l: Location): string {
    match l
    case Port(port, _) => "Port" + Decimals.Print(port)
    case Buffer(slot) => "Buffer" + Decimals.Print(slot)
    case Chamber(id) => "Chamber(" + id + ")"
    case Fixed => "Fixed"
  }

  datatype JobState = Queued | SettingUp | WaitingForStart | Executing | Paused | Completed | Aborted

  predicate Terminal(s: JobState) {
    s == Completed || s == Aborted
  }

  datatype Job = Job(carriers: seq<Id>, recipe: string, state: JobState, wafers: seq<Id>)

  type Jobs = map<Id, Job>

  /** The event a job transition reports; `None` when the move is illegal. */
  function JobEvent(from: JobState, to: JobState): Option<nat> {
    match (from, to)
    case (Queued, SettingUp) => Some(6001)
    case (SettingUp, WaitingForStart) => Some(6001)
    case (WaitingForStart, Executing) => Some(6002)
    case (Executing, Paused) => Some(6005)
    case (Paused, Executing) => Some(6006)
    case (Executing, Completed) => Some(6003)
    case (_, Aborted) => if Terminal(from) then None else Some(6004)
    case _ => None
  }

  /** A changed collection and the event the change reports. */
  datatype Moved<+T> = Moved(state: T, event: nat)

  /** `ProcessJobManager::transition`. */
  function MoveJob(r: Registry, jobs: Jobs, id: Id, to: JobState): Option<Moved<Jobs>> {
    if id !in r || id !in jobs then None else
    match JobEvent(jobs[id].state, to)
    case None => None
    case Some(e) => Some(Moved(jobs[id := jobs[id].(state := to)], e))
  }

  // ----- lots -----

  datatype LotState = Created | InQueue | InProcessing | OnHold | LotCompleted | Scrapped

  datatype LotEvent = LotEvent(from: LotState, to: LotState, event: nat)

  datatype Lot = Lot(id: Id, wafers: seq<Id>, state: LotState, history: seq<LotEvent>)

  type Lots = seq<Lot>

  function LotEventOf(from: LotState, to: LotState): Option<nat> {
    match (from, to)
    case (Created, InQueue) => Some(7001)
    case (InQueue, InProcessing) => Some(7002)
    case (InProcessing, LotCompleted) => Some(7003)
    case (InQueue, OnHold) => Some(7004)
    case (InProcessing, OnHold) => Some(7004)
    case (OnHold, InQueue) => Some(7001)
    case (_, Scrapped) => Some(7005)
    case _ => None
  }

  /** `Lot::transition`: the history grows by exactly the move made. */
  function MoveLot(l: Lot, to: LotState): Option<Moved<Lot>> {
    match LotEventOf(l.state, to)
    case None => None
    case Some(e) => Some(Moved(l.(state := to, history := l.history + [LotEvent(l.state, to, e)]), e))
  }

  predicate Finished(l: Lot) {
    l.state == LotCompleted || l.state == Scrapped
  }

  /** The position of a lot, found from the front as `iter().find` does. */
  function FindLot(lots: Lots, id: Id): (r: Option<nat>)
    ensures r.Some? ==> r.value < |lots| && lots[r.value].id == id
    ensures r.None? ==> forall i :: 0 <= i < |lots| ==> lots[i].id != id
    ensures r.Some? ==> forall i :: 0 <= i < r.value ==> lots[i].id != id
  {
    if lots == [] then None
    else if lots[0].id == id then Some(0)
    else match FindLot(lots[1..], id) case None => None case Some(i) => Some(i + 1)
  }

  /** `get_mut(id)` followed by `transition(to)`. */
  function MoveLotById(lots: Lots, id: Id, to: LotState): Option<Moved<Lots>> {
    match FindLot(lots, id)
    case None => None
    case Some(i) =>
      match MoveLot(lots[i], to)
      case None => None
      case Some(Moved(l, e)) => Some(Moved(lots[i := l], e))
  }

  /** The history is an unbroken chain of legal moves from `Created` to the present state. */
  predicate HistoryExplains(l: Lot) {
    && (forall i :: 0 <= i < |l.history| ==>
          LotEventOf(l.history[i].from, l.history[i].to) == Some(l.history[i].event))
    && (forall i :: 0 < i < |l.history| ==> l.history[i].from == l.history[i - 1].to)
    && (if l.history == [] then l.state == Created
        else l.history[0].from == Created && l.history[|l.history| - 1].to == l.state)
  }

  lemma MoveLotKeepsHistory(l: Lot, to: LotState)
    requires HistoryExplains(l) && MoveLot(l, to).Some?
    ensures HistoryExplains(MoveLot(l, to).value.state)
    ensures l.history < MoveLot(l, to).value.state.history
  {
  }

  // ----- the legal moves -----

  /** A process job's moves and the events they report; no other move is legal. */
  lemma JobMoves(from: JobState, to: JobState)
    ensures JobEvent(from, to) ==
              if to == Aborted && from != Completed && from != Aborted then Some(6004)
              else if from == Queued && to == SettingUp then Some(6001)
              else if from == SettingUp && to == WaitingForStart then Some(6001)
              else if to == Executing && from == WaitingForStart then Some(6002)
              else if to == Completed && from == Executing then Some(6003)
              else if from == Executing && to == Paused then Some(6005)
              else if from == Paused && to == Executing then Some(6006)
              else None
  {
  }

  /** A lot's moves and the events they report; any lot may be scrapped. */
  lemma LotMoves(from: LotState, to: LotState)
    ensures LotEventOf(from, to) ==
              if to == Scrapped then Some(7005)
              else if to == InQueue && (from == Created || from == OnHold) then Some(7001)
              else if to == InProcessing && from == InQueue then Some(7002)
              else if to == LotCompleted && from == InProcessing then Some(7003)
              else if to == OnHold && (from == InQueue || from == InProcessing) then Some(7004)
              else None
  {
  }
}
