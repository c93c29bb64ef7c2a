/** Jobs and the lots they were staged for: when a job's state and its lot's state agree. */
module Pairing {
  import opened Basics
  import opened Hsms
  import opened Gem300
  import opened Fab
  import opened FabEffects
  import opened Interleaving
  import opened Protocol
  import Gem

  // ----- the books: which lot belongs to which job -----

  predicate LotBooked(f: Fab, i: nat)
    requires i < |f.lots|
  {
    var l := f.lots[i];
    && CarrierOf(l.id) in f.registry && HistoryExplains(l)
    && forall w :: w in l.wafers ==> w in f.wafers && f.wafers[w].lot == Some(l.id)
  }

  /** The job was staged together with the lot. */
  predicate Owns(f: Fab, pj: Id, i: nat) {
    pj in f.jobs && i < |f.lots| && f.jobs[pj].carriers == [CarrierOf(f.lots[i].id)] && f.jobs[pj].wafers == f.lots[i].wafers
  }

  ghost predicate Books(f: Fab) {
    && (forall i :: 0 <= i < |f.lots| ==> LotBooked(f, i))
    && (forall i, j :: 0 <= i < j < |f.lots| ==> f.lots[i].id != f.lots[j].id)
    && (forall pj :: pj in f.jobs ==> exists i: nat :: Owns(f, pj, i))
    && (forall p, q, i: nat :: Owns(f, p, i) && Owns(f, q, i) ==> p == q)
  }

  lemma CarrierInjective(a: Id, b: Id)
    requires CarrierOf(a) == CarrierOf(b)
    ensures a == b
  {
    assert CarrierOf(a)[2..] == a && CarrierOf(b)[2..] == b;
  }

  lemma OwnsOne(f: Fab, pj: Id, i: nat, j: nat)
    requires Books(f) && Owns(f, pj, i) && Owns(f, pj, j)
    ensures i == j
  {
    assert [CarrierOf(f.lots[i].id)][0] == [CarrierOf(f.lots[j].id)][0];
    CarrierInjective(f.lots[i].id, f.lots[j].id);
  }

  /** A job's state and its lot's state agree. */
  predicate Agree(job: JobState, lot: LotState) {
    match job
    case Queued => lot == InQueue
    case Executing => lot == InProcessing
    case Completed => lot == LotCompleted
    case Aborted => lot == OnHold
    case _ => false
  }

  ghost predicate Paired(f: Fab) {
    forall pj, i: nat :: Owns(f, pj, i) ==> Agree(f.jobs[pj].state, f.lots[i].state)
  }

  /** At most one lot is unfinished, and it has a wafer. */
  ghost predicate Single(f: Fab) {
    && (forall i, j :: 0 <= i < |f.lots| && 0 <= j < |f.lots| && !Finished(f.lots[i]) && !Finished(f.lots[j]) ==> i == j)
    && (forall i :: 0 <= i < |f.lots| && !Finished(f.lots[i]) ==> f.lots[i].wafers != [])
  }

  // ----- moving lots -----

  /** Lots `i` of two states differ by one legal, recorded move; the others do not differ. */
  predicate OneLotMoves(lots: Lots, lots': Lots, i: nat) {
    && |lots'| == |lots|
    && (forall j :: 0 <= j < |lots| && j != i ==> lots'[j] == lots[j])
    && (i < |lots| ==> lots'[i] == lots[i] || exists to :: MoveLot(lots[i], to).Some? && lots'[i] == MoveLot(lots[i], to).value.state)
  }

  ghost predicate SomeLotMoves(lots: Lots, lots': Lots) {
    exists i :: OneLotMoves(lots, lots', i)
  }

  lemma MoveByIdMovesOne(lots: Lots, id: Id, to: LotState)
    requires MoveLotById(lots, id, to).Some?
    ensures OneLotMoves(lots, MoveLotById(lots, id, to).value.state, FindLot(lots, id).value)
  {
    var i := FindLot(lots, id).value;
    assert MoveLot(lots[i], to).Some?;
  }

  lemma ActiveMovesSome(f: Fab, to: LotState)
    ensures SomeLotMoves(f.lots, LotsAfterActive(f, to))
  {
    MoveActiveLotFrame(f, to, "");
    var lot := ActiveLot(f.lots, f.wafers);
    if lot.Some? && MoveLotById(f.lots, lot.value, to).Some? {
      MoveByIdMovesOne(f.lots, lot.value, to);
    } else {
      assert OneLotMoves(f.lots, f.lots, 0);
    }
  }

  lemma HoldMovesSome(f: Fab, job: Job)
    ensures SomeLotMoves(f.lots, HoldLot(f.lots, f.wafers, job))
  {
    if job.wafers != [] && job.wafers[0] in f.wafers && f.wafers[job.wafers[0]].lot.Some? {
      var id := f.wafers[job.wafers[0]].lot.value;
      if MoveLotById(f.lots, id, OnHold).Some? {
        MoveByIdMovesOne(f.lots, id, OnHold);
        return;
      }
    }
    assert OneLotMoves(f.lots, f.lots, 0);
  }

  /** Lot moves and job-state moves keep the books. */
  lemma MovesKeepBooks(f: Fab, f': Fab)
    requires Books(f) && SomeLotMoves(f.lots, f'.lots) && f'.registry == f.registry
    requires forall w :: w in f.wafers ==> w in f'.wafers && f'.wafers[w].lot == f.wafers[w].lot
    requires f'.jobs.Keys == f.jobs.Keys
    requires forall q :: q in f.jobs ==> f'.jobs[q].wafers == f.jobs[q].wafers && f'.jobs[q].carriers == f.jobs[q].carriers
    ensures Books(f')
    ensures forall pj, i: nat :: Owns(f', pj, i) == Owns(f, pj, i)
  {
    var k :| OneLotMoves(f.lots, f'.lots, k);
    forall i | 0 <= i < |f.lots|
      ensures f'.lots[i].id == f.lots[i].id && f'.lots[i].wafers == f.lots[i].wafers
      ensures HistoryExplains(f'.lots[i]) {
      assert LotBooked(f, i);
      if i == k && f'.lots[i] != f.lots[i] {
        var to :| MoveLot(f.lots[i], to).Some? && f'.lots[i] == MoveLot(f.lots[i], to).value.state;
        MoveLotKeepsHistory(f.lots[i], to);
      }
    }
    hide HistoryExplains;
    forall pj, i: nat ensures Owns(f', pj, i) == Owns(f, pj, i) {
    }
    forall i | 0 <= i < |f'.lots| ensures LotBooked(f', i) {
      assert LotBooked(f, i);
    }
    forall pj | pj in f'.jobs ensures exists i: nat :: Owns(f', pj, i) {
      var i: nat :| Owns(f, pj, i);
      assert Owns(f', pj, i);
    }
  }

  // ----- staging -----

  /** What staging does: nothing beyond fresh wafers, or one more queued lot, or that lot and its job. */
  ghost predicate Staged(f: Fab, f': Fab, lot: Id, ws: seq<Id>, pj: Id, recipe: string) {
    && (forall x :: x in f.registry ==> x in f'.registry)
    && (forall x :: x in f.wafers ==> x in f'.wafers && f'.wafers[x] == f.wafers[x])
    && (|| (f'.lots == f.lots && f'.jobs == f.jobs)
        || (&& CarrierOf(lot) !in f.registry && CarrierOf(lot) in f'.registry
            && f'.lots == f.lots + [QueuedLot(lot, ws)]
            && (forall w :: w in ws ==> w in f'.wafers && f'.wafers[w].lot == Some(lot))
            && (f'.jobs == f.jobs || (pj !in f.registry && f'.jobs == f.jobs[pj := Job([CarrierOf(lot)], recipe, Queued, ws)]))))
  }

  function QueuedLot(lot: Id, ws: seq<Id>): Lot {
    Lot(lot, ws, InQueue, [LotEvent(Created, InQueue, 7001)])
  }

  lemma StageEffectOnLots(f: Fab, lot: Id, ws: seq<Id>, pj: Id, recipe: string)
    requires JobsSound(f)
    ensures Staged(f, Stage(f, lot, ws, pj, recipe).fab, lot, ws, pj, recipe)
  {
    RegisterWafersEffect(f, lot, ws);
    hide RegisterWafers, AllFree;
    assert [] + [LotEvent(Created, InQueue, 7001)] == [LotEvent(Created, InQueue, 7001)];
    assert MoveLot(Lot(lot, ws, Created, []), InQueue).value.state == QueuedLot(lot, ws);
  }

  lemma StageKeepsBooks(f: Fab, f': Fab, lot: Id, ws: seq<Id>, pj: Id, recipe: string)
    requires JobsSound(f) && Books(f) && Staged(f, f', lot, ws, pj, recipe)
    ensures Books(f')
  {
    StagedLotsBooked(f, f', lot, ws, pj, recipe);
    StagedOwners(f, f', lot, ws, pj, recipe);
    hide HistoryExplains, JobsSound, LotBooked, Owns, Staged;
    forall q | q in f'.jobs ensures exists i: nat :: Owns(f', q, i) {
      if q in f.jobs {
        var i: nat :| Owns(f, q, i);
        assert Owns(f', q, i);
      }
    }
    forall p, q, i: nat | Owns(f', p, i) && Owns(f', q, i) ensures p == q {
      if Owns(f, p, i) {
        OwnsBounds(f, p, i);
      }
      if Owns(f, q, i) {
        OwnsBounds(f, q, i);
      }
    }
  }

  lemma StageKeepsPairs(f: Fab, f': Fab, lot: Id, ws: seq<Id>, pj: Id, recipe: string)
    requires JobsSound(f) && Books(f) && Paired(f) && Staged(f, f', lot, ws, pj, recipe)
    ensures Paired(f')
  {
    StagedOwners(f, f', lot, ws, pj, recipe);
    StagedStates(f, f', lot, ws, pj, recipe);
    hide JobsSound, Books, Owns, Staged;
    forall q, i: nat | Owns(f', q, i) ensures q in f'.jobs && i < |f'.lots| && Agree(f'.jobs[q].state, f'.lots[i].state) {
      OwnsBounds(f', q, i);
      if Owns(f, q, i) {
        OwnsBounds(f, q, i);
      }
    }
  }

  lemma StagedStates(f: Fab, f': Fab, lot: Id, ws: seq<Id>, pj: Id, recipe: string)
    requires JobsSound(f) && Staged(f, f', lot, ws, pj, recipe)
    ensures forall q :: q in f.jobs ==> q in f'.jobs && f'.jobs[q] == f.jobs[q]
    ensures f.lots <= f'.lots && (|f'.lots| > |f.lots| ==> f'.lots[|f.lots|].state == InQueue)
  {
  }

  lemma OwnsBounds(f: Fab, q: Id, i: nat)
    requires Owns(f, q, i)
    ensures q in f.jobs && i < |f.lots|
  {
  }

  /** Who owns what after staging: as before, except that the new job owns the new lot. */
  lemma StagedOwners(f: Fab, f': Fab, lot: Id, ws: seq<Id>, pj: Id, recipe: string)
    requires JobsSound(f) && Books(f) && Staged(f, f', lot, ws, pj, recipe)
    ensures forall q, i: nat :: Owns(f, q, i) ==> Owns(f', q, i)
    ensures forall q, i: nat :: Owns(f', q, i) ==>
              Owns(f, q, i) || (q == pj && pj !in f.jobs && i == |f.lots| && f'.jobs[pj].state == Queued)
    ensures forall q :: q in f'.jobs && q !in f.jobs ==> Owns(f', q, |f.lots|)
  {
    hide HistoryExplains;
    if |f'.lots| > |f.lots| {
      NewLotOwned(f, f', lot, ws, pj, recipe);
    }
  }

  lemma StagedLotsBooked(f: Fab, f': Fab, lot: Id, ws: seq<Id>, pj: Id, recipe: string)
    requires Books(f) && Staged(f, f', lot, ws, pj, recipe)
    ensures forall i :: 0 <= i < |f'.lots| ==> LotBooked(f', i)
    ensures forall i, j :: 0 <= i < j < |f'.lots| ==> f'.lots[i].id != f'.lots[j].id
  {
    hide HistoryExplains, Owns;
    var n := |f.lots|;
    forall i | 0 <= i < |f'.lots|
      ensures LotBooked(f', i)
      ensures i < n < |f'.lots| ==> f'.lots[i].id != lot {
      if i < n {
        assert LotBooked(f, i);
      } else {
        NewLotExplained(lot, ws);
      }
    }
  }

  lemma NewLotExplained(lot: Id, ws: seq<Id>)
    ensures HistoryExplains(QueuedLot(lot, ws))
  {
  }

  /** The new lot has no owner among the old jobs, and the new job owns no old lot. */
  lemma NewLotOwned(f: Fab, f': Fab, lot: Id, ws: seq<Id>, pj: Id, recipe: string)
    requires JobsSound(f) && Books(f) && Staged(f, f', lot, ws, pj, recipe) && |f'.lots| > |f.lots|
    ensures forall q :: q in f.jobs ==> !Owns(f', q, |f.lots|)
    ensures forall q, i: nat :: q in f'.jobs && q !in f.jobs && i < |f.lots| ==> !Owns(f', q, i)
  {
    hide HistoryExplains;
    forall q | q in f.jobs ensures !Owns(f', q, |f.lots|) {
      var i: nat :| Owns(f, q, i);
      assert LotBooked(f, i);
      assert f.jobs[q].carriers[0] == CarrierOf(f.lots[i].id);
    }
    forall q, i: nat | q in f'.jobs && q !in f.jobs && i < |f.lots| ensures !Owns(f', q, i) {
      assert LotBooked(f, i);
      assert f'.jobs[q].carriers[0] == CarrierOf(lot);
    }
  }

  // ----- which lot a critical section moves -----

  lemma FindAt(lots: Lots, i: nat)
    requires i < |lots| && forall j, k :: 0 <= j < k < |lots| ==> lots[j].id != lots[k].id
    ensures FindLot(lots, lots[i].id) == Some(i)
  {
    var r := FindLot(lots, lots[i].id);
    assert r.Some?;
  }

  /** The lot at `i` is the first that is unfinished and has a registered wafer. */
  predicate FirstActive(f: Fab, i: nat) {
    && i < |f.lots| && !Finished(f.lots[i]) && HasKnownWafer(f.wafers, f.lots[i])
    && forall j :: 0 <= j < i ==> Finished(f.lots[j]) || !HasKnownWafer(f.wafers, f.lots[j])
  }

  lemma {:induction false} ActiveIsFirst(lots: Lots, wafers: Wafers, i: nat)
    requires i < |lots| && !Finished(lots[i]) && HasKnownWafer(wafers, lots[i])
    requires forall j :: 0 <= j < i ==> Finished(lots[j]) || !HasKnownWafer(wafers, lots[j])
    ensures ActiveLot(lots, wafers) == Some(lots[i].id)
    decreases i
  {
    if i > 0 {
      assert forall j :: 0 <= j < i - 1 ==> lots[1..][j] == lots[j + 1];
      ActiveIsFirst(lots[1..], wafers, i - 1);
    }
  }

  lemma ActiveExists(lots: Lots, wafers: Wafers) returns (i: nat)
    requires ActiveLot(lots, wafers).Some?
    ensures i < |lots| && !Finished(lots[i]) && HasKnownWafer(wafers, lots[i])
    ensures forall j :: 0 <= j < i ==> Finished(lots[j]) || !HasKnownWafer(wafers, lots[j])
  {
    i := 0;
    while Finished(lots[i]) || !HasKnownWafer(wafers, lots[i])
      invariant i < |lots|
      invariant forall j :: 0 <= j < i ==> Finished(lots[j]) || !HasKnownWafer(wafers, lots[j])
      decreases |lots| - i
    {
      i := i + 1;
    }
  }

  function MovedTo(lots: Lots, i: nat, to: LotState): Lots
    requires i < |lots|
  {
    match MoveLot(lots[i], to)
    case None => lots
    case Some(moved) => lots[i := moved.state]
  }

  lemma ActiveMoveAt(f: Fab, to: LotState, i: nat)
    requires Books(f) && FirstActive(f, i)
    ensures LotsAfterActive(f, to) == MovedTo(f.lots, i, to)
  {
    ActiveIsFirst(f.lots, f.wafers, i);
    FindAt(f.lots, i);
    MoveActiveLotFrame(f, to, "");
  }

  lemma HoldMoveAt(f: Fab, pj: Id, i: nat)
    requires Books(f) && Owns(f, pj, i) && f.lots[i].wafers != []
    ensures HoldLot(f.lots, f.wafers, f.jobs[pj]) == MovedTo(f.lots, i, OnHold)
  {
    FindAt(f.lots, i);
    assert LotBooked(f, i);
    assert f.lots[i].wafers[0] in f.lots[i].wafers;
  }

  /** The one unfinished lot, if it has a wafer, is the active one. */
  lemma SingleIsActive(f: Fab, i: nat)
    requires Books(f) && Single(f) && i < |f.lots| && !Finished(f.lots[i])
    ensures FirstActive(f, i) && f.lots[i].wafers != []
  {
    assert LotBooked(f, i);
    assert f.lots[i].wafers[0] in f.lots[i].wafers;
    assert HasKnownWafer(f.wafers, f.lots[i]);
  }

  // ----- a job and its lot move together -----

  lemma OwnersDiffer(f: Fab, p: Id, q: Id, i: nat, j: nat)
    requires Books(f) && Owns(f, p, i) && Owns(f, q, j) && p != q
    ensures i != j
  {
  }

  lemma MovedLotIsThere(lots: Lots, i: nat, to: LotState)
    requires i < |lots| && MoveLot(lots[i], to).Some?
    ensures MovedTo(lots, i, to)[i].state == to
  {
  }

  /** One job's state and its lot's state change to a new agreeing pair. */
  lemma PairMoves(f: Fab, f': Fab, pj: Id, i: nat, to: JobState, lotTo: LotState)
    requires Books(f) && Paired(f) && Owns(f, pj, i)
    requires MoveLot(f.lots[i], lotTo).Some? && f'.lots == MovedTo(f.lots, i, lotTo)
    requires f'.jobs == WithJobState(f.jobs, pj, to) && Agree(to, lotTo)
    requires forall q, j: nat :: Owns(f', q, j) == Owns(f, q, j)
    ensures Paired(f')
  {
    hide MoveLot, Books;
    forall q, j: nat | Owns(f', q, j) ensures q in f'.jobs && j < |f'.lots| && Agree(f'.jobs[q].state, f'.lots[j].state) {
      assert Owns(f, q, j);
      if q == pj {
        OwnsOne(f, pj, i, j);
        MovedLotIsThere(f.lots, i, lotTo);
      } else {
        OwnersDiffer(f, pj, q, i, j);
      }
    }
  }

  /** The lot at `i` ends in `to` after a move of the active lot exactly when it is the active lot. */
  lemma ActiveMoveReaches(f: Fab, i: nat, to: LotState)
    requires Books(f) && i < |f.lots| && !Finished(f.lots[i]) && f.lots[i].state != to && LotEventOf(f.lots[i].state, to).Some?
    ensures |LotsAfterActive(f, to)| == |f.lots|
    ensures LotsAfterActive(f, to)[i].state == to <==> FirstActive(f, i)
  {
    hide HistoryExplains, HasKnownWafer;
    MoveActiveLotFrame(f, to, "");
    if FirstActive(f, i) {
      ActiveMoveAt(f, to, i);
    } else if ActiveLot(f.lots, f.wafers).Some? {
      var k := ActiveExists(f.lots, f.wafers);
      ActiveMoveAt(f, to, k);
      assert k != i;
    }
  }

  /** `lot_of_via` ignores the job it is asked about. Starting a job whose lot is queued brings that
      very lot into processing exactly when it is the first unfinished lot with a registered wafer. */
  lemma LaunchPairsExactly(f: Fab, pj: Id, i: nat)
    requires Books(f) && Owns(f, pj, i) && LaunchesJob(f, pj) && f.lots[i].state == InQueue
    ensures var f' := PhaseOne(f, pj).fab;
            Owns(f', pj, i) && (Agree(f'.jobs[pj].state, f'.lots[i].state) <==> FirstActive(f, i))
  {
    hide PhaseOne, MayRun, Books, FirstActive, LotsAfterActive, HoldLot, HistoryExplains;
    PhaseOneEffect(f, pj);
    StartingOwners(f, pj);
    ActiveMoveReaches(f, i, InProcessing);
  }

  function EndState(failed: bool): JobState {
    if failed then Aborted else Completed
  }

  function LotEndState(failed: bool): LotState {
    if failed then OnHold else LotCompleted
  }

  /** Phase 3 ends an executing job and moves the active lot; a job at rest that phase 1 has decided
      about and that is not executing is left alone. */
  lemma PhaseThreeOnExecuting(f: Fab, pj: Id, failed: bool)
    requires pj in f.registry && Begun(f, pj) && AtRest(f.jobs[pj].state)
    ensures var f' := PhaseThree(f, pj, failed).fab;
            if f.jobs[pj].state == Executing
            then f'.jobs == WithJobState(f.jobs, pj, EndState(failed)) && f'.lots == LotsAfterActive(f, LotEndState(failed))
            else f'.jobs == f.jobs && f'.lots == f.lots
  {
    PhaseThreeEffect(f, pj, failed);
    hide PhaseThree, LotsAfterActive;
  }

  /** The same for finishing: the lot of an executing job completes, or goes on hold after a refusal,
      with its job exactly when it is the first unfinished lot with a registered wafer. */
  lemma FinishPairsExactly(f: Fab, pj: Id, i: nat, failed: bool)
    requires Books(f) && Owns(f, pj, i) && pj in f.registry
    requires f.jobs[pj].state == Executing && f.lots[i].state == InProcessing
    ensures var f' := PhaseThree(f, pj, failed).fab;
            Owns(f', pj, i) && (Agree(f'.jobs[pj].state, f'.lots[i].state) <==> FirstActive(f, i))
  {
    hide PhaseThree, Books, FirstActive, LotsAfterActive;
    PhaseThreeOnExecuting(f, pj, failed);
    FinishingOwners(f, pj, failed);
    ActiveMoveReaches(f, i, LotEndState(failed));
  }

  // ----- every step -----

  /** Jobs and lots are as they were, and wafers belong where they belonged. */
  predicate SameBooks(f: Fab, f': Fab) {
    && f'.lots == f.lots && f'.registry == f.registry && f'.jobs == f.jobs
    && forall w :: w in f.wafers ==> w in f'.wafers && f'.wafers[w].lot == f.wafers[w].lot
  }

  lemma SameBooksKeep(f: Fab, f': Fab)
    requires Books(f) && SameBooks(f, f')
    ensures Books(f') && (Paired(f) ==> Paired(f'))
  {
    assert OneLotMoves(f.lots, f'.lots, 0);
    MovesKeepBooks(f, f');
  }

  lemma QuietAdvance(s: System, c: nat, accepts: bool)
    requires c in s.connections && Running(s.connections[c].pc)
    requires !s.connections[c].pc.Starting? && !s.connections[c].pc.Finishing?
    ensures SameBooks(s.fab, Next(s, Advance(c, accepts)).fab)
  {
    hide PhaseOne, PhaseThree, MoveWafer, Gem.MakeAlarm;
    var pc := s.connections[c].pc;
    if WellPlaced(pc) && (pc.Entering? || pc.Leaving?) {
      MoveWaferEffect(s.fab, pc.wafers[pc.k], if pc.Entering? then LITHO else Fixed);
    }
  }

  lemma StartingBooks(f: Fab, pj: Id)
    requires Books(f)
    ensures Books(PhaseOne(f, pj).fab)
  {
    PhaseOneEffect(f, pj);
    hide PhaseOne, MayRun, LotsAfterActive, HoldLot;
    if LaunchesJob(f, pj) {
      ActiveMovesSome(f, InProcessing);
    } else if RefusesJob(f, pj) {
      HoldMovesSome(f, f.jobs[pj]);
    } else {
      assert OneLotMoves(f.lots, f.lots, 0);
    }
    hide OneLotMoves;
    MovesKeepBooks(f, PhaseOne(f, pj).fab);
  }

  lemma FinishingBooks(f: Fab, pj: Id, failed: bool)
    requires Books(f)
    ensures Books(PhaseThree(f, pj, failed).fab)
  {
    PhaseThreeEffect(f, pj, failed);
    hide PhaseThree, LotsAfterActive;
    assert OneLotMoves(f.lots, f.lots, 0);
    ActiveMovesSome(f, if failed then OnHold else LotCompleted);
    hide OneLotMoves;
    MovesKeepBooks(f, PhaseThree(f, pj, failed).fab);
  }

  lemma NextKeepsBooks(s: System, a: Step)
    requires Sound(s) && Books(s.fab)
    ensures Books(Next(s, a).fab)
  {
    var f := s.fab;
    hide RunnersSound, WafersSound, PhaseOne, PhaseThree, Books;
    match a
    case Connect(_) =>
    case Stop(_, _) =>
    case StageLot(lot, ws, pj, recipe) =>
      StageEffectOnLots(f, lot, ws, pj, recipe);
      StageKeepsBooks(f, Next(s, a).fab, lot, ws, pj, recipe);
    case Deliver(_, m) =>
      ServeFloor(f, m);
      SameBooksKeep(f, Next(s, a).fab);
    case Advance(c, accepts) =>
      if c in s.connections && Running(s.connections[c].pc) {
        match s.connections[c].pc
        case Starting(pj) => StartingBooks(f, pj);
        case Finishing(pj, failed) => FinishingBooks(f, pj, failed);
        case _ =>
          QuietAdvance(s, c, accepts);
          SameBooksKeep(f, Next(s, a).fab);
      }
  }

  lemma OwnLot(f: Fab, pj: Id) returns (i: nat)
    requires Books(f) && Paired(f) && pj in f.jobs
    ensures Owns(f, pj, i) && i < |f.lots| && Agree(f.jobs[pj].state, f.lots[i].state)
  {
    i :| Owns(f, pj, i);
  }

  /** Phase 1 in three cases, for a job at rest. */
  lemma PhaseOneCases(f: Fab, pj: Id)
    ensures var f' := PhaseOne(f, pj).fab;
            || (pj in f.jobs && f.jobs[pj].state == Queued
                && f'.jobs == WithJobState(f.jobs, pj, Executing) && f'.lots == LotsAfterActive(f, InProcessing))
            || (pj in f.jobs && !Terminal(f.jobs[pj].state)
                && f'.jobs == WithJobState(f.jobs, pj, Aborted) && f'.lots == HoldLot(f.lots, f.wafers, f.jobs[pj]))
            || (f'.jobs == f.jobs && f'.lots == f.lots)
  {
    PhaseOneEffect(f, pj);
    hide PhaseOne, MayRun, LotsAfterActive, HoldLot, WithJobState;
  }

  lemma StartingPairs(f: Fab, pj: Id)
    requires JobsSound(f) && Books(f) && Paired(f) && Single(f)
    ensures Paired(PhaseOne(f, pj).fab)
  {
    hide PhaseOne, LotsAfterActive, HoldLot, Books, Paired, Single, Owns, WithJobState;
    var f' := PhaseOne(f, pj).fab;
    StartingOwners(f, pj);
    PhaseOneCases(f, pj);
    if f'.jobs == f.jobs && f'.lots == f.lots {
      SamePairs(f, f');
      return;
    }
    assert AtRest(f.jobs[pj].state);
    hide JobsSound;
    var i := OwnLot(f, pj);
    SingleIsActive(f, i);
    ActiveMoveAt(f, InProcessing, i);
    HoldMoveAt(f, pj, i);
    if f'.jobs == WithJobState(f.jobs, pj, Executing) && f'.lots == LotsAfterActive(f, InProcessing) && f.jobs[pj].state == Queued {
      PairMoves(f, f', pj, i, Executing, InProcessing);
    } else {
      PairMoves(f, f', pj, i, Aborted, OnHold);
    }
  }

  lemma StartingOwners(f: Fab, pj: Id)
    requires Books(f)
    ensures forall q, j: nat :: Owns(PhaseOne(f, pj).fab, q, j) == Owns(f, q, j)
  {
    PhaseOneEffect(f, pj);
    hide PhaseOne, MayRun, LotsAfterActive, HoldLot;
    if LaunchesJob(f, pj) {
      ActiveMovesSome(f, InProcessing);
    } else if RefusesJob(f, pj) {
      HoldMovesSome(f, f.jobs[pj]);
    } else {
      assert OneLotMoves(f.lots, f.lots, 0);
    }
    hide OneLotMoves;
    MovesKeepBooks(f, PhaseOne(f, pj).fab);
  }

  lemma FinishingOwners(f: Fab, pj: Id, failed: bool)
    requires Books(f)
    ensures forall q, j: nat :: Owns(PhaseThree(f, pj, failed).fab, q, j) == Owns(f, q, j)
  {
    PhaseThreeEffect(f, pj, failed);
    hide PhaseThree, LotsAfterActive;
    assert OneLotMoves(f.lots, f.lots, 0);
    ActiveMovesSome(f, if failed then OnHold else LotCompleted);
    hide OneLotMoves;
    MovesKeepBooks(f, PhaseThree(f, pj, failed).fab);
  }

  lemma FinishingPairs(f: Fab, pj: Id, failed: bool)
    requires JobsSound(f) && Books(f) && Paired(f) && Single(f) && Begun(f, pj)
    ensures Paired(PhaseThree(f, pj, failed).fab)
  {
    hide PhaseThree, LotsAfterActive, Books, Paired, Single, Owns, WithJobState;
    var f' := PhaseThree(f, pj, failed).fab;
    PhaseThreeOnExecuting(f, pj, failed);
    FinishingOwners(f, pj, failed);
    hide JobsSound;
    if f.jobs[pj].state == Executing {
      var i := OwnLot(f, pj);
      SingleIsActive(f, i);
      ActiveMoveAt(f, LotEndState(failed), i);
      PairMoves(f, f', pj, i, EndState(failed), LotEndState(failed));
    } else {
      SamePairs(f, f');
    }
  }

  lemma SamePairs(f: Fab, f': Fab)
    requires Paired(f) && f'.jobs == f.jobs && f'.lots == f.lots
    ensures Paired(f')
  {
    assert forall q, j: nat :: Owns(f', q, j) == Owns(f, q, j);
  }

  lemma NextKeepsPairs(s: System, a: Step)
    requires Sound(s) && Books(s.fab) && Paired(s.fab) && Single(s.fab)
    ensures Paired(Next(s, a).fab)
  {
    var f := s.fab;
    hide WafersSound, PhaseOne, PhaseThree, Books, JobsSound, Single, Paired;
    match a
    case Connect(_) =>
    case Stop(_, _) =>
    case StageLot(lot, ws, pj, recipe) =>
      StageEffectOnLots(f, lot, ws, pj, recipe);
      StageKeepsPairs(f, Next(s, a).fab, lot, ws, pj, recipe);
    case Deliver(_, m) =>
      ServeFloor(f, m);
      SameBooksKeep(f, Next(s, a).fab);
    case Advance(c, accepts) =>
      if c in s.connections && Running(s.connections[c].pc) {
        match s.connections[c].pc
        case Starting(pj) => StartingPairs(f, pj);
        case Finishing(pj, failed) =>
          assert InvolvedAt(s, c, pj);
          FinishingPairs(f, pj, failed);
        case _ =>
          QuietAdvance(s, c, accepts);
          SameBooksKeep(f, Next(s, a).fab);
      }
  }

  // ----- every run -----

  /** Every state a step is taken from has at most one unfinished lot, with a wafer. */
  ghost predicate SingleThroughout(s: System, steps: seq<Step>)
    decreases steps
  {
    steps != [] ==> Single(s.fab) && SingleThroughout(Next(s, steps[0]), steps[1..])
  }

  lemma {:induction false} RunKeepsBooks(s: System, steps: seq<Step>)
    requires Sound(s) && Books(s.fab)
    ensures Books(Run(s, steps).fab)
    ensures Paired(s.fab) && SingleThroughout(s, steps) ==> Paired(Run(s, steps).fab)
    decreases steps
  {
    hide Sound, Books, Paired, Single;
    if steps != [] {
      NextSound(s, steps[0]);
      NextKeepsBooks(s, steps[0]);
      if Paired(s.fab) && Single(s.fab) {
        NextKeepsPairs(s, steps[0]);
      }
      RunKeepsBooks(Next(s, steps[0]), steps[1..]);
    }
  }

  lemma Reachable(device: u16, mdln: string, softrev: string, steps: seq<Step>)
    ensures var s0 := Initial(device, mdln, softrev);
            var s := Run(s0, steps);
            Sound(s) && Books(s.fab) && (SingleThroughout(s0, steps) ==> Paired(s.fab))
  {
    var s0 := Initial(device, mdln, softrev);
    BootSound(device, mdln, softrev);
    assert Books(s0.fab) && Paired(s0.fab);
    hide Books, Paired, Sound, Initial;
    RunSound(s0, steps);
    RunKeepsBooks(s0, steps);
  }

  /** Whatever the schedule, every lot's history is an unbroken chain of legal moves from its creation
      to its present state, and every job has exactly one lot with the same wafers. */
  lemma EveryLotExplained(device: u16, mdln: string, softrev: string, steps: seq<Step>)
    ensures var f := Run(Initial(device, mdln, softrev), steps).fab;
            && (forall i :: 0 <= i < |f.lots| ==> HistoryExplains(f.lots[i]))
            && (forall pj :: pj in f.jobs ==> exists i: nat :: Owns(f, pj, i))
            && (forall pj, i: nat, j: nat :: Owns(f, pj, i) && Owns(f, pj, j) ==> i == j)
  {
    Reachable(device, mdln, softrev, steps);
    var f := Run(Initial(device, mdln, softrev), steps).fab;
    hide Run, Initial, Sound, HistoryExplains;
    forall i | 0 <= i < |f.lots| ensures HistoryExplains(f.lots[i]) {
      assert LotBooked(f, i);
    }
    forall pj, i: nat, j: nat | Owns(f, pj, i) && Owns(f, pj, j) ensures i == j {
      OwnsOne(f, pj, i, j);
    }
  }

  /** As long as at most one lot is ever unfinished and it has a wafer, a job and its lot are always
      Queued with InQueue, Executing with InProcessing, Completed with Completed, or Aborted with
      OnHold, in every schedule, even when a second START aborts a job whose runner is still going. */
  lemma JobsAndLotsAgree(device: u16, mdln: string, softrev: string, steps: seq<Step>, pj: Id, i: nat)
    requires SingleThroughout(Initial(device, mdln, softrev), steps)
    ensures var f := Run(Initial(device, mdln, softrev), steps).fab;
            Owns(f, pj, i) ==> Agree(f.jobs[pj].state, f.lots[i].state)
  {
    Reachable(device, mdln, softrev, steps);
    hide Run, Initial, Sound, Books;
  }
}
