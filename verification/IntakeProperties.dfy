/** Stopping and restarting the intake loses nothing exactly when every file was either unreadable or
    screened with finite metrics. */
module IntakeProperties {
  import opened Basics
  import opened Floats
  import opened Json
  import opened JsonProperties
  import opened Outcome
  import opened OutcomeProperties
  import opened Anomaly
  import opened Ledger
  import opened ReportMetrics
  import opened Intake
  import opened Schema
  import opened Signing
  import Utf8

  /** The ledger's history is the detector's. */
  predicate InStep(q: Queue) {
    && q.ledger.yieldRates == AsF64(q.history.yieldRates)
    && q.ledger.geometry == AsF64(q.history.geometry)
    && q.ledger.electrical == AsF64(q.history.electrical)
  }

  predicate FiniteMetrics(m: Metrics) {
    && m.yieldRate.Finite?
    && (m.geometry.Some? ==> m.geometry.value.Finite?)
    && (m.electrical.Some? ==> m.electrical.value.Finite?)
  }

  /** Not a report the reader takes at all; or one that is screened, with finite metrics. What is not clean is
      a report that is read and then rejected, or one whose metrics overflow. */
  predicate Clean(fl: Floating, cfg: Config, f: File) {
    match ReadVerified(fl, cfg, f.content)
    case None => true
    case Some(r) => Screenable(r) && FiniteMetrics(MetricsOf(fl, r))
  }

  predicate AllClean(fl: Floating, cfg: Config, files: seq<File>) {
    forall i :: 0 <= i < |files| ==> Clean(fl, cfg, files[i])
  }

  // ----- one file -----

  lemma AsF64Concat(values: seq<real>, v: F64)
    requires v.Finite?
    ensures AsF64(Observe(values, v)) == AsF64(values) + [v]
  {
  }

  /** How many more values the ledger holds than the detector. */
  function Lag(q: Queue): int {
    |q.ledger.yieldRates| + |q.ledger.geometry| + |q.ledger.electrical|
    - |q.history.yieldRates| - |q.history.geometry| - |q.history.electrical|
  }

  /** A clean file adds the same values to both; any other adds more to the ledger. */
  lemma OneFile(fl: Floating, cfg: Config, q: Queue, f: File)
    ensures Clean(fl, cfg, f) ==> Lag(Process(fl, cfg, q, f)) == Lag(q)
    ensures !Clean(fl, cfg, f) ==> Lag(Process(fl, cfg, q, f)) > Lag(q)
    ensures Clean(fl, cfg, f) && InStep(q) ==> InStep(Process(fl, cfg, q, f))
  {
    hide ReadVerified, Findings, RecordOf, MetricsOf, AsF64;
    var read := ReadVerified(fl, cfg, f.content);
    if read.Some? {
      var m := MetricsOf(fl, read.value);
      if Screenable(read.value) && FiniteMetrics(m) {
        AsF64Concat(q.history.yieldRates, m.yieldRate);
        if m.geometry.Some? {
          AsF64Concat(q.history.geometry, m.geometry.value);
        } else {
          assert q.ledger.geometry + [] == q.ledger.geometry;
        }
        if m.electrical.Some? {
          AsF64Concat(q.history.electrical, m.electrical.value);
        } else {
          assert q.ledger.electrical + [] == q.ledger.electrical;
        }
      }
    }
  }

  // ----- a run -----

  lemma {:induction false} RunLag(fl: Floating, cfg: Config, q: Queue, files: seq<File>)
    ensures AllClean(fl, cfg, files) ==> Lag(ProcessAll(fl, cfg, q, files)) == Lag(q)
    ensures !AllClean(fl, cfg, files) ==> Lag(ProcessAll(fl, cfg, q, files)) > Lag(q)
    ensures AllClean(fl, cfg, files) && InStep(q) ==> InStep(ProcessAll(fl, cfg, q, files))
    decreases files
  {
    hide Process, Clean, Lag, InStep;
    if files != [] {
      OneFile(fl, cfg, q, files[0]);
      RunLag(fl, cfg, Process(fl, cfg, q, files[0]), files[1..]);
      assert AllClean(fl, cfg, files) <==> Clean(fl, cfg, files[0]) && AllClean(fl, cfg, files[1..]) by {
        assert forall i :: 0 < i < |files| ==> files[i] == files[1..][i - 1];
      }
    }
  }

  lemma InStepHasNoLag(q: Queue)
    requires InStep(q)
    ensures Lag(q) == 0
  {
  }

  /** From a state in which detector and ledger agree, they agree after a run if and only if every file of
      the run was clean: a single report that parses and is then rejected separates them for good. */
  lemma HistoriesAgreeExactlyWhenClean(fl: Floating, cfg: Config, q: Queue, files: seq<File>)
    requires InStep(q)
    ensures InStep(ProcessAll(fl, cfg, q, files)) <==> AllClean(fl, cfg, files)
  {
    RunLag(fl, cfg, q, files);
    InStepHasNoLag(q);
    if InStep(ProcessAll(fl, cfg, q, files)) {
      InStepHasNoLag(ProcessAll(fl, cfg, q, files));
    }
  }

  // ----- restarting -----

  lemma {:induction false} ReplayIsAll(before: seq<real>, vs: seq<F64>)
    requires AllFinite(vs)
    ensures AsF64(ObserveAll(before, vs)) == AsF64(before) + vs
    decreases vs
  {
    if vs == [] {
      assert AsF64(before) + vs == AsF64(before);
    } else {
      assert forall i :: 0 <= i < |vs[1..]| ==> vs[1..][i] == vs[i + 1];
      ReplayIsAll(Observe(before, vs[0]), vs[1..]);
      AsF64Concat(before, vs[0]);
      assert AsF64(before) + [vs[0]] + vs[1..] == AsF64(before) + vs;
    }
  }

  lemma Replayed(values: seq<real>)
    ensures ObserveAll([], AsF64(values)) == values && AllFinite(AsF64(values))
  {
    ReplayRestores([], values);
    assert [] + values == values;
  }

  /** A restart brings back the very same state if and only if the ledger's history is the detector's. */
  lemma RestartIsExactWhenInStep(fl: Floating, q: Queue)
    requires Lawful(fl) && LedgerTyped(fl, q.ledger) && TimesSurvive(fl, q.ledger)
    ensures Restart(fl, q) == Some(q) <==> InStep(q)
  {
    LedgerSurvivesExactlyWhenFinite(fl, q.ledger);
    hide Lawful, LedgerText, LoadLedger, LedgerTyped, TimesSurvive, AllFinite;
    Replayed(q.history.yieldRates);
    Replayed(q.history.geometry);
    Replayed(q.history.electrical);
    if Restart(fl, q) == Some(q) {
      ReplayIsAll([], q.ledger.yieldRates);
      ReplayIsAll([], q.ledger.geometry);
      ReplayIsAll([], q.ledger.electrical);
      assert AsF64([]) == [];
      hide AsF64;
      assert [] + q.ledger.yieldRates == q.ledger.yieldRates && [] + q.ledger.geometry == q.ledger.geometry
             && [] + q.ledger.electrical == q.ledger.electrical;
    }
  }

  /** Time stamps up to 2^53 seconds. */
  ghost predicate ClockHolds(cfg: Config) {
    forall n: nat :: cfg.clock(n) <= EXACT
  }

  ghost predicate Persistable(fl: Floating, q: Queue) {
    LedgerTyped(fl, q.ledger) && TimesSurvive(fl, q.ledger)
  }

  lemma TypedAppend(fl: Floating, xs: seq<F64>, x: F64)
    requires AllF64(fl, xs) && IsF64(fl, x)
    ensures AllF64(fl, xs + [x])
  {
    hide IsF64;
  }

  lemma ObservedTyped(fl: Floating, l: Ledger, r: Report)
    requires Lawful(fl) && LedgerTyped(fl, l)
    ensures LedgerTyped(fl, ObserveMetrics(l, MetricsOf(fl, r)))
    ensures ObserveMetrics(l, MetricsOf(fl, r)).decisions == l.decisions
  {
    MetricsTyped(fl, r);
    hide Lawful, MetricsOf, AllF64, IsF64;
    var m := MetricsOf(fl, r);
    TypedAppend(fl, l.yieldRates, m.yieldRate);
    if m.geometry.Some? {
      TypedAppend(fl, l.geometry, m.geometry.value);
    } else {
      assert l.geometry + [] == l.geometry;
    }
    if m.electrical.Some? {
      TypedAppend(fl, l.electrical, m.electrical.value);
    } else {
      assert l.electrical + [] == l.electrical;
    }
  }

  lemma AppendedTimes(fl: Floating, l: Ledger, d: Record)
    requires Lawful(fl) && TimesSurvive(fl, l) && d.at <= EXACT
    ensures TimesSurvive(fl, l.(decisions := l.decisions + [d]))
  {
    SmallCountsSurvive(fl, d.at);
    hide Lawful, CountSurvives, IsDouble, FromU64;
  }

  lemma ProcessKeepsPersistable(fl: Floating, cfg: Config, q: Queue, f: File)
    requires Lawful(fl) && ClockHolds(cfg) && Persistable(fl, q)
    ensures Persistable(fl, Process(fl, cfg, q, f))
  {
    var d := Decide(fl, cfg, q.history, f.content);
    var n := |q.ledger.decisions|;
    assert cfg.clock(n) <= EXACT;
    var r := RecordOf(cfg, f.name, d, n);
    hide Decide, MetricsOf, Lawful, AllF64, HistoryAfter, TimesSurvive, ClockHolds, ObserveMetrics;
    AppendedTimes(fl, q.ledger, r);
    var recorded := q.ledger.(decisions := q.ledger.decisions + [r]);
    if d.report.Some? {
      ObservedTyped(fl, recorded, d.report.value);
      SameTimes(fl, recorded, ObserveMetrics(recorded, MetricsOf(fl, d.report.value)));
    }
  }

  lemma SameTimes(fl: Floating, l: Ledger, l': Ledger)
    requires TimesSurvive(fl, l) && l'.decisions == l.decisions
    ensures TimesSurvive(fl, l')
  {
  }

  lemma {:induction false} RunKeepsPersistable(fl: Floating, cfg: Config, q: Queue, files: seq<File>)
    requires Lawful(fl) && ClockHolds(cfg) && Persistable(fl, q)
    ensures Persistable(fl, ProcessAll(fl, cfg, q, files))
    decreases files
  {
    hide Lawful, Persistable, Process, ClockHolds;
    if files != [] {
      ProcessKeepsPersistable(fl, cfg, q, files[0]);
      RunKeepsPersistable(fl, cfg, Process(fl, cfg, q, files[0]), files[1..]);
    }
  }

  // ----- splitting a run -----

  /** Each batch in a process of its own, with only the ledger file in between. */
  function RunBatches(fl: Floating, cfg: Config, q: Queue, batches: seq<seq<File>>): Option<Queue>
    decreases batches
  {
    if batches == [] then Some(q) else
    match Restart(fl, ProcessAll(fl, cfg, q, batches[0]))
    case None => None
    case Some(q') => RunBatches(fl, cfg, q', batches[1..])
  }

  function BatchDecisions(fl: Floating, cfg: Config, q: Queue, batches: seq<seq<File>>): Option<seq<Decision>>
    decreases batches
  {
    if batches == [] then Some([]) else
    match Restart(fl, ProcessAll(fl, cfg, q, batches[0]))
    case None => None
    case Some(q') =>
      match BatchDecisions(fl, cfg, q', batches[1..])
      case None => None
      case Some(later) => Some(Decisions(fl, cfg, q, batches[0]) + later)
  }

  lemma {:induction false} ProcessConcat(fl: Floating, cfg: Config, q: Queue, a: seq<File>, b: seq<File>)
    ensures ProcessAll(fl, cfg, q, a + b) == ProcessAll(fl, cfg, ProcessAll(fl, cfg, q, a), b)
    ensures Decisions(fl, cfg, q, a + b) == Decisions(fl, cfg, q, a) + Decisions(fl, cfg, ProcessAll(fl, cfg, q, a), b)
    decreases a
  {
    hide Process, Decide;
    if a == [] {
      assert a + b == b;
    } else {
      assert (a + b)[1..] == a[1..] + b;
      ProcessConcat(fl, cfg, Process(fl, cfg, q, a[0]), a[1..], b);
    }
  }

  /** A restart between two batches is exact precisely when the first batch was clean. */
  lemma RestartAfterRun(fl: Floating, cfg: Config, q: Queue, files: seq<File>)
    requires Lawful(fl) && ClockHolds(cfg) && Persistable(fl, q) && InStep(q)
    ensures var q' := ProcessAll(fl, cfg, q, files); Restart(fl, q') == Some(q') <==> AllClean(fl, cfg, files)
  {
    HistoriesAgreeExactlyWhenClean(fl, cfg, q, files);
    RunKeepsPersistable(fl, cfg, q, files);
    RestartIsExactWhenInStep(fl, ProcessAll(fl, cfg, q, files));
  }

  /** Deliveries of clean files may be split into runs at any points: the same decisions, the same history
      and the same ledger as in one uninterrupted run. */
  lemma {:induction false} SplitRunsAgree(fl: Floating, cfg: Config, q: Queue, batches: seq<seq<File>>)
    requires Lawful(fl) && ClockHolds(cfg) && Persistable(fl, q) && InStep(q)
    requires forall i :: 0 <= i < |batches| ==> AllClean(fl, cfg, batches[i])
    ensures RunBatches(fl, cfg, q, batches) == Some(ProcessAll(fl, cfg, q, Flatten(batches)))
    ensures BatchDecisions(fl, cfg, q, batches) == Some(Decisions(fl, cfg, q, Flatten(batches)))
    decreases batches
  {
    hide Lawful, ClockHolds, Persistable, InStep, AllClean, ProcessAll, Decisions, Restart;
    if batches == [] {
      NothingProcessed(fl, cfg, q);
    } else {
      var q' := ProcessAll(fl, cfg, q, batches[0]);
      RestartAfterRun(fl, cfg, q, batches[0]);
      HistoriesAgreeExactlyWhenClean(fl, cfg, q, batches[0]);
      RunKeepsPersistable(fl, cfg, q, batches[0]);
      SplitRunsAgree(fl, cfg, q', batches[1..]);
      ProcessConcat(fl, cfg, q, batches[0], Flatten(batches[1..]));
    }
  }

  lemma NothingProcessed(fl: Floating, cfg: Config, q: Queue)
    ensures ProcessAll(fl, cfg, q, []) == q && Decisions(fl, cfg, q, []) == []
  {
  }

  /** A first run starts in step. */
  lemma FreshQueueIsInStep(fl: Floating)
    ensures InStep(Queue(NO_HISTORY, EMPTY)) && Persistable(fl, Queue(NO_HISTORY, EMPTY))
  {
  }

  // ----- deliveries -----

  /** The reader checks the version twice; the second time changes nothing. So what it takes from a text is
      what the text says, if the signature is good. */
  lemma VerifiedReadIsRead(fl: Floating, cfg: Config, text: string)
    ensures ReadVerified(fl, cfg, Utf8.Encode(text)) ==
              match ReadReport(fl, text)
              case None => None
              case Some(r) => if Verify(fl, r, cfg.keyOf, cfg.policy) == Valid then Some(r) else None
  {
    hide Parse, Verify, Utf8.Encode, Utf8.Lossy, Utf8.IllFormed, FromCurrent, EnsureCurrent;
    Utf8.LossyOfEncode(text);
    Utf8.EncodedIsWellFormed(text);
    var parsed := Parse(fl, text);
    if parsed.Some? && EnsureCurrent(parsed.value).Some? {
      EnsureCurrentSettles(parsed.value);
    }
  }

  /** A signed, storable, screenable report is never rejected: it is accepted or flagged, and the decision
      carries the report exactly as it was signed. */
  lemma SignedDeliveryIsScreened(fl: Floating, cfg: Config, h: History, r: Report, keyId: string, key: bytes)
    requires Lawful(fl) && NumbersTyped(fl, r) && Storable(fl, r) && Screenable(r) && cfg.keyOf(keyId) == Some(key)
    ensures var signed := Signed(fl, r, keyId, key);
            var d := Decide(fl, cfg, h, Utf8.Encode(WriteReport(fl, signed)));
            d.report == Some(signed) && d.disposition != Rejected
            && (d.disposition == Flagged <==> Findings(h, MetricsOf(fl, signed), cfg.threshold, cfg.minHistory) != [])
  {
    hide Lawful, NumbersTyped, Storable, WriteReport, ReadReport, Verify, ReadVerified, Findings, MetricsOf, MacOf, Hmac.Hex;
    var signed := Signed(fl, r, keyId, key);
    assert Screenable(signed);
    hide Signed, Screenable;
    SignedReportVerifies(fl, r, keyId, key, cfg.keyOf, cfg.policy);
    VerifiedReadIsRead(fl, cfg, WriteReport(fl, signed));
  }

  /** A report whose sender consents to no sharing. */
  const PRIVATE_REPORT := Report("m-1", Pcb, [], [], Yield(1, 1, None), [], NoSharing, CURRENT, None)

  /** Delivering it unsigned, where that is allowed, gets it rejected, and from then on a restart would screen
      against a history the running process does not have. */
  lemma RejectedReportSeparatesHistories(fl: Floating, cfg: Config, q: Queue, name: string)
    requires Lawful(fl) && cfg.policy == AcceptUnsigned && InStep(q)
    ensures var f := File(name, Utf8.Encode(WriteReport(fl, PRIVATE_REPORT)));
            Decide(fl, cfg, q.history, f.content).disposition == Rejected && !InStep(Process(fl, cfg, q, f))
  {
    var f := File(name, Utf8.Encode(WriteReport(fl, PRIVATE_REPORT)));
    OrdinaryReportsAreStorable(fl, PRIVATE_REPORT);
    ReportRoundTripsExactlyWhenStorable(fl, PRIVATE_REPORT);
    hide Lawful, WriteReport, ReadReport, ReadVerified, Findings, MetricsOf, Storable, InStep, Process, Lag;
    VerifiedReadIsRead(fl, cfg, WriteReport(fl, PRIVATE_REPORT));
    assert ReadVerified(fl, cfg, f.content) == Some(PRIVATE_REPORT);
    OneFile(fl, cfg, q, f);
    InStepHasNoLag(q);
    if InStep(Process(fl, cfg, q, f)) {
      InStepHasNoLag(Process(fl, cfg, q, f));
    }
  }
}
