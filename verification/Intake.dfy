/** The intake queue: files verified, checked, screened and recorded, with history carried across runs. */
module Intake {
  import opened Basics
  import opened Floats
  import opened Json
  import opened Schema
  import opened Outcome
  import opened OutcomeProperties
  import opened Signing
  import opened Anomaly
  import opened Ledger
  import opened ReportMetrics
  import Decimals
  import Utf8

  /** Everything a run is configured with; the last two stand for the reason texts and the clock. */
  datatype Config = Config(
    policy: UnsignedPolicy,
    keyOf: string -> Option<bytes>,
    threshold: F64,
    minHistory: nat,
    reasonOf: Decision -> string,
    clock: nat -> u64)

  datatype Disposition = Accepted | Flagged | Rejected

  datatype Decision = Decision(disposition: Disposition, findings: seq<(string, F64)>, report: Option<Report>)

  function DirName(d: Disposition): string {
    match d
    case Accepted => "accepted"
    case Flagged => "flagged"
    case Rejected => "rejected"
  }

  // ----- one file -----

  /** `read_to_string`: bytes that are not UTF-8 are an error. */
  function ReadText(content: bytes): Option<string> {
    if Utf8.IllFormed(content) == 0 then Some(Utf8.Lossy(content)) else None
  }

  /** `read_outcome_file`: parsed, migrated, read and verified. */
  function ReadVerified(fl: Floating, cfg: Config, content: bytes): Option<Report> {
    match ReadText(content)
    case None => None
    case Some(text) =>
      match Parse(fl, text)
      case None => None
      case Some(j) =>
        match EnsureCurrent(j)
        case None => None
        case Some(current) =>
          match FromJson(current)
          case None => None
          case Some(r) => if Verify(fl, r, cfg.keyOf, cfg.policy) == Valid then Some(r) else None
  }

  /** `validate_report_basics`. */
  predicate BasicsHold(r: Report) {
    r.manifest != "" && r.outcome.good <= r.outcome.started
  }

  /** Does the report get as far as screening? */
  predicate Screenable(r: Report) {
    BasicsHold(r) && r.consent != NoSharing
  }

  /** `process_file`, against a screening history. */
  function Decide(fl: Floating, cfg: Config, h: History, content: bytes): Decision {
    match ReadVerified(fl, cfg, content)
    case None => Decision(Rejected, [], None)
    case Some(r) =>
      if !Screenable(r) then Decision(Rejected, [], Some(r)) else
      var findings := Findings(h, MetricsOf(fl, r), cfg.threshold, cfg.minHistory);
      Decision(if findings == [] then Accepted else Flagged, findings, Some(r))
  }

  function HistoryAfter(fl: Floating, cfg: Config, h: History, content: bytes): History {
    match ReadVerified(fl, cfg, content)
    case None => h
    case Some(r) => if Screenable(r) then Absorb(h, MetricsOf(fl, r)) else h
  }

  datatype File = File(name: string, content: bytes)

  function RecordOf(cfg: Config, name: string, d: Decision, n: nat): Record {
    Record(name, DirName(d.disposition), cfg.reasonOf(d), cfg.clock(n),
           if d.report.Some? then ShowConsent(d.report.value.consent) else "")
  }

  /** What `process_directory` does to the ledger for one file: the metrics of every report that parsed. */
  function LedgerAfterFile(fl: Floating, cfg: Config, l: Ledger, name: string, d: Decision): Ledger {
    var recorded := l.(decisions := l.decisions + [RecordOf(cfg, name, d, |l.decisions|)]);
    if d.report.Some? then ObserveMetrics(recorded, MetricsOf(fl, d.report.value)) else recorded
  }

  // ----- a run -----

  /** The screening history in memory and the ledger beside it. */
  datatype Queue = Queue(history: History, ledger: Ledger)

  function Process(fl: Floating, cfg: Config, q: Queue, f: File): Queue {
    Queue(HistoryAfter(fl, cfg, q.history, f.content),
          LedgerAfterFile(fl, cfg, q.ledger, f.name, Decide(fl, cfg, q.history, f.content)))
  }

  function ProcessAll(fl: Floating, cfg: Config, q: Queue, files: seq<File>): Queue
    decreases files
  {
    if files == [] then q else ProcessAll(fl, cfg, Process(fl, cfg, q, files[0]), files[1..])
  }

  function Decisions(fl: Floating, cfg: Config, q: Queue, files: seq<File>): seq<Decision>
    decreases files
  {
    if files == [] then []
    else [Decide(fl, cfg, q.history, files[0].content)] + Decisions(fl, cfg, Process(fl, cfg, q, files[0]), files[1..])
  }

  /** `from_ledger`: the history a new process starts from. */
  function ReplayedHistory(l: Ledger): History {
    History(ObserveAll([], l.yieldRates), ObserveAll([], l.geometry), ObserveAll([], l.electrical))
  }

  /** Ending the process and starting another: only the ledger's file is left in between. */
  function Restart(fl: Floating, q: Queue): Option<Queue> {
    match LoadLedger(fl, Some(LedgerText(fl, q.ledger)))
    case None => None
    case Some(l) => Some(Queue(ReplayedHistory(l), l))
  }

  // ----- in place -----

  class IntakeQueue {
    const cfg: Config
    const detector: AnomalyDetector

    constructor (cfg: Config)
      ensures this.cfg == cfg && fresh(detector)
      ensures detector.View() == NO_HISTORY && detector.threshold == cfg.threshold && detector.minHistory == cfg.minHistory
    {
      this.cfg := cfg;
      detector := new AnomalyDetector();
      new;
      detector.threshold := cfg.threshold;
      detector.minHistory := cfg.minHistory;
    }

    /** `from_ledger`. */
    constructor FromLedger(cfg: Config, l: Ledger)
      ensures this.cfg == cfg && fresh(detector)
      ensures detector.View() == ReplayedHistory(l) && detector.threshold == cfg.threshold && detector.minHistory == cfg.minHistory
    {
      this.cfg := cfg;
      detector := new AnomalyDetector();
      new;
      detector.WithHistory(l.yieldRates, l.geometry, l.electrical);
      detector.threshold := cfg.threshold;
      detector.minHistory := cfg.minHistory;
    }

    ghost predicate Configured()
      reads this, detector
    {
      detector.threshold == cfg.threshold && detector.minHistory == cfg.minHistory
    }

    /** `process_file`. */
    method ProcessFile(fl: Floating, content: bytes) returns (d: Decision)
      requires Configured()
      modifies detector
      ensures Configured() && d == Decide(fl, cfg, old(detector.View()), content)
      ensures detector.View() == HistoryAfter(fl, cfg, old(detector.View()), content)
    {
      hide ReadVerified, Findings, MetricsOf, Absorb;
      var read := ReadVerified(fl, cfg, content);
      if read.None? {
        return Decision(Rejected, [], None);
      }
      var r := read.value;
      if !BasicsHold(r) {
        return Decision(Rejected, [], Some(r));
      }
      if r.consent == NoSharing {
        return Decision(Rejected, [], Some(r));
      }
      var findings := detector.Screen(MetricsOf(fl, r));
      d := Decision(if findings == [] then Accepted else Flagged, findings, Some(r));
    }

    /** One file of `process_directory`: decide, move, record, observe. */
    method ProcessOne(fl: Floating, f: File, shelves: Shelves, ledger: IntakeLedger) returns (d: Decision)
      requires Configured()
      modifies detector, shelves, ledger
      ensures Configured() && d == Decide(fl, cfg, old(detector.View()), f.content)
      ensures Queue(detector.View(), ledger.View()) == Process(fl, cfg, Queue(old(detector.View()), old(ledger.View())), f)
      ensures shelves.Total() == old(shelves.Total()) + 1 && Keeps(old(shelves.folders), shelves.folders)
      ensures Shelved(old(shelves.folders), shelves.folders, d.disposition, f.content)
    {
      hide Decide, HistoryAfter, LedgerAfterFile, RecordOf;
      d := ProcessFile(fl, f.content);
      shelves.MoveIn(d.disposition, f.name, f.content);
      NowShelved(old(shelves.folders), old(shelves.folders), shelves.folders, d.disposition, f.content);
      ghost var l := ledger.View();
      ledger.Append(RecordOf(cfg, f.name, d, |ledger.decisions|));
      if d.report.Some? {
        ledger.Observe(MetricsOf(fl, d.report.value));
      }
      LedgerStep(fl, cfg, l, f.name, d);
    }

    /** The loop of `process_directory` over the sorted names. */
    method ProcessFiles(fl: Floating, files: seq<File>, shelves: Shelves, ledger: IntakeLedger) returns (ds: seq<Decision>)
      requires Configured()
      modifies detector, shelves, ledger
      ensures Configured()
      ensures var q := Queue(old(detector.View()), old(ledger.View()));
              && Queue(detector.View(), ledger.View()) == ProcessAll(fl, cfg, q, files)
              && ds == Decisions(fl, cfg, q, files)
      ensures |ds| == |files| && shelves.Total() == old(shelves.Total()) + |files|
      ensures Keeps(old(shelves.folders), shelves.folders)
      ensures forall i :: 0 <= i < |files| ==>
                Shelved(old(shelves.folders), shelves.folders, ds[i].disposition, files[i].content)
    {
      hide Decide, Process, Shelved;
      ds := [];
      ghost var q0 := Queue(detector.View(), ledger.View());
      ghost var folders0 := shelves.folders;
      var i := 0;
      assert files[0..] == files && [] + Decisions(fl, cfg, q0, files) == Decisions(fl, cfg, q0, files);
      while i < |files|
        invariant 0 <= i <= |files| && Configured() && |ds| == i
        invariant ProcessAll(fl, cfg, q0, files) == ProcessAll(fl, cfg, Queue(detector.View(), ledger.View()), files[i..])
        invariant Decisions(fl, cfg, q0, files) == ds + Decisions(fl, cfg, Queue(detector.View(), ledger.View()), files[i..])
        invariant shelves.Total() == old(shelves.Total()) + i && Keeps(folders0, shelves.folders)
        invariant forall j :: 0 <= j < i ==> Shelved(folders0, shelves.folders, ds[j].disposition, files[j].content)
      {
        assert files[i..][0] == files[i] && files[i..][1..] == files[i + 1..];
        ghost var q, folders := Queue(detector.View(), ledger.View()), shelves.folders;
        var d := ProcessOne(fl, files[i], shelves, ledger);
        DecisionsStep(fl, cfg, q, files[i..], ds);
        ShelvedStep(folders0, folders, shelves.folders, ds, files[..i], d, files[i]);
        ds := ds + [d];
        i := i + 1;
      }
      assert files[i..] == [] && ds + [] == ds;
    }
  }

  lemma DecisionsStep(fl: Floating, cfg: Config, q: Queue, files: seq<File>, ds: seq<Decision>)
    requires files != []
    ensures var d, q' := Decide(fl, cfg, q.history, files[0].content), Process(fl, cfg, q, files[0]);
            && ProcessAll(fl, cfg, q, files) == ProcessAll(fl, cfg, q', files[1..])
            && ds + Decisions(fl, cfg, q, files) == (ds + [d]) + Decisions(fl, cfg, q', files[1..])
  {
    hide Decide, Process;
  }

  /** Files shelved before stay shelved, and the new one joins them. */
  lemma ShelvedStep(before: Folders, mid: Folders, after: Folders, ds: seq<Decision>, files: seq<File>, d: Decision, f: File)
    requires |ds| == |files| && Keeps(before, mid) && Keeps(mid, after)
    requires forall j :: 0 <= j < |ds| ==> Shelved(before, mid, ds[j].disposition, files[j].content)
    requires Shelved(mid, after, d.disposition, f.content)
    ensures Keeps(before, after)
    ensures forall j :: 0 <= j < |ds| + 1 ==> Shelved(before, after, (ds + [d])[j].disposition, (files + [f])[j].content)
  {
    forall j | 0 <= j < |ds| ensures Shelved(before, after, ds[j].disposition, files[j].content) {
      StillShelved(before, mid, after, ds[j].disposition, files[j].content);
    }
    var name :| (d.disposition, name) in after && (d.disposition, name) !in mid && after[(d.disposition, name)] == f.content;
    assert (d.disposition, name) !in before;
  }

  lemma LedgerStep(fl: Floating, cfg: Config, l: Ledger, name: string, d: Decision)
    ensures LedgerAfterFile(fl, cfg, l, name, d) ==
              var recorded := l.(decisions := l.decisions + [RecordOf(cfg, name, d, |l.decisions|)]);
              if d.report.Some? then ObserveMetrics(recorded, MetricsOf(fl, d.report.value)) else recorded
  {
  }

  // ----- the folders -----

  type Folders = map<(Disposition, string), bytes>

  /** No file is lost or overwritten. */
  predicate Keeps(before: Folders, after: Folders) {
    forall k :: k in before ==> k in after && after[k] == before[k]
  }

  const SUFFIX := ".json"

  /** The name without its suffix, if it has it. */
  function Stem(name: string): string {
    if |name| >= |SUFFIX| && name[|name| - |SUFFIX|..] == SUFFIX then name[..|name| - |SUFFIX|] else name
  }

  /** The names tried in turn. */
  function Candidate(name: string, n: nat): string {
    if n == 0 then name else Stem(name) + "-dup" + Decimals.Print(n) + SUFFIX
  }

  lemma CandidatesDiffer(name: string, m: nat, n: nat)
    requires m < n
    ensures Candidate(name, m) != Candidate(name, n)
  {
    var stem := Stem(name);
    var c, d := Candidate(name, m), Candidate(name, n);
    assert d[|stem|..] == "-dup" + Decimals.Print(n) + SUFFIX;
    if m == 0 {
      assert |d| > |name|;
    } else if c == d {
      assert c[|stem|..] == "-dup" + Decimals.Print(m) + SUFFIX;
      var x, y := c[|stem| + 4..|c| - |SUFFIX|], d[|stem| + 4..|d| - |SUFFIX|];
      assert x == Decimals.Print(m) && y == Decimals.Print(n);
      Decimals.ValueOfPrint(m);
      Decimals.ValueOfPrint(n);
    }
  }

  function Taken(folders: Folders, d: Disposition, name: string, n: nat): set<(Disposition, string)> {
    set i | 0 <= i < n :: (d, Candidate(name, i))
  }

  /** If the first `n` candidates are all in use, there are at least `n` files. */
  lemma {:induction false} TakenAreFiles(folders: Folders, d: Disposition, name: string, n: nat)
    requires forall i :: 0 <= i < n ==> (d, Candidate(name, i)) in folders
    ensures |Taken(folders, d, name, n)| == n <= |folders|
  {
    if n > 0 {
      TakenAreFiles(folders, d, name, n - 1);
      var before, last := Taken(folders, d, name, n - 1), (d, Candidate(name, n - 1));
      assert last !in before by {
        if last in before {
          var i :| 0 <= i < n - 1 && last == (d, Candidate(name, i));
          CandidatesDiffer(name, i, n - 1);
        }
      }
      assert Taken(folders, d, name, n) == before + {last};
    }
    SubsetSize(Taken(folders, d, name, n), folders.Keys);
  }

  lemma {:induction false} SubsetSize<T>(a: set<T>, b: set<T>)
    requires a <= b
    ensures |a| <= |b|
  {
    if a != {} {
      var x :| x in a;
      SubsetSize(a - {x}, b - {x});
    }
  }

  class Shelves {
    var folders: Folders

    function Total(): nat
      reads this
    {
      |folders|
    }

    constructor ()
      ensures folders == map[]
    {
      folders := map[];
    }

    /** `collision_safe`: the first candidate that is free; there is one among the first `Total() + 1`. */
    method CollisionSafe(d: Disposition, name: string) returns (free: string)
      ensures (d, free) !in folders
      ensures exists n: nat :: n <= Total() && free == Candidate(name, n)
                               && forall i: nat :: i < n ==> (d, Candidate(name, i)) in folders
    {
      free := name;
      var n: nat := 0;
      while (d, free) in folders
        invariant free == Candidate(name, n) && n <= |folders|
        invariant forall i: nat :: i < n ==> (d, Candidate(name, i)) in folders
        decreases |folders| - n
      {
        TakenAreFiles(folders, d, name, n + 1);
        n := n + 1;
        free := Stem(name) + "-dup" + Decimals.Print(n) + SUFFIX;
      }
    }

    /** The move: one more file, under a name that was free, and no other file touched. */
    method MoveIn(d: Disposition, name: string, content: bytes)
      modifies this
      ensures exists free :: (d, free) !in old(folders) && folders == old(folders)[(d, free) := content]
      ensures Total() == old(Total()) + 1 && Keeps(old(folders), folders)
    {
      var free := CollisionSafe(d, name);
      ghost var before := folders;
      folders := folders[(d, free) := content];
      assert folders.Keys == before.Keys + {(d, free)};
    }
  }

  /** Some file of the folder, not there before, has this content. */
  ghost predicate Shelved(before: Folders, after: Folders, d: Disposition, content: bytes) {
    exists name :: (d, name) in after && (d, name) !in before && after[(d, name)] == content
  }

  lemma StillShelved(before: Folders, mid: Folders, after: Folders, d: Disposition, content: bytes)
    requires Shelved(before, mid, d, content) && Keeps(mid, after)
    ensures Shelved(before, after, d, content)
  {
    var name :| (d, name) in mid && (d, name) !in before && mid[(d, name)] == content;
    assert (d, name) in after;
  }

  lemma NowShelved(before: Folders, mid: Folders, after: Folders, d: Disposition, content: bytes)
    requires Keeps(before, mid)
    requires exists free :: (d, free) !in mid && after == mid[(d, free) := content]
    ensures Shelved(before, after, d, content)
  {
    var free :| (d, free) !in mid && after == mid[(d, free) := content];
    assert (d, free) !in before;
  }
}
