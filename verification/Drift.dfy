/** When equipment constants let a downloaded recipe run. */
module Drift {
  import opened Basics
  import opened Floats
  import opened Secs
  import opened Hsms
  import opened Recipes
  import opened Gem300
  import opened Fab
  import opened Interleaving
  import opened RecipeBooks
  import Gem

  predicate Within(x: F64, lo: real, hi: real) {
    x.Finite? && lo <= x.r <= hi
  }

  /** `part` stands in `s` at `i`. */
  predicate StandsAt(s: string, part: string, i: nat) {
    i + |part| <= |s| && part <= s[i..]
  }

  lemma {:induction false} ContainsSomewhere(s: string, part: string)
    ensures Contains(s, part) <==> exists i: nat :: StandsAt(s, part, i)
  {
    assert s[0..] == s;
    if part <= s {
      assert StandsAt(s, part, 0);
    } else if s != [] {
      ContainsSomewhere(s[1..], part);
      if i: nat :| StandsAt(s[1..], part, i) {
        assert s[1..][i..] == s[i + 1..];
        assert StandsAt(s, part, i + 1);
      }
      if i: nat :| StandsAt(s, part, i) {
        assert i > 0 && s[1..][i - 1..] == s[i..];
        assert StandsAt(s[1..], part, i - 1);
      }
    }
  }

  lemma StandsFrom(s: string, part: string, i: nat)
    requires |part| >= 3
    ensures StandsAt(s, part, i) ==> i + 2 < |s| && s[i] == part[0] && s[i + 1] == part[1] && s[i + 2] == part[2]
  {
    if StandsAt(s, part, i) {
      assert forall k :: 0 <= k < |part| ==> s[i..][k] == part[k];
    }
  }

  /** Which offset applies to each of the three standard parameters. */
  lemma StandardNames()
    ensures Contains("chamber_temp_c", "temp")
    ensures !Contains("chamber_pressure_mtorr", "temp") && Contains("chamber_pressure_mtorr", "pressure")
    ensures !Contains("process_time_s", "temp") && !Contains("process_time_s", "pressure") && Contains("process_time_s", "time")
  {
    hide Contains;
    ContainTheirOwn();
    NoTempInPressure();
    NoTempInTime();
    NoPressureInTime();
  }

  lemma ContainTheirOwn()
    ensures Contains("chamber_temp_c", "temp") && Contains("chamber_pressure_mtorr", "pressure") && Contains("process_time_s", "time")
  {
    hide Contains, StandsAt;
    ContainedAt("chamber_", "temp", "_c");
    assert "chamber_" + "temp" + "_c" == "chamber_temp_c";
    ContainedAt("chamber_", "pressure", "_mtorr");
    assert "chamber_" + "pressure" + "_mtorr" == "chamber_pressure_mtorr";
    ContainedAt("process_", "time", "_s");
    assert "process_" + "time" + "_s" == "process_time_s";
  }

  lemma ContainedAt(before: string, part: string, after: string)
    ensures Contains(before + part + after, part)
  {
    var s := before + part + after;
    ContainsSomewhere(s, part);
    assert s[|before|..] == part + after;
    assert StandsAt(s, part, |before|);
  }

  lemma NoTempInPressure()
    ensures !Contains("chamber_pressure_mtorr", "temp")
  {
    var s := "chamber_pressure_mtorr";
    assert forall i :: 0 <= i < |s| && s[i] == 't' ==> i == 18;
    ContainsSomewhere(s, "temp");
    hide Contains;
    forall i: nat ensures !StandsAt(s, "temp", i) {
      StandsFrom(s, "temp", i);
    }
  }

  lemma NoTempInTime()
    ensures !Contains("process_time_s", "temp")
  {
    var s := "process_time_s";
    ContainsSomewhere(s, "temp");
    hide Contains;
    forall i: nat ensures !StandsAt(s, "temp", i) {
      StandsFrom(s, "temp", i);
    }
  }

  lemma NoPressureInTime()
    ensures !Contains("process_time_s", "pressure")
  {
    var s := "process_time_s";
    ContainsSomewhere(s, "pressure");
    hide Contains;
    forall i: nat ensures !StandsAt(s, "pressure", i) {
      StandsFrom(s, "pressure", i);
    }
  }

  /** Twice an absolute tolerance is the limit of what may run. */
  lemma AbsoluteBand(expected: real, allowed: real, offset: F64)
    requires allowed >= 0.0
    ensures Classify(Absolute(Finite(allowed)), Finite(expected), Add(Finite(expected), offset)) != OutOfSpec
            <==> Within(offset, -2.0 * allowed, 2.0 * allowed)
  {
  }

  lemma TimeBand(scale: F64)
    ensures Classify(Relative(Finite(0.05)), Finite(60.0), Mul(Finite(60.0), scale)) != OutOfSpec <==> Within(scale, 0.9, 1.1)
  {
  }

  /** A finite measurement is in specification up to the tolerance, marginal up to twice that, and out of
      specification beyond; a relative tolerance is a share of the expected size. A value that is not a
      number is always out, and an infinite one for every tolerance that is finite. */
  lemma ClassifiedExactly(t: Tolerance, expected: real, measured: F64)
    requires match t case Absolute(a) => a.Finite? case Relative(a) => a.Finite?
    ensures var allowed := match t
                           case Absolute(a) => a.r
                           case Relative(a) => (if expected < 0.0 then -expected else expected) * a.r;
            Classify(t, Finite(expected), measured) ==
              if !measured.Finite? then OutOfSpec else
              var distance := if measured.r < expected then expected - measured.r else measured.r - expected;
              if distance <= allowed then InSpec else if distance <= allowed * 2.0 then Marginal else OutOfSpec
  {
  }

  /** What one expected parameter is found to be: numbers by their tolerance, or two in a hundred when none
      is given; other values must be equal; and one that was not measured, or is of another kind, is out. */
  lemma FoundExactly(v: Version, measured: Parameters, name: string)
    requires name in v.parameters
    ensures name !in measured ==> Finding(v, measured, name) == OutOfSpec
    ensures name in measured && !(v.parameters[name].Numeric? && measured[name].Numeric?) ==>
              Finding(v, measured, name) == if v.parameters[name] == measured[name] then InSpec else OutOfSpec
    ensures name in measured && v.parameters[name].Numeric? && measured[name].Numeric? ==>
              Finding(v, measured, name) ==
                Classify(if name in v.tolerances then v.tolerances[name] else Relative(Finite(0.02)),
                         v.parameters[name].value, measured[name].value)
  {
  }

  /** The three constants, as ranges. */
  predicate ConstantsInBand(ecids: map<nat, Item>) {
    var temperature, pressure, scale := Offset(ecids, 1001), Offset(ecids, 1002), Offset(ecids, 1003);
    && Within(temperature, -6.0, 6.0)
    && Within(pressure, -8.0, 8.0)
    && (Gt(scale, Finite(0.0)) ==> Within(scale, 0.9, 1.1))
  }

  lemma StandardFindings(v: Version, ecids: map<nat, Item>)
    requires v.parameters == HostParameters() && v.tolerances == HostTolerances()
    ensures var m := Measured(ecids, v.parameters);
            && (Finding(v, m, "chamber_temp_c") != OutOfSpec <==> Within(Offset(ecids, 1001), -6.0, 6.0))
            && (Finding(v, m, "chamber_pressure_mtorr") != OutOfSpec <==> Within(Offset(ecids, 1002), -8.0, 8.0))
            && (Finding(v, m, "process_time_s") != OutOfSpec <==> Within(Scale(ecids), 0.9, 1.1))
  {
    StandardNames();
    hide Contains, Offset, Scale, Classify;
    AbsoluteBand(150.0, 3.0, Offset(ecids, 1001));
    AbsoluteBand(50.0, 4.0, Offset(ecids, 1002));
    TimeBand(Scale(ecids));
  }

  lemma ScaleInBand(ecids: map<nat, Item>)
    ensures Within(Scale(ecids), 0.9, 1.1) <==> (Gt(Offset(ecids, 1003), Finite(0.0)) ==> Within(Offset(ecids, 1003), 0.9, 1.1))
  {
    hide Offset;
  }

  /** A downloaded recipe may run exactly when the temperature offset is at most 6 either way, the
      pressure offset at most 8 either way, and the time factor between 0.9 and 1.1, where a factor that
      is not positive (or not a number) counts as 1. */
  lemma DownloadedRecipeRunsExactlyInBand(v: Version, ecids: map<nat, Item>)
    requires v.parameters == HostParameters() && v.tolerances == HostTolerances()
    ensures Runnable(v, Measured(ecids, v.parameters)) <==> ConstantsInBand(ecids)
  {
    hide Finding, Measured, Offset, Scale, Within;
    StandardFindings(v, ecids);
    ScaleInBand(ecids);
    assert v.parameters.Keys == {"chamber_temp_c", "chamber_pressure_mtorr", "process_time_s"};
  }

  /** In every reachable state, phase 1 lets a job with a known recipe run exactly when the constants are
      in their bands: no other kind of recipe ever gets into the store. */
  lemma JobsRunExactlyInBand(device: u16, mdln: string, softrev: string, steps: seq<Step>, pj: Id)
    ensures var f := Run(Initial(device, mdln, softrev), steps).fab;
            pj in f.jobs && f.jobs[pj].recipe in f.recipes ==>
              (MayRun(f, f.jobs[pj]) <==> ConstantsInBand(f.gem.ecids))
  {
    ReachableRecipes(device, mdln, softrev, steps);
    var s := Run(Initial(device, mdln, softrev), steps);
    hide Run, Initial, ConstantsInBand;
    var f := s.fab;
    if pj in f.jobs && f.jobs[pj].recipe in f.recipes {
      assert ChainSound(f.recipes, f.gem.programs, s.uploads, f.jobs[pj].recipe);
      DownloadedRecipeRunsExactlyInBand(Latest(f.recipes[f.jobs[pj].recipe]), f.gem.ecids);
    }
  }
}
