/** Recipe version chains and drift detection. */
module Recipes {
  import opened Basics
  import opened Floats
  import Crc32

  datatype ParameterValue = Numeric(value: F64) | Text(text: string) | Flag(flag: bool)

  datatype Tolerance = Absolute(allowed: F64) | Relative(fraction: F64)

  datatype DriftStatus = InSpec | Marginal | OutOfSpec

  /** `Tolerance::classify`. */
  function Classify(t: Tolerance, expected: F64, measured: F64): DriftStatus {
    var allowed := match t
                   case Absolute(a) => a
                   case Relative(r) => Mul(Abs(expected), r);
    var dev := Abs(Add(measured, Neg(expected)));
    if Le(dev, allowed) then InSpec
    else if Le(dev, Mul(allowed, Finite(2.0))) then Marginal
    else OutOfSpec
  }

  type Parameters = map<string, ParameterValue>

  /** One version of a recipe; its checksum is taken when it is made. */
  datatype Version = Version(
    number: nat,
    parameters: Parameters,
    tolerances: map<string, Tolerance>,
    body: bytes,
    checksum: bv32)

  function Octets(body: bytes): Crc32.octets {
    seq(|body|, i requires 0 <= i < |body| => body[i] as bv8)
  }

  function NewVersion(number: nat, p: Parameters, t: map<string, Tolerance>, body: bytes): Version {
    Version(number, p, t, body, Crc32.Crc(Octets(body)))
  }

  /** A version chain is never empty. */
  type Recipe = vs: seq<Version> | vs != [] witness [Version(1, map[], map[], [], 0)]

  function Latest(r: Recipe): Version {
    r[|r| - 1]
  }

  /** `add_version`: the number is the previous one plus one, whatever the caller wrote. */
  function AddVersion(r: Recipe, v: Version): Recipe {
    r + [v.(number := Latest(r).number + 1)]
  }

  type Store = map<string, Recipe>

  /** The finding for one expected parameter. */
  function Finding(v: Version, measured: Parameters, name: string): DriftStatus
    requires name in v.parameters
  {
    if name !in measured then OutOfSpec else
    match (v.parameters[name], measured[name])
    case (Numeric(e), Numeric(m)) =>
      Classify(if name in v.tolerances then v.tolerances[name] else Relative(Finite(0.02)), e, m)
    case (a, b) => if a == b then InSpec else OutOfSpec
  }

  /** `detect_drift` followed by `runnable`: no parameter may be out of specification. */
  predicate Runnable(v: Version, measured: Parameters) {
    forall name :: name in v.parameters ==> Finding(v, measured, name) != OutOfSpec
  }

  /** The loop of `detect_drift` with the fold of `status`: the worst finding decides. */
  method DetectDrift(v: Version, measured: Parameters) returns (findings: map<string, DriftStatus>, worst: DriftStatus)
    ensures findings == map name | name in v.parameters :: Finding(v, measured, name)
    ensures worst == OutOfSpec <==> !Runnable(v, measured)
    ensures worst == InSpec <==> forall name :: name in v.parameters ==> Finding(v, measured, name) == InSpec
  {
    var left := v.parameters.Keys;
    findings, worst := map[], InSpec;
    while left != {}
      invariant left <= v.parameters.Keys
      invariant findings.Keys == v.parameters.Keys - left
      invariant forall name :: name in findings ==> findings[name] == Finding(v, measured, name)
      invariant worst == OutOfSpec <==> exists name :: name in findings && findings[name] == OutOfSpec
      invariant worst == InSpec <==> forall name :: name in findings ==> findings[name] == InSpec
      decreases |left|
    {
      var name :| name in left;
      var status := Finding(v, measured, name);
      ghost var before := findings;
      findings := findings[name := status];
      assert forall n :: n in before ==> findings[n] == before[n];
      assert findings[name] == status;
      worst := if status == OutOfSpec || worst == OutOfSpec then OutOfSpec
               else if status == Marginal || worst == Marginal then Marginal else InSpec;
      left := left - {name};
    }
    assert forall name :: name in v.parameters <==> name in findings;
  }

  // ----- the chain -----

  /** Numbered 1, 2, 3, ... with every checksum that of its body. */
  predicate WellNumbered(r: Recipe) {
    forall i :: 0 <= i < |r| ==> r[i].number == i + 1 && r[i].checksum == Crc32.Crc(Octets(r[i].body))
  }

  function Bodies(r: seq<Version>): seq<bytes> {
    seq(|r|, i requires 0 <= i < |r| => r[i].body)
  }

  lemma AddVersionKeepsChain(r: Recipe, v: Version)
    requires WellNumbered(r) && v.checksum == Crc32.Crc(Octets(v.body))
    ensures WellNumbered(AddVersion(r, v)) && r <= AddVersion(r, v)
    ensures Bodies(AddVersion(r, v)) == Bodies(r) + [v.body] && Latest(AddVersion(r, v)).body == v.body
  {
  }
}
