/** Signing a report, verifying it, and what a valid signature says about its contents. */
module Signing {
  import opened Basics
  import opened Floats
  import opened Json
  import opened JsonProperties
  import opened Schema
  import opened Outcome
  import opened OutcomeProperties
  import Hmac
  import Utf8

  /** `retain`: every entry with another key, in order. */
  function Without(entries: seq<Entry>, key: string): seq<Entry> {
    if entries == [] then []
    else if entries[0].key == key then Without(entries[1..], key)
    else [entries[0]] + Without(entries[1..], key)
  }

  /** `signing_bytes`. */
  function SigningText(fl: Floating, r: Report): string {
    Print(fl, Obj(Without(ToJson(fl, r).entries, "signature")))
  }

  const HMAC_SHA256 := "hmac-sha256"

  function MacOf(fl: Floating, r: Report, key: bytes): bytes {
    Hmac.Mac(key, Utf8.Encode(SigningText(fl, r)))
  }

  /** `sign_report`. */
  function Signed(fl: Floating, r: Report, keyId: string, key: bytes): Report {
    r.(signature := Some(Signature(HMAC_SHA256, keyId, Hmac.Hex(MacOf(fl, r, key)))))
  }

  datatype UnsignedPolicy = RequireSignature | AcceptUnsigned

  datatype Verdict = Valid | NoSignature | UnsupportedAlgorithm | UnknownKey | BadHex | Mismatch

  /** `verify_report`; `zip` and `all` over lists of equal length. */
  function Verify(fl: Floating, r: Report, keyOf: string -> Option<bytes>, policy: UnsignedPolicy): Verdict {
    match r.signature
    case None => if policy.AcceptUnsigned? then Valid else NoSignature
    case Some(sig) =>
      if sig.algorithm != HMAC_SHA256 then UnsupportedAlgorithm else
      match keyOf(sig.keyId)
      case None => UnknownKey
      case Some(key) =>
        var expected := MacOf(fl, r, key);
        match Hmac.Unhex(sig.macHex)
        case None => BadHex
        case Some(claimed) =>
          if |claimed| != |expected| || exists i :: 0 <= i < |claimed| && claimed[i] != expected[i] then Mismatch else Valid
  }

  class ReportFile {
    var report: Report

    constructor (report: Report)
      ensures this.report == report
    {
      this.report := report;
    }

    /** `sign_report` in place: only the signature changes. */
    method Sign(fl: Floating, keyId: string, key: bytes)
      modifies this
      ensures report == Signed(fl, old(report), keyId, key)
    {
      var mac := Hmac.HmacSha256(key, Utf8.Encode(SigningText(fl, report)));
      report := report.(signature := Some(Signature(HMAC_SHA256, keyId, Hmac.Hex(mac))));
    }
  }

  // ----- what is signed -----

  lemma {:induction false} WithoutNothing(entries: seq<Entry>, rest: seq<Entry>, key: string)
    requires forall i :: 0 <= i < |entries| ==> entries[i].key != key
    ensures Without(entries + rest, key) == entries + Without(rest, key)
  {
    if entries == [] {
      assert entries + rest == rest;
    } else {
      WithoutNothing(entries[1..], rest, key);
      assert (entries + rest)[1..] == entries[1..] + rest;
      assert [entries[0]] + (entries[1..] + Without(rest, key)) == entries + Without(rest, key);
    }
  }

  /** What is signed is the report as it would be written without a signature. */
  lemma SigningTextOmitsSignature(fl: Floating, r: Report)
    ensures SigningText(fl, r) == WriteReport(fl, r.(signature := None))
  {
    hide Print, SignatureJson, YieldJson, Map, Show, ShowTrack, ShowConsent;
    var es, sig := Fields(fl, r), SignatureFields(r.signature);
    KeysInOrder(fl, r);
    forall i | 0 <= i < |es| ensures es[i].key != "signature" {
      FieldNamesDiffer(i, 8);
      assert es[i].key == (es + sig)[i].key;
    }
    WithoutNothing(es, sig, "signature");
    assert Without(sig, "signature") == [] by {
      if r.signature.Some? {
        assert sig[1..] == [];
      }
    }
    assert es + [] == es;
    assert Fields(fl, r.(signature := None)) == es;
  }

  lemma StorableWithAnySignature(fl: Floating, r: Report, s: Option<Signature>)
    requires Storable(fl, r) && NumbersTyped(fl, r)
    ensures Storable(fl, r.(signature := s)) && NumbersTyped(fl, r.(signature := s))
  {
  }

  /** Reports that can be stored have the same signing bytes exactly when they differ in the signature at most. */
  lemma SigningBytesSeparateReports(fl: Floating, r: Report, q: Report)
    requires Lawful(fl) && NumbersTyped(fl, r) && NumbersTyped(fl, q) && Storable(fl, r) && Storable(fl, q)
    ensures Utf8.Encode(SigningText(fl, r)) == Utf8.Encode(SigningText(fl, q)) <==>
              r.(signature := None) == q.(signature := None)
  {
    hide Lawful, WriteReport, SigningText, Storable, NumbersTyped, Utf8.Encode, Utf8.Lossy, ReadReport;
    Utf8.LossyOfEncode(SigningText(fl, r));
    Utf8.LossyOfEncode(SigningText(fl, q));
    SigningTextOmitsSignature(fl, r);
    SigningTextOmitsSignature(fl, q);
    var r0, q0 := r.(signature := None), q.(signature := None);
    StorableWithAnySignature(fl, r, None);
    StorableWithAnySignature(fl, q, None);
    ReportRoundTripsExactlyWhenStorable(fl, r0);
    ReportRoundTripsExactlyWhenStorable(fl, q0);
  }

  /** A verdict is `Valid` exactly for an accepted unsigned report, or for a known key and a hexadecimal
      code that is the code of the report's contents. */
  lemma ValidExactly(fl: Floating, r: Report, keyOf: string -> Option<bytes>, policy: UnsignedPolicy)
    ensures Verify(fl, r, keyOf, policy) == Valid <==>
              if r.signature.None? then policy == AcceptUnsigned
              else var sig := r.signature.value;
                   sig.algorithm == HMAC_SHA256 && keyOf(sig.keyId).Some?
                   && Hmac.Unhex(sig.macHex) == Some(MacOf(fl, r, keyOf(sig.keyId).value))
  {
    hide MacOf, Hmac.Unhex;
    if r.signature.Some? && keyOf(r.signature.value.keyId).Some? && Hmac.Unhex(r.signature.value.macHex).Some? {
      var claimed, expected := Hmac.Unhex(r.signature.value.macHex).value, MacOf(fl, r, keyOf(r.signature.value.keyId).value);
      if |claimed| == |expected| && forall i :: 0 <= i < |claimed| ==> claimed[i] == expected[i] {
        assert claimed == expected;
      }
    }
  }

  lemma MacIgnoresSignature(fl: Floating, r: Report, s: Option<Signature>, key: bytes)
    ensures MacOf(fl, r.(signature := s), key) == MacOf(fl, r, key)
  {
    SigningTextOmitsSignature(fl, r);
    SigningTextOmitsSignature(fl, r.(signature := s));
    assert r.(signature := s).(signature := None) == r.(signature := None);
    hide SigningText, WriteReport;
  }

  /** Sign, write, read, verify: a storable report signed with a key comes back from its file as it was
      signed, and verifies under every policy with the same key. */
  lemma SignedReportVerifies(fl: Floating, r: Report, keyId: string, key: bytes,
                             keyOf: string -> Option<bytes>, policy: UnsignedPolicy)
    requires Lawful(fl) && NumbersTyped(fl, r) && Storable(fl, r) && keyOf(keyId) == Some(key)
    ensures var signed := Signed(fl, r, keyId, key);
            var read := ReadReport(fl, WriteReport(fl, signed));
            read == Some(signed) && Verify(fl, read.value, keyOf, policy) == Valid
  {
    var signed := Signed(fl, r, keyId, key);
    StorableWithAnySignature(fl, r, signed.signature);
    hide Lawful, WriteReport, ReadReport, MacOf, Storable, NumbersTyped, Hmac.Hex, Hmac.Unhex, Verify;
    ReportRoundTripsExactlyWhenStorable(fl, signed);
    MacIgnoresSignature(fl, r, signed.signature, key);
    Hmac.UnhexOfHex(MacOf(fl, r, key));
    ValidExactly(fl, signed, keyOf, policy);
  }

  /** If two storable reports carry the same signature and both verify with one key, either they agree in
      every field or the code takes the same value on two different texts. */
  lemma SharedSignatureMeansSameContents(fl: Floating, r: Report, q: Report, keyOf: string -> Option<bytes>, policy: UnsignedPolicy)
    requires Lawful(fl) && NumbersTyped(fl, r) && NumbersTyped(fl, q) && Storable(fl, r) && Storable(fl, q)
    ensures r.signature.Some? && q.signature == r.signature
            && Verify(fl, r, keyOf, policy) == Valid && Verify(fl, q, keyOf, policy) == Valid ==>
              r == q ||
              exists x, y, key :: x != y && Hmac.Mac(key, x) == Hmac.Mac(key, y)
                                  && x == Utf8.Encode(SigningText(fl, r)) && y == Utf8.Encode(SigningText(fl, q))
  {
    ValidExactly(fl, r, keyOf, policy);
    ValidExactly(fl, q, keyOf, policy);
    hide Verify, Lawful, Storable, NumbersTyped, SigningText, Utf8.Encode, Hmac.Mac;
    if r.signature.Some? && q.signature == r.signature
       && Verify(fl, r, keyOf, policy) == Valid && Verify(fl, q, keyOf, policy) == Valid {
      var x, y := Utf8.Encode(SigningText(fl, r)), Utf8.Encode(SigningText(fl, q));
      SigningBytesSeparateReports(fl, r, q);
      if x == y {
        assert r == r.(signature := None).(signature := r.signature) && q == q.(signature := None).(signature := q.signature);
      } else {
        var key := keyOf(r.signature.value.keyId).value;
        assert Hmac.Mac(key, x) == Hmac.Mac(key, y);
      }
    }
  }
}
