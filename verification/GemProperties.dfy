/** What a host reads back from the equipment. */
module GemProperties {
  import opened Basics
  import opened Secs
  import opened Hsms
  import opened Gem300
  import opened Interleaving
  import opened RecipeBooks
  import Gem

  // ----- variables and constants -----

  predicate Ascending(keys: seq<nat>) {
    forall i, j :: 0 <= i < j < |keys| ==> keys[i] < keys[j]
  }

  lemma ListingStep(m: map<nat, Item>) returns (k: nat)
    requires m != map[]
    ensures k in m && (forall j :: j in m ==> k <= j) && |m - {k}| < |m|
    ensures Gem.ValuesInOrder(m) == [m[k]] + Gem.ValuesInOrder(m - {k})
  {
    assert m.Keys != {};
    k := Gem.Smallest(m.Keys);
    var rest := m - {k};
    assert rest.Keys == m.Keys - {k};
  }

  /** The keys in ascending order, and their values in step. */
  ghost predicate Lists(keys: seq<nat>, m: map<nat, Item>, values: seq<Item>) {
    && Ascending(keys) && |keys| == |values|
    && (forall k :: k in m <==> k in keys)
    && (forall i :: 0 <= i < |keys| ==> keys[i] in m && values[i] == m[keys[i]])
  }

  lemma ListsMore(keys: seq<nat>, m: map<nat, Item>, values: seq<Item>, k: nat)
    requires k in m && (forall j :: j in m ==> k <= j) && Lists(keys, m - {k}, values)
    ensures Lists([k] + keys, m, [m[k]] + values)
  {
    hide Ascending;
    var rest := m - {k};
    forall j | 0 <= j < |keys| ensures k < keys[j] && keys[j] in m && values[j] == m[keys[j]] {
      assert keys[j] in rest;
    }
    MoreKeys(keys, k);
    MoreValues(keys, m, values, k);
    assert forall x :: x in m <==> x == k || x in rest;
  }

  lemma MoreKeys(keys: seq<nat>, k: nat)
    ensures forall x :: x in [k] + keys <==> x == k || x in keys
    ensures Ascending(keys) && (forall j :: 0 <= j < |keys| ==> k < keys[j]) ==> Ascending([k] + keys)
  {
  }

  lemma MoreValues(keys: seq<nat>, m: map<nat, Item>, values: seq<Item>, k: nat)
    requires k in m && |keys| == |values|
    requires forall i :: 0 <= i < |keys| ==> keys[i] in m && values[i] == m[keys[i]]
    ensures var ks, vs := [k] + keys, [m[k]] + values;
            forall i :: 0 <= i < |ks| ==> ks[i] in m && vs[i] == m[ks[i]]
  {
  }

  /** A request for everything lists every value once, in ascending order of its identifier. */
  lemma {:induction false} EverythingIsListedInOrder(m: map<nat, Item>) returns (keys: seq<nat>)
    ensures Lists(keys, m, Gem.ValuesInOrder(m))
    decreases |m|
  {
    if m == map[] {
      keys := [];
    } else {
      var k := ListingStep(m);
      var later := EverythingIsListedInOrder(m - {k});
      ListsMore(later, m, Gem.ValuesInOrder(m - {k}), k);
      keys := [k] + later;
    }
  }

  /** The value the last setting of an identifier gives it, if there is one. */
  function LastSetting(settings: seq<(nat, Item)>, id: nat): Option<Item> {
    if settings == [] then None
    else if settings[|settings| - 1].0 == id then Some(settings[|settings| - 1].1)
    else LastSetting(settings[..|settings| - 1], id)
  }

  lemma {:induction false} ApplyLast(m: map<nat, Item>, settings: seq<(nat, Item)>, id: nat)
    ensures var r := Gem.ApplySettings(m, settings);
            match LastSetting(settings, id)
            case Some(v) => id in r && r[id] == v
            case None => (id in r <==> id in m) && (id in m ==> r[id] == m[id])
    decreases settings
  {
    if settings != [] {
      var s, rest := settings[0], settings[1..];
      ApplyLast(m[s.0 := s.1], rest, id);
      LastOfCons(s, rest, id);
      assert [s] + rest == settings;
    }
  }

  lemma {:induction false} LastOfCons(s: (nat, Item), rest: seq<(nat, Item)>, id: nat)
    ensures LastSetting([s] + rest, id) ==
              if LastSetting(rest, id).Some? then LastSetting(rest, id) else if s.0 == id then Some(s.1) else None
    decreases |rest|
  {
    var all := [s] + rest;
    if rest == [] {
      assert all[..0] == [];
    } else {
      assert all[..|all| - 1] == [s] + rest[..|rest| - 1];
      LastOfCons(s, rest[..|rest| - 1], id);
    }
  }

  /** A constant set by S2F15 and asked for by S2F13 comes back as the last value a well-formed pair of the
      request gave it, or as it was; every other constant is unchanged. */
  lemma ConstantsReadBack(g: Gem.State, system: u32, pairs: seq<Item>, id: u32)
    ensures var g' := Gem.SetConstants(g, system, Some(L(pairs))).gem;
            Gem.LookUp(g'.ecids, Some(L([Gem.U4(id)]))) ==
              [match LastSetting(Gem.Settings(pairs), id)
               case Some(v) => v
               case None => if id in g.ecids then g.ecids[id] else Boolean([])]
  {
    hide Gem.ApplySettings, Gem.Settings, LastSetting, Gem.LookUp, Gem.SettingAcks;
    ApplyLast(g.ecids, Gem.Settings(pairs), id);
    var g' := Gem.SetConstants(g, system, Some(L(pairs))).gem;
    NothingSet(g.ecids);
    LookUpOne(g'.ecids, id);
  }

  lemma NothingSet(m: map<nat, Item>)
    ensures Gem.ApplySettings(m, []) == m
  {
  }

  lemma LookUpOne(m: map<nat, Item>, id: u32)
    ensures Gem.LookUp(m, Some(L([Gem.U4(id)]))) == [if id in m then m[id] else Boolean([])]
  {
  }

  // ----- process programs -----

  /** In every reachable state S7F5 answers with the body of the latest accepted upload under that name,
      or with empty text when there was none. */
  lemma DownloadReturnsLatestUpload(device: u16, mdln: string, softrev: string, steps: seq<Step>, system: u32, ppid: Id)
    ensures var s := Run(Initial(device, mdln, softrev), steps);
            var bodies := BodiesFor(s.uploads, ppid);
            Gem.SendProgram(s.fab.gem, system, Some(A(ppid))).message.value.item ==
              Some(L([A(ppid), if bodies == [] then A("") else B(bodies[|bodies| - 1])]))
  {
    ProgramsAndRecipesAgree(device, mdln, softrev, steps, ppid);
    hide Run, Initial, BodiesFor;
  }
}
