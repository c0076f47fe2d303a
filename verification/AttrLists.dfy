/** Attribute lists as the records keep them, and the maps they stand for. */
module AttrLists {
  import opened Basics
  import opened ByteCodec
  import opened AttributeCodec

  /** Lookups take the first entry with a key. */
  ghost function ToMap(xs: seq<NamedAttr>): map<Bytes, NamedAttr> {
    if xs == [] then map[] else ToMap(xs[1..])[xs[0].key := xs[0]]
  }

  ghost predicate UniqueKeys(xs: seq<NamedAttr>) {
    xs == [] || (xs[0].key !in ToMap(xs[1..]) && UniqueKeys(xs[1..]))
  }

  /** The index of the first entry with this key, or the length. */
  function FirstKey(xs: seq<NamedAttr>, key: Bytes): (i: nat)
    ensures i <= |xs|
    ensures i < |xs| ==> xs[i].key == key
    ensures forall j :: 0 <= j < i ==> xs[j].key != key
  {
    if xs == [] || xs[0].key == key then 0 else 1 + FirstKey(xs[1..], key)
  }

  lemma {:induction false} MapFindsFirst(xs: seq<NamedAttr>, key: Bytes)
    ensures var i := FirstKey(xs, key);
      (key in ToMap(xs) <==> i < |xs|) && (i < |xs| ==> ToMap(xs)[key] == xs[i])
  {
    if xs != [] && xs[0].key != key { MapFindsFirst(xs[1..], key); }
  }

  // ---- merging a modification ------------------------------------------------

  /** Overwrites the first entry with the key, or appends. */
  ghost function Upsert(xs: seq<NamedAttr>, a: NamedAttr): seq<NamedAttr> {
    if xs == [] then [a]
    else if xs[0].key == a.key then [a] + xs[1..]
    else [xs[0]] + Upsert(xs[1..], a)
  }

  /** Drops the first entry with the key. */
  ghost function Remove(xs: seq<NamedAttr>, key: Bytes): seq<NamedAttr> {
    if xs == [] then []
    else if xs[0].key == key then xs[1..]
    else [xs[0]] + Remove(xs[1..], key)
  }

  ghost function UpsertAll(xs: seq<NamedAttr>, adds: seq<NamedAttr>): seq<NamedAttr>
    decreases |adds|
  {
    if adds == [] then xs else UpsertAll(Upsert(xs, adds[0]), adds[1..])
  }

  ghost function RemoveAll(xs: seq<NamedAttr>, keys: seq<Bytes>): seq<NamedAttr>
    decreases |keys|
  {
    if keys == [] then xs else RemoveAll(Remove(xs, keys[0]), keys[1..])
  }

  ghost function Merge(xs: seq<NamedAttr>, adds: seq<NamedAttr>, removes: seq<Bytes>): seq<NamedAttr> {
    RemoveAll(UpsertAll(xs, adds), removes)
  }

  /** The additions as a map, in which a later entry overrides an earlier one. */
  ghost function Overrides(adds: seq<NamedAttr>): map<Bytes, NamedAttr> {
    if adds == [] then map[] else map[adds[0].key := adds[0]] + Overrides(adds[1..])
  }

  /** Among additions with one key the last wins. */
  lemma {:induction false} LastAdditionWins(adds: seq<NamedAttr>, a: NamedAttr)
    ensures Overrides(adds + [a]) == Overrides(adds)[a.key := a] && Overrides([]) == map[]
  {
    if adds == [] {
      assert adds + [a] == [a] && [a][1..] == [];
    } else {
      LastAdditionWins(adds[1..], a);
      assert (adds + [a])[1..] == adds[1..] + [a] && (adds + [a])[0] == adds[0];
      OverrideLast(map[adds[0].key := adds[0]], Overrides(adds[1..]), a);
    }
  }

  lemma OverrideLast(m: map<Bytes, NamedAttr>, rest: map<Bytes, NamedAttr>, a: NamedAttr)
    ensures m + rest[a.key := a] == (m + rest)[a.key := a]
  {
  }

  lemma {:induction false} UpsertIsUpdate(xs: seq<NamedAttr>, a: NamedAttr)
    ensures ToMap(Upsert(xs, a)) == ToMap(xs)[a.key := a]
    ensures UniqueKeys(xs) ==> UniqueKeys(Upsert(xs, a))
  {
    if xs == [] {
      assert [a][1..] == [];
    } else if xs[0].key == a.key {
      assert ([a] + xs[1..])[1..] == xs[1..];
    } else {
      UpsertIsUpdate(xs[1..], a);
      assert Upsert(xs, a)[1..] == Upsert(xs[1..], a);
    }
  }

  lemma {:induction false} RemoveIsErase(xs: seq<NamedAttr>, key: Bytes)
    requires UniqueKeys(xs)
    ensures UniqueKeys(Remove(xs, key))
    ensures ToMap(Remove(xs, key)) == ToMap(xs) - {key}
  {
    if xs != [] && xs[0].key != key {
      RemoveIsErase(xs[1..], key);
      assert Remove(xs, key)[1..] == Remove(xs[1..], key);
    }
  }

  lemma OverrideOneThenRest(m: map<Bytes, NamedAttr>, k: Bytes, v: NamedAttr, rest: map<Bytes, NamedAttr>)
    ensures m[k := v] + rest == m + (map[k := v] + rest)
  {
  }

  lemma {:induction false} UpsertAllIsOverride(xs: seq<NamedAttr>, adds: seq<NamedAttr>)
    ensures ToMap(UpsertAll(xs, adds)) == ToMap(xs) + Overrides(adds)
    ensures UniqueKeys(xs) ==> UniqueKeys(UpsertAll(xs, adds))
    decreases |adds|
  {
    if adds != [] {
      UpsertIsUpdate(xs, adds[0]);
      UpsertAllIsOverride(Upsert(xs, adds[0]), adds[1..]);
      OverrideOneThenRest(ToMap(xs), adds[0].key, adds[0], Overrides(adds[1..]));
    }
  }

  lemma {:induction false} RemoveAllIsErase(xs: seq<NamedAttr>, keys: seq<Bytes>)
    requires UniqueKeys(xs)
    ensures UniqueKeys(RemoveAll(xs, keys))
    ensures ToMap(RemoveAll(xs, keys)) == ToMap(xs) - Elements(keys)
    decreases |keys|
  {
    if keys != [] {
      RemoveIsErase(xs, keys[0]);
      RemoveAllIsErase(Remove(xs, keys[0]), keys[1..]);
      assert Elements(keys) == {keys[0]} + Elements(keys[1..]);
    }
  }

  /** Merging overrides by the additions, then erases the removed keys. */
  lemma MergeIsMapMerge(xs: seq<NamedAttr>, adds: seq<NamedAttr>, removes: seq<Bytes>)
    requires UniqueKeys(xs)
    ensures UniqueKeys(Merge(xs, adds, removes))
    ensures ToMap(Merge(xs, adds, removes)) == (ToMap(xs) + Overrides(adds)) - Elements(removes)
  {
    UpsertAllIsOverride(xs, adds);
    RemoveAllIsErase(UpsertAll(xs, adds), removes);
  }

  /** A duplicated update is harmless: merging it a second time leaves the same map. */
  lemma MergeIdempotent(xs: seq<NamedAttr>, adds: seq<NamedAttr>, removes: seq<Bytes>)
    requires UniqueKeys(xs)
    ensures var once := Merge(xs, adds, removes);
            ToMap(Merge(once, adds, removes)) == ToMap(once)
  {
    MergeIsMapMerge(xs, adds, removes);
    MergeIsMapMerge(Merge(xs, adds, removes), adds, removes);
  }

  /** A map of attributes as they come off the wire. */
  ghost function CanonMap(m: map<Bytes, NamedAttr>): map<Bytes, NamedAttr> {
    map k | k in m :: CanonAttr(m[k])
  }

  lemma CanonOfCons(xs: seq<NamedAttr>)
    requires xs != []
    ensures MapSeq(xs, CanonAttr)[0] == CanonAttr(xs[0]) && MapSeq(xs, CanonAttr)[1..] == MapSeq(xs[1..], CanonAttr)
  {
  }

  lemma {:induction false} CanonKeepsMap(xs: seq<NamedAttr>)
    ensures ToMap(MapSeq(xs, CanonAttr)) == CanonMap(ToMap(xs))
    ensures UniqueKeys(MapSeq(xs, CanonAttr)) <==> UniqueKeys(xs)
  {
    if xs != [] {
      CanonKeepsMap(xs[1..]);
      CanonOfCons(xs);
    }
  }

  lemma {:induction false} CanonKeepsOverrides(adds: seq<NamedAttr>)
    ensures Overrides(MapSeq(adds, CanonAttr)) == CanonMap(Overrides(adds))
  {
    if adds != [] {
      CanonKeepsOverrides(adds[1..]);
      CanonOfCons(adds);
    }
  }

  lemma CanonOfMerge(m: map<Bytes, NamedAttr>, n: map<Bytes, NamedAttr>, gone: set<Bytes>)
    ensures CanonMap((m + n) - gone) == (CanonMap(m) + CanonMap(n)) - gone
  {
  }

  lemma {:induction false} CanonTwice(m: map<Bytes, NamedAttr>)
    ensures CanonMap(CanonMap(m)) == CanonMap(m)
  {
  }

  /** Immediate read-back: a member merges its change into its own list, and the owner merges
      what it decodes of it into another. If the two lists stood for the same map on the wire,
      they still do. */
  lemma MergeReadsBack(mine: seq<NamedAttr>, owners: seq<NamedAttr>, adds: seq<NamedAttr>, removes: seq<Bytes>)
    requires UniqueKeys(mine) && UniqueKeys(owners) && CanonMap(ToMap(mine)) == CanonMap(ToMap(owners))
    ensures CanonMap(ToMap(Merge(mine, adds, removes)))
          == CanonMap(ToMap(Merge(owners, MapSeq(adds, CanonAttr), removes)))
  {
    MergeIsMapMerge(mine, adds, removes);
    MergeIsMapMerge(owners, MapSeq(adds, CanonAttr), removes);
    CanonKeepsOverrides(adds);
    CanonTwice(Overrides(adds));
    CanonOfMerge(ToMap(mine), Overrides(adds), Elements(removes));
    CanonOfMerge(ToMap(owners), CanonMap(Overrides(adds)), Elements(removes));
  }

  lemma {:induction false} UpsertAt(xs: seq<NamedAttr>, a: NamedAttr)
    ensures var i := FirstKey(xs, a.key); Upsert(xs, a) == if i < |xs| then xs[i := a] else xs + [a]
  {
    if xs != [] && xs[0].key != a.key {
      UpsertAt(xs[1..], a);
    }
  }

  lemma {:induction false} RemoveAt(xs: seq<NamedAttr>, key: Bytes)
    ensures var i := FirstKey(xs, key); Remove(xs, key) == if i < |xs| then xs[..i] + xs[i + 1..] else xs
  {
    if xs != [] && xs[0].key != key {
      RemoveAt(xs[1..], key);
    }
  }

  /** Merges in place, scanning for each key. */
  method ApplyAttrs(xs: seq<NamedAttr>, adds: seq<NamedAttr>, removes: seq<Bytes>) returns (ys: seq<NamedAttr>)
    ensures ys == Merge(xs, adds, removes)
  {
    ys := xs;
    for n := 0 to |adds|
      invariant UpsertAll(ys, adds[n..]) == UpsertAll(xs, adds)
    {
      UpsertAt(ys, adds[n]);
      var i := FindKey(ys, adds[n].key);
      if i < |ys| {
        ys := ys[i := adds[n]];
      } else {
        ys := ys + [adds[n]];
      }
    }
    ghost var added := ys;
    for n := 0 to |removes|
      invariant RemoveAll(ys, removes[n..]) == RemoveAll(added, removes)
    {
      RemoveAt(ys, removes[n]);
      var i := FindKey(ys, removes[n]);
      if i < |ys| {
        ys := ys[..i] + ys[i + 1..];
      }
    }
  }

  method FindKey(xs: seq<NamedAttr>, key: Bytes) returns (i: nat)
    ensures i == FirstKey(xs, key)
  {
    i := 0;
    while i < |xs| && xs[i].key != key
      invariant 0 <= i <= FirstKey(xs, key)
    {
      i := i + 1;
    }
  }

  // ---- comparing attribute lists -------------------------------------------------

  const EXPONENT_BITS: int := 0x7FF0_0000_0000_0000

  /** Comparison of doubles given as bit patterns: a NaN equals nothing, the two zeros
      equal each other. */
  predicate DoubleEqual(a: U64, b: U64) {
    && !IsNaN(a) && !IsNaN(b)
    && (a == b || (a % TWO_63 == 0 && b % TWO_63 == 0))
  }

  predicate IsNaN(a: U64) {
    a % TWO_63 > EXPONENT_BITS
  }

  predicate AttrEqual(a: AttrValue, b: AttrValue) {
    && a.kind == b.kind
    && (if a.kind == AT_BOOLEAN then a.flag == b.flag
        else if a.kind == AT_INT64 then a.int64 == b.int64
        else if a.kind == AT_DOUBLE then DoubleEqual(a.dbl, b.dbl)
        else a.kind == AT_STRING && a.str == b.str)
  }

  predicate EntryEqual(a: NamedAttr, b: NamedAttr) {
    AttrEqual(a.value, b.value) && a.tag == b.tag
  }

  /** Every entry of `xs` finds an equal first entry of its key in `ys`. */
  ghost predicate AllMatched(xs: seq<NamedAttr>, ys: seq<NamedAttr>) {
    forall i :: 0 <= i < |xs| ==> Matched(xs[i], ys)
  }

  predicate Matched(x: NamedAttr, ys: seq<NamedAttr>) {
    var j := FirstKey(ys, x.key);
    j < |ys| && EntryEqual(x, ys[j])
  }

  ghost predicate SameAttrs(xs: seq<NamedAttr>, ys: seq<NamedAttr>) {
    |xs| == |ys| && AllMatched(xs, ys)
  }

  method MemberAttrsEqual(xs: seq<NamedAttr>, ys: seq<NamedAttr>) returns (same: bool)
    ensures same <==> SameAttrs(xs, ys)
  {
    if |xs| != |ys| {
      return false;
    }
    for i := 0 to |xs|
      invariant forall k :: 0 <= k < i ==> Matched(xs[k], ys)
    {
      var match_ := false;
      var j := FindKey(ys, xs[i].key);
      if j < |ys| {
        match_ := EntryEqual(xs[i], ys[j]);
      }
      if !match_ {
        assert !Matched(xs[i], ys);
        return false;
      }
    }
    return true;
  }

  /** Two attribute maps agree: same keys, equal entries. */
  ghost predicate MapsEqual(m: map<Bytes, NamedAttr>, n: map<Bytes, NamedAttr>) {
    m.Keys == n.Keys && forall k :: k in m ==> EntryEqual(m[k], n[k])
  }

  lemma {:induction false} MapSize(xs: seq<NamedAttr>)
    requires UniqueKeys(xs)
    ensures |ToMap(xs).Keys| == |xs|
  {
    if xs != [] {
      MapSize(xs[1..]);
      assert ToMap(xs).Keys == ToMap(xs[1..]).Keys + {xs[0].key};
    }
  }

  lemma SubsetOfSameSize(a: set<Bytes>, b: set<Bytes>)
    requires a <= b && |a| == |b|
    ensures a == b
  {
    assert b == a + (b - a);
    assert |b - a| == 0;
  }

  lemma {:induction false} EntryOfUnique(xs: seq<NamedAttr>, i: nat)
    requires UniqueKeys(xs) && i < |xs|
    ensures FirstKey(xs, xs[i].key) == i
  {
    if i > 0 {
      EntryOfUnique(xs[1..], i - 1);
      MapFindsFirst(xs[1..], xs[i].key);
    }
  }

  /** The order-insensitive comparison holds exactly when the two maps are equal. */
  lemma SameAttrsIsMapEquality(xs: seq<NamedAttr>, ys: seq<NamedAttr>)
    requires UniqueKeys(xs) && UniqueKeys(ys)
    ensures SameAttrs(xs, ys) <==> MapsEqual(ToMap(xs), ToMap(ys))
  {
    MapSize(xs);
    MapSize(ys);
    var m, n := ToMap(xs), ToMap(ys);
    if SameAttrs(xs, ys) {
      forall k | k in m ensures k in n && EntryEqual(m[k], n[k]) {
        MapFindsFirst(xs, k);
        MapFindsFirst(ys, k);
        assert Matched(xs[FirstKey(xs, k)], ys);
      }
      SubsetOfSameSize(m.Keys, n.Keys);
    }
    if MapsEqual(m, n) {
      forall i | 0 <= i < |xs| ensures Matched(xs[i], ys) {
        EntryOfUnique(xs, i);
        MapFindsFirst(xs, xs[i].key);
        MapFindsFirst(ys, xs[i].key);
      }
    }
  }

  /** Values on which comparison is plain equality: as they come off the wire, of a known
      kind, and for doubles neither a NaN nor a negative zero. */
  predicate Plain(a: NamedAttr) {
    && CanonAttr(a) == a && a.value.kind <= AT_STRING
    && (a.value.kind == AT_DOUBLE ==> !IsNaN(a.value.dbl) && a.value.dbl != TWO_63)
  }

  lemma PlainEquality(a: NamedAttr, b: NamedAttr)
    requires Plain(a) && Plain(b) && a.key == b.key
    ensures EntryEqual(a, b) <==> a == b
  {
  }

  /** An attribute of an unknown kind, or a NaN, never equals even itself, so a member
      carrying one is reported as changed by every announce. */
  lemma IncomparableNeverEqual(a: NamedAttr)
    ensures EntryEqual(a, a) <==> a.value.kind <= AT_STRING && (a.value.kind == AT_DOUBLE ==> !IsNaN(a.value.dbl))
  {
  }
}
