/** Small shared vocabulary: options, bytes, powers of two, the least element of a finite
    set. */
module Basics {

  datatype Option<+T> = None | Some(value: T)

  type Byte = b: int | 0 <= b < 256
  type Bytes = seq<Byte>

  const TWO_31: int := 0x8000_0000
  const TWO_32: int := 0x1_0000_0000
  const TWO_63: int := 0x8000_0000_0000_0000
  const TWO_64: int := 0x1_0000_0000_0000_0000

  type U32 = n: nat | n < TWO_32
  type U64 = n: nat | n < TWO_64

  ghost predicate IsLeast(m: nat, s: set<nat>) {
    m in s && forall x :: x in s ==> m <= x
  }

  /** The key a C++ ordered set or map yields first. */
  function Least(s: set<nat>): (m: nat)
    requires s != {}
    ensures IsLeast(m, s)
  {
    LeastExists(s);
    var m :| m in s && forall x :: x in s ==> m <= x;
    m
  }

  lemma {:induction false} LeastExists(s: set<nat>)
    requires s != {}
    ensures exists m :: IsLeast(m, s)
    decreases |s|
  {
    var e :| e in s;
    var rest := s - {e};
    assert forall x :: x in s ==> x == e || x in rest;
    if rest == {} {
      assert IsLeast(e, s);
    } else {
      LeastExists(rest);
      var m :| IsLeast(m, rest);
      assert IsLeast(if e <= m then e else m, s);
    }
  }

  function Pow2(k: nat): (p: nat)
    ensures p >= 1
  {
    if k == 0 then 1 else 2 * Pow2(k - 1)
  }

  lemma Assoc(a: Bytes, b: Bytes, c: Bytes)
    ensures a + b + c == a + (b + c)
  {
  }

  /** The elements of a sequence, as a set. */
  function Elements<T>(xs: seq<T>): set<T> {
    set x | x in xs
  }

  /** The order in which a C++ map keyed by strings yields its keys. */
  predicate LexLess(a: Bytes, b: Bytes) {
    b != [] && (a == [] || a[0] < b[0] || (a[0] == b[0] && LexLess(a[1..], b[1..])))
  }

  lemma {:induction false} LexTotal(a: Bytes, b: Bytes)
    ensures a == b || LexLess(a, b) || LexLess(b, a)
  {
    if a != [] && b != [] && a[0] == b[0] {
      LexTotal(a[1..], b[1..]);
      assert a == [a[0]] + a[1..] && b == [b[0]] + b[1..];
    }
  }

  lemma {:induction false} LexTransitive(a: Bytes, b: Bytes, c: Bytes)
    requires LexLess(a, b) && LexLess(b, c)
    ensures LexLess(a, c)
  {
    if a != [] && a[0] == b[0] && b[0] == c[0] { LexTransitive(a[1..], b[1..], c[1..]); }
  }

  ghost predicate IsFirst(k: Bytes, keys: set<Bytes>) {
    k in keys && forall x :: x in keys && x != k ==> LexLess(k, x)
  }

  lemma {:induction false} FirstExists(keys: set<Bytes>)
    requires keys != {}
    ensures exists k :: IsFirst(k, keys)
    decreases |keys|
  {
    var e :| e in keys;
    var rest := keys - {e};
    assert forall x :: x in keys ==> x == e || x in rest;
    if rest == {} {
      assert IsFirst(e, keys);
    } else {
      FirstExists(rest);
      var k :| IsFirst(k, rest);
      LexTotal(e, k);
      var first := if LexLess(e, k) then e else k;
      forall x | x in keys && x != first ensures LexLess(first, x) {
        if first == e && x != k { LexTransitive(e, k, x); }
      }
      assert IsFirst(first, keys);
    }
  }

  /** `xs` comes from `ys` by leaving elements out. */
  ghost predicate IsSubsequence<T>(xs: seq<T>, ys: seq<T>) {
    || xs == []
    || (ys != [] && ((xs[0] == ys[0] && IsSubsequence(xs[1..], ys[1..])) || IsSubsequence(xs, ys[1..])))
  }

  ghost predicate NoDuplicates<T(!new)>(xs: seq<T>) {
    forall i, j :: 0 <= i < j < |xs| ==> xs[i] != xs[j]
  }

  lemma {:induction false} SubsequenceGrows<T>(xs: seq<T>, ys: seq<T>, y: T)
    requires IsSubsequence(xs, ys)
    ensures IsSubsequence(xs, ys + [y]) && IsSubsequence(xs + [y], ys + [y])
  {
    if ys == [] {
      assert ys + [y] == [y] && [y][1..] == [] && xs + [y] == [y];
    } else {
      assert (ys + [y])[1..] == ys[1..] + [y] && (ys + [y])[0] == ys[0];
      if xs != [] && xs[0] == ys[0] && IsSubsequence(xs[1..], ys[1..]) {
        SubsequenceGrows(xs[1..], ys[1..], y);
        assert (xs + [y])[1..] == xs[1..] + [y] && (xs + [y])[0] == xs[0];
      } else {
        SubsequenceGrows(xs, ys[1..], y);
      }
    }
  }

  lemma {:induction false} SubsequenceOfFront<T>(xs: seq<T>, ys: seq<T>, more: seq<T>)
    requires IsSubsequence(xs, ys)
    ensures IsSubsequence(xs, ys + more)
    decreases |more|
  {
    if more == [] {
      assert ys + more == ys;
    } else {
      SubsequenceGrows(xs, ys, more[0]);
      SubsequenceOfFront(xs, ys + [more[0]], more[1..]);
      assert ys + [more[0]] + more[1..] == ys + more;
    }
  }

  /** Leaving elements out makes no duplicates. */
  lemma {:induction false} SubsequenceDistinct<T(!new)>(xs: seq<T>, ys: seq<T>)
    requires IsSubsequence(xs, ys) && NoDuplicates(ys)
    ensures NoDuplicates(xs) && forall x :: x in xs ==> x in ys
    decreases ys
  {
    if xs != [] {
      assert NoDuplicates(ys[1..]);
      if xs[0] == ys[0] && IsSubsequence(xs[1..], ys[1..]) {
        SubsequenceDistinct(xs[1..], ys[1..]);
        assert xs == [xs[0]] + xs[1..] && xs[0] !in ys[1..];
      } else {
        SubsequenceDistinct(xs, ys[1..]);
      }
    }
  }

  ghost predicate Increasing(xs: seq<nat>) {
    forall i, j :: 0 <= i < j < |xs| ==> xs[i] < xs[j]
  }

  lemma ConsIncreases(x: nat, rest: seq<nat>)
    requires Increasing(rest) && forall y :: y in rest ==> x < y
    ensures Increasing([x] + rest)
  {
    var xs := [x] + rest;
    forall i, j | 0 <= i < j < |xs| ensures xs[i] < xs[j] {
      assert xs[j] == rest[j - 1] && rest[j - 1] in rest;
      assert i > 0 ==> xs[i] == rest[i - 1];
    }
  }

  lemma {:induction false} SubsequenceIncreases(xs: seq<nat>, ys: seq<nat>)
    requires IsSubsequence(xs, ys) && Increasing(ys)
    ensures Increasing(xs) && forall x :: x in xs ==> x in ys
    decreases ys
  {
    if xs != [] {
      if xs[0] == ys[0] && IsSubsequence(xs[1..], ys[1..]) {
        SubsequenceIncreases(xs[1..], ys[1..]);
        assert forall y :: y in ys[1..] ==> ys[0] < y;
        ConsIncreases(xs[0], xs[1..]);
        assert xs == [xs[0]] + xs[1..];
      } else {
        SubsequenceIncreases(xs, ys[1..]);
      }
    }
  }
}
