/** Names of stored files on disk: one flat, reversible name per stored name. */
module StoredNames {
  import opened Basics

  const PERCENT: Byte := 37

  predicate IsPlainChar(c: Byte) {
    || 65 <= c <= 90    // A-Z
    || 97 <= c <= 122   // a-z
    || 48 <= c <= 57    // 0-9
    || c == 46 || c == 95 || c == 45 // . _ -
  }

  function HexDigit(n: nat): (c: Byte)
    requires n < 16
    ensures IsPlainChar(c) && Nib(c) == n
  {
    if n < 10 then 48 + n else 55 + n
  }

  /** The value of a hexadecimal digit of either case, or -1. */
  function Nib(c: Byte): int {
    if 48 <= c <= 57 then c - 48
    else if 65 <= c <= 70 then c - 55
    else if 97 <= c <= 102 then c - 87
    else -1
  }

  function EncodeByte(c: Byte): Bytes {
    if IsPlainChar(c) then [c] else [PERCENT, HexDigit(c / 16), HexDigit(c % 16)]
  }

  function Encoded(name: Bytes): Bytes {
    if name == [] then [] else EncodeByte(name[0]) + Encoded(name[1..])
  }

  predicate IsEscape(s: Bytes) {
    |s| >= 3 && s[0] == PERCENT && Nib(s[1]) >= 0 && Nib(s[2]) >= 0
  }

  /** A percent sign not followed by two digits stands for itself. */
  function Decoded(s: Bytes): Bytes
    decreases |s|
  {
    if s == [] then []
    else if IsEscape(s) then [Nib(s[1]) * 16 + Nib(s[2])] + Decoded(s[3..])
    else [s[0]] + Decoded(s[1..])
  }

  /** Decoding undoes encoding, whatever the bytes of the name. */
  lemma {:induction false} DecodeUndoesEncode(name: Bytes)
    ensures Decoded(Encoded(name)) == name
  {
    if name != [] {
      var c, rest := name[0], Encoded(name[1..]);
      DecodeUndoesEncode(name[1..]);
      var s := EncodeByte(c) + rest;
      if IsPlainChar(c) {
        assert s[0] == c && s[1..] == rest;
      } else {
        assert IsEscape(s) && s[3..] == rest;
        assert c / 16 * 16 + c % 16 == c;
      }
    }
  }

  lemma EncodingIsInjective(a: Bytes, b: Bytes)
    ensures Encoded(a) == Encoded(b) <==> a == b
  {
    DecodeUndoesEncode(a);
    DecodeUndoesEncode(b);
  }

  /** On disk a name has only letters, digits, dots, underscores, dashes and percent signs: no
      path separator, no drive colon, no NUL. */
  lemma {:induction false} EncodingIsFlat(name: Bytes)
    ensures forall c :: c in Encoded(name) ==>
      65 <= c <= 90 || 97 <= c <= 122 || 48 <= c <= 57 || c == 46 || c == 95 || c == 45 || c == 37
    ensures var slash, backslash, colon, nul := 47, 92, 58, 0;
      slash !in Encoded(name) && backslash !in Encoded(name) && colon !in Encoded(name) && nul !in Encoded(name)
  {
    if name != [] { EncodingIsFlat(name[1..]); }
  }

  /** A file name as the encoder would write it: plain characters, and upper-case escapes
      of characters that are not plain. */
  predicate Canonical(s: Bytes)
    decreases |s|
  {
    || s == []
    || (IsPlainChar(s[0]) && Canonical(s[1..]))
    || (IsEscape(s) && !IsPlainChar(Nib(s[1]) * 16 + Nib(s[2])) && IsPlainUpper(s[1]) && IsPlainUpper(s[2])
      && Canonical(s[3..]))
  }

  /** A digit as the encoder writes it. */
  predicate IsPlainUpper(c: Byte) {
    48 <= c <= 57 || 65 <= c <= 70
  }

  lemma PrefixesAgree(a: Bytes, b: Bytes, x: Bytes, y: Bytes)
    requires |a| == |b|
    ensures a + x == b + y <==> a == b && x == y
  {
    assert (a + x)[..|a|] == a && (a + x)[|a|..] == x;
    assert (b + y)[..|b|] == b && (b + y)[|b|..] == y;
  }

  lemma ReencodedEscape(s: Bytes, again: Bytes)
    requires IsEscape(s)
    ensures var c := Nib(s[1]) * 16 + Nib(s[2]);
      EncodeByte(c) + again == s <==>
        !IsPlainChar(c) && IsPlainUpper(s[1]) && IsPlainUpper(s[2]) && again == s[3..]
  {
    var c := Nib(s[1]) * 16 + Nib(s[2]);
    assert s == s[..3] + s[3..] && s[..3] == [PERCENT, s[1], s[2]];
    if IsPlainChar(c) {
      assert (EncodeByte(c) + again)[0] == c;
    } else {
      assert c / 16 == Nib(s[1]) && c % 16 == Nib(s[2]);
      PrefixesAgree(EncodeByte(c), s[..3], again, s[3..]);
    }
  }

  lemma ReencodedOther(s: Bytes, again: Bytes)
    requires s != [] && !IsEscape(s)
    ensures EncodeByte(s[0]) + again == s <==> IsPlainChar(s[0]) && again == s[1..]
  {
    assert s == [s[0]] + s[1..];
    if IsPlainChar(s[0]) {
      PrefixesAgree([s[0]], [s[0]], again, s[1..]);
    } else {
      var e := EncodeByte(s[0]) + again;
      assert e[0] == PERCENT && e[1] == HexDigit(s[0] / 16) && e[2] == HexDigit(s[0] % 16);
      assert IsEscape(e);
    }
  }

  lemma EncodedCons(c: Byte, rest: Bytes)
    ensures Encoded([c] + rest) == EncodeByte(c) + Encoded(rest)
  {
    assert ([c] + rest)[1..] == rest;
  }

  /** A file found on disk keeps its own name across decoding and encoding exactly when
      the encoder could have written that name. */
  lemma {:induction false} ReencodingExactly(s: Bytes)
    ensures Encoded(Decoded(s)) == s <==> Canonical(s)
    decreases |s|
  {
    if s == [] {
    } else if IsEscape(s) {
      ReencodingExactly(s[3..]);
      EncodedCons(Nib(s[1]) * 16 + Nib(s[2]), Decoded(s[3..]));
      ReencodedEscape(s, Encoded(Decoded(s[3..])));
    } else {
      ReencodingExactly(s[1..]);
      EncodedCons(s[0], Decoded(s[1..]));
      ReencodedOther(s, Encoded(Decoded(s[1..])));
    }
  }

  method EncodeName(name: Bytes) returns (out: Bytes)
    ensures out == Encoded(name)
  {
    out := [];
    for i := 0 to |name|
      invariant out + Encoded(name[i..]) == Encoded(name)
    {
      assert name[i..][1..] == name[i + 1..];
      var c := name[i];
      Assoc(out, EncodeByte(c), Encoded(name[i + 1..]));
      ghost var before := out;
      if IsPlainChar(c) && c != PERCENT {
        out := out + [c];
      } else {
        out := out + [PERCENT];
        out := out + [HexDigit(c / 16)];
        out := out + [HexDigit(c % 16)];
      }
      assert out == before + EncodeByte(c);
    }
  }

  method DecodeName(encoded: Bytes) returns (out: Bytes)
    ensures out == Decoded(encoded)
  {
    out := [];
    var i := 0;
    while i < |encoded|
      invariant 0 <= i <= |encoded|
      invariant out + Decoded(encoded[i..]) == Decoded(encoded)
    {
      ghost var rest := encoded[i..];
      assert rest[1..] == encoded[i + 1..];
      if encoded[i] == PERCENT && i + 2 < |encoded| && Nib(encoded[i + 1]) >= 0 && Nib(encoded[i + 2]) >= 0 {
        assert rest[3..] == encoded[i + 3..];
        Assoc(out, [Nib(rest[1]) * 16 + Nib(rest[2])], Decoded(rest[3..]));
        out := out + [Nib(encoded[i + 1]) * 16 + Nib(encoded[i + 2])];
        i := i + 2;
      } else {
        assert !IsEscape(rest);
        Assoc(out, [rest[0]], Decoded(rest[1..]));
        out := out + [encoded[i]];
      }
      i := i + 1;
    }
  }
}
