/** The string keys under which connections and streams are stored, and the erasure of
    all streams of one connection by key prefix. */
module StreamKeys {
  import opened Basics
  import opened RecvStream
  import opened SendStream

  const NUL: Byte := 0
  const ORDERED_TAG: Byte := 79
  const UNORDERED_TAG: Byte := 85
  const SOCKET_NAME_SIZE: nat := 33

  ghost predicate NulFree(s: Bytes) {
    forall i :: 0 <= i < |s| ==> s[i] != NUL
  }

  function ConnKey(peer: Bytes, socket: Bytes): Bytes {
    peer + [NUL] + socket
  }

  function StreamKey(peer: Bytes, socket: Bytes, channel: Byte, ordered: bool): Bytes {
    ConnKey(peer, socket) + [NUL] + [channel] + [if ordered then ORDERED_TAG else UNORDERED_TAG]
  }

  /** A socket name as the fixed-size structure holds it: up to its first NUL. */
  method SocketName(raw: Bytes) returns (name: Bytes)
    requires |raw| == SOCKET_NAME_SIZE
    ensures NulFree(name) && |name| < SOCKET_NAME_SIZE && name <= raw
    ensures |name| < SOCKET_NAME_SIZE - 1 ==> raw[|name|] == NUL
  {
    var len := 0;
    while len < SOCKET_NAME_SIZE - 1 && raw[len] != NUL
      invariant 0 <= len < SOCKET_NAME_SIZE
      invariant forall i :: 0 <= i < len ==> raw[i] != NUL
    {
      len := len + 1;
    }
    return raw[..len];
  }

  /** Two keys that agree up to a NUL after NUL-free parts agree on the parts. */
  lemma SplitAtNul(a: Bytes, b: Bytes, restA: Bytes, restB: Bytes)
    requires NulFree(a) && NulFree(b)
    requires a + [NUL] + restA == b + [NUL] + restB
    ensures a == b && restA == restB
  {
    var whole := a + [NUL] + restA;
    assert whole[|a|] == NUL && whole[|b|] == NUL;
    assert a == whole[..|a|] && b == whole[..|b|];
    assert restA == whole[|a| + 1..] && restB == whole[|b| + 1..];
  }

  /** The bytes of (p', s') read with an earlier separator: a NUL inside the peer id p' is
      taken for the one that ends it. */
  predicate Nested(p: Bytes, s: Bytes, p': Bytes, s': Bytes) {
    p + [NUL] <= p' && s == p'[|p| + 1..] + [NUL] + s'
  }

  /** The connections that share a key. */
  predicate SameKey(p: Bytes, s: Bytes, p': Bytes, s': Bytes) {
    (p == p' && s == s') || Nested(p, s, p', s') || Nested(p', s', p, s)
  }

  lemma NestedSharesKey(p: Bytes, s: Bytes, p': Bytes, s': Bytes)
    requires Nested(p, s, p', s')
    ensures ConnKey(p, s) == ConnKey(p', s')
  {
    assert p' == p + [NUL] + p'[|p| + 1..];
  }

  lemma ShorterPeerNests(p: Bytes, s: Bytes, p': Bytes, s': Bytes)
    requires ConnKey(p, s) == ConnKey(p', s') && |p| < |p'|
    ensures Nested(p, s, p', s')
  {
    var whole, whole' := p + ([NUL] + s), p' + ([NUL] + s');
    assert whole == ConnKey(p, s) && whole' == ConnKey(p', s');
    assert p == whole[..|p|] && p' == whole[..|p'|];
    assert whole[|p|] == NUL;
    assert p + [NUL] == whole[..|p| + 1];
    assert s == whole[|p| + 1..] && whole' == whole;
    assert whole'[|p| + 1..] == p'[|p| + 1..] + [NUL] + s';
  }

  /** For any peer ids and socket names, also ones with NULs inside as the wire can carry
      them: exactly which connections share a key. */
  lemma ConnKeyExactly(p: Bytes, s: Bytes, p': Bytes, s': Bytes)
    ensures ConnKey(p, s) == ConnKey(p', s') <==> SameKey(p, s, p', s')
  {
    if ConnKey(p, s) == ConnKey(p', s') {
      if |p| < |p'| {
        ShorterPeerNests(p, s, p', s');
      } else if |p'| < |p| {
        ShorterPeerNests(p', s', p, s);
      } else {
        assert p == ConnKey(p, s)[..|p|] && p' == ConnKey(p', s')[..|p|];
        assert s == ConnKey(p, s)[|p| + 1..] && s' == ConnKey(p', s')[|p| + 1..];
      }
    } else if Nested(p, s, p', s') {
      NestedSharesKey(p, s, p', s');
    } else if Nested(p', s', p, s) {
      NestedSharesKey(p', s', p, s);
    }
  }

  /** Two streams share a key exactly when their channels and modes agree and their
      connections share one. */
  lemma StreamKeyExactly(p: Bytes, s: Bytes, c: Byte, o: bool, p': Bytes, s': Bytes, c': Byte, o': bool)
    ensures StreamKey(p, s, c, o) == StreamKey(p', s', c', o') <==> c == c' && o == o' && SameKey(p, s, p', s')
  {
    ConnKeyExactly(p, s, p', s');
    var a, b := StreamKey(p, s, c, o), StreamKey(p', s', c', o');
    if a == b {
      assert a[|a| - 2] == c && b[|b| - 2] == c';
      assert a[|a| - 1] == (if o then ORDERED_TAG else UNORDERED_TAG)
          && b[|b| - 1] == (if o' then ORDERED_TAG else UNORDERED_TAG);
      assert ConnKey(p, s) == a[..|a| - 3] && ConnKey(p', s') == b[..|b| - 3];
    }
  }

  /** Distinct streams never share a key, as long as peer ids hold no NUL; the socket
      name may be any bytes. */
  lemma StreamKeyInjective(p: Bytes, s: Bytes, c: Byte, o: bool, p': Bytes, s': Bytes, c': Byte, o': bool)
    requires NulFree(p) && NulFree(p')
    requires StreamKey(p, s, c, o) == StreamKey(p', s', c', o')
    ensures p == p' && s == s' && c == c' && o == o'
  {
    StreamKeyExactly(p, s, c, o, p', s', c', o');
    assert (p + [NUL])[|p|] == NUL && (p' + [NUL])[|p'|] == NUL;
  }

  function ConnPrefix(peer: Bytes, socket: Bytes): Bytes {
    ConnKey(peer, socket) + [NUL]
  }

  /** What the prefix made of one connection's key, or of a socket name, matches: its own;
      what continues it after a NUL; and channel 0 of what it extends by one NUL. */
  predicate Covers(a: Bytes, b: Bytes, c: Byte) {
    a == b || a + [NUL] <= b || (a == b + [NUL] && c == NUL)
  }

  lemma PrefixCovers(a: Bytes, b: Bytes, c: Byte, tag: Byte)
    requires tag != NUL
    ensures a + [NUL] <= b + [NUL, c, tag] <==> Covers(a, b, c)
  {
    var short, long := a + [NUL], b + [NUL, c, tag];
    if |a| < |b| {
      assert long[..|short|] == b[..|short|];
    } else if short <= long {
      assert b == long[..|b|] == a[..|b|];
      assert short[|a|] == long[|a|];
      if |a| == |b| {
        assert a == b;
      } else if |a| == |b| + 1 {
        assert a[|b|] == long[|b|] == NUL;
        assert a == b + [NUL];
      }
    } else {
      assert long[..|b| + 1] == b + [NUL];
      if c == NUL { assert long[..|b| + 2] == b + [NUL] + [NUL]; }
    }
  }

  /** For any peer ids and socket names, also ones with NULs inside: exactly which streams
      the prefix of a connection matches. */
  lemma PrefixMatchesExactly(peer: Bytes, socket: Bytes, p: Bytes, s: Bytes, c: Byte, o: bool)
    ensures ConnPrefix(peer, socket) <= StreamKey(p, s, c, o) <==> Covers(ConnKey(peer, socket), ConnKey(p, s), c)
  {
    var tag := if o then ORDERED_TAG else UNORDERED_TAG;
    assert StreamKey(p, s, c, o) == ConnKey(p, s) + [NUL, c, tag];
    PrefixCovers(ConnKey(peer, socket), ConnKey(p, s), c, tag);
  }

  lemma SharedPeer(peer: Bytes, p: Bytes, x: Bytes, y: Bytes)
    requires NulFree(peer) && NulFree(p)
    ensures peer + [NUL] + x <= p + [NUL] + y <==> p == peer && x <= y
  {
    var long := p + [NUL] + y;
    if peer + [NUL] + x <= long {
      var rest := long[|peer + [NUL] + x|..];
      assert long == peer + [NUL] + (x + rest);
      SplitAtNul(peer, p, x + rest, y);
    }
    if p == peer && x <= y {
      assert long[..|peer + [NUL] + x|] == peer + [NUL] + x;
    }
  }

  /** For peer ids without NULs the prefix stays with its peer, and covers socket names as
      it covers keys. */
  lemma PrefixStaysWithPeer(peer: Bytes, socket: Bytes, p: Bytes, s: Bytes, c: Byte, o: bool)
    requires NulFree(peer) && NulFree(p)
    ensures ConnPrefix(peer, socket) <= StreamKey(p, s, c, o) <==> p == peer && Covers(socket, s, c)
  {
    var tag := if o then ORDERED_TAG else UNORDERED_TAG;
    assert StreamKey(p, s, c, o) == p + [NUL] + (s + [NUL, c, tag]);
    assert ConnPrefix(peer, socket) == peer + [NUL] + (socket + [NUL]);
    SharedPeer(peer, p, socket + [NUL], s + [NUL, c, tag]);
    PrefixCovers(socket, s, c, tag);
  }

  /** The prefix of one connection matches that connection's streams and no others, for
      names without NULs: socket "CHAT" does not match "CHATX". */
  lemma PrefixMatchesOwnStreams(peer: Bytes, socket: Bytes, p: Bytes, s: Bytes, c: Byte, o: bool)
    requires NulFree(peer) && NulFree(socket) && NulFree(p) && NulFree(s)
    ensures ConnPrefix(peer, socket) <= StreamKey(p, s, c, o) <==> p == peer && s == socket
  {
    PrefixStaysWithPeer(peer, socket, p, s, c, o);
    assert (socket + [NUL])[|socket|] == NUL && (s + [NUL])[|s|] == NUL;
  }

  /** A NUL inside a socket name defeats the prefix in two ways: clearing a socket also
      matches the streams of every name that continues it after a NUL, and clearing a name
      that ends in a NUL matches channel 0 of the name without it. A NUL inside a peer id
      makes it match another peer's streams. */
  lemma PrefixNeedsNulFreeNames(peer: Bytes, socket: Bytes, more: Bytes, s: Bytes, c: Byte, o: bool)
    ensures ConnPrefix(peer, socket) <= StreamKey(peer, socket + [NUL] + more, c, o)
    ensures ConnPrefix(peer, socket + [NUL]) <= StreamKey(peer, socket, NUL, o)
    ensures ConnPrefix(peer, socket) <= StreamKey(peer + [NUL] + socket, s, c, o)
  {
    PrefixMatchesExactly(peer, socket, peer, socket + [NUL] + more, c, o);
    assert ConnKey(peer, socket + [NUL] + more) == ConnKey(peer, socket) + [NUL] + more;
    PrefixMatchesExactly(peer, socket + [NUL], peer, socket, NUL, o);
    assert ConnKey(peer, socket + [NUL]) == ConnKey(peer, socket) + [NUL];
    PrefixMatchesExactly(peer, socket, peer + [NUL] + socket, s, c, o);
    assert ConnKey(peer + [NUL] + socket, s) == ConnKey(peer, socket) + [NUL] + s;
  }

  ghost function Without<V>(m: map<Bytes, V>, prefix: Bytes): map<Bytes, V> {
    map k | k in m && !(prefix <= k) :: m[k]
  }

  /** The streams of all connections, by key. */
  class StreamTables {
    var sends: map<Bytes, SendState>
    var recvs: map<Bytes, RecvState>

    method ClearStreams(peer: Bytes, socket: Bytes)
      modifies this
      ensures sends == Without(old(sends), ConnPrefix(peer, socket))
      ensures recvs == Without(old(recvs), ConnPrefix(peer, socket))
    {
      var prefix := ConnKey(peer, socket);
      prefix := prefix + [NUL];
      sends := EraseByPrefix(sends, prefix);
      recvs := EraseByPrefix(recvs, prefix);
    }
  }

  method EraseByPrefix<V>(m: map<Bytes, V>, prefix: Bytes) returns (r: map<Bytes, V>)
    ensures r == Without(m, prefix)
  {
    r := m;
    var left := m.Keys;
    while left != {}
      invariant left <= m.Keys && r.Keys <= m.Keys
      invariant forall k :: k in m ==> (k in r <==> k in left || !(prefix <= k))
      invariant forall k :: k in r ==> r[k] == m[k]
      decreases left
    {
      var k :| k in left;
      left := left - {k};
      if |k| >= |prefix| && k[..|prefix|] == prefix {
        r := r - {k};
      }
    }
  }

  /** Clearing one connection's streams keeps exactly the streams its prefix does not cover,
      whatever the peer ids and socket names. */
  lemma ClearErasesExactly<V>(m: map<Bytes, V>, peer: Bytes, socket: Bytes, p: Bytes, s: Bytes, c: Byte, o: bool)
    requires StreamKey(p, s, c, o) in m
    ensures StreamKey(p, s, c, o) in Without(m, ConnPrefix(peer, socket))
      <==> !Covers(ConnKey(peer, socket), ConnKey(p, s), c)
  {
    PrefixMatchesExactly(peer, socket, p, s, c, o);
  }
}
