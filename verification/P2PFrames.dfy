/** The frames of the reliable layer: data with the low half of its number, and
    acknowledgements with a packed selective mask. */
module P2PFrames {
  import opened Basics
  import opened ByteCodec
  import opened AttributeCodec
  import opened RecvStream

  const UNRELIABLE_UNORDERED: Byte := 0
  const RELIABLE_ORDERED: Byte := 2

  datatype DataFrame = DataFrame(sender: Bytes, socket: Bytes, channel: Byte, mode: Byte, wireSeq: U32, data: Bytes)
  datatype AckFrame = AckFrame(sender: Bytes, socket: Bytes, channel: Byte, ordered: bool, wireUpTo: U32, sack: Mask32)

  // ---- the selective mask as a 32-bit word --------------------------------------

  function Value(bits: seq<bool>): nat {
    if bits == [] then 0 else (if bits[0] then 1 else 0) + 2 * Value(bits[1..])
  }

  function Bits(n: nat, count: nat): (bits: seq<bool>)
    ensures |bits| == count
  {
    if count == 0 then [] else [n % 2 == 1] + Bits(n / 2, count - 1)
  }

  lemma {:induction false} ValueFits(bits: seq<bool>)
    ensures Value(bits) < Pow2(|bits|)
  {
    if bits != [] { ValueFits(bits[1..]); }
  }

  lemma {:induction false} BitsOfValue(bits: seq<bool>)
    ensures Bits(Value(bits), |bits|) == bits
  {
    if bits != [] { BitsOfValue(bits[1..]); }
  }

  function Pack(m: Mask32): U32 {
    ValueFits(m);
    Pow2Of32();
    Value(m)
  }

  lemma Pow2Of32()
    ensures Pow2(32) == TWO_32
  {
    assert Pow2(8) == 0x100;
    assert Pow2(16) == 0x1_0000;
    assert Pow2(24) == 0x100_0000;
  }

  function Unpack(n: U32): Mask32 {
    Bits(n, 32)
  }

  // ---- grammar --------------------------------------------------------------------

  function PutData(f: DataFrame): Bytes {
    PutStr(f.sender) + (PutStr(f.socket) + ([f.channel] + ([f.mode] + (PutU32(f.wireSeq) + PutStr(f.data)))))
  }

  function PutAck(f: AckFrame): Bytes {
    PutStr(f.sender)
    + (PutStr(f.socket)
       + ([f.channel] + ([if f.ordered then 1 else 0] + (PutU32(f.wireUpTo) + PutU32(Pack(f.sack))))))
  }

  datatype Names = Names(sender: Bytes, socket: Bytes)

  /** Every frame starts with its sender and socket. */
  function ParseNames(s: Bytes): Parse<Names> {
    var (sender, s) :- ParseStr(s);
    var (socket, s) :- ParseStr(s);
    Parsed(Names(sender, socket), s)
  }

  /** Frames with an empty sender or socket are dropped. */
  function ParseData(s: Bytes): Parse<DataFrame> {
    var (names, s) :- ParseNames(s);
    if !Addressed(names.sender, names.socket) then Fail
    else ParseDataBody(names.sender, names.socket, s)
  }

  function ParseDataBody(sender: Bytes, socket: Bytes, s: Bytes): Parse<DataFrame> {
    var (channel, s) :- ParseU8(s);
    var (mode, s) :- ParseU8(s);
    var (wireSeq, s) :- ParseU32(s);
    var (data, s) :- ParseStr(s);
    Parsed(DataFrame(sender, socket, channel, mode, wireSeq, data), s)
  }

  function ParseAck(s: Bytes): Parse<AckFrame> {
    var (names, s) :- ParseNames(s);
    if !Addressed(names.sender, names.socket) then Fail
    else
      var (channel, s) :- ParseU8(s);
      var (ordered, s) :- ParseU8(s);
      var (wireUpTo, s) :- ParseU32(s);
      var (sack, s) :- ParseU32(s);
      Parsed(AckFrame(names.sender, names.socket, channel, ordered != 0, wireUpTo, Unpack(sack)), s)
  }

  predicate Addressed(sender: Bytes, socket: Bytes) {
    sender != [] && socket != []
  }

  lemma DataFrameRoundTrip(f: DataFrame, tail: Bytes)
    requires |PutData(f)| < TWO_32
    ensures ParseData(PutData(f) + tail) == if Addressed(f.sender, f.socket) then Parsed(f, tail) else Fail
  {
    var a, b, c, d, e, g := PutStr(f.sender), PutStr(f.socket), [f.channel], [f.mode], PutU32(f.wireSeq),
        PutStr(f.data);
    Assoc(a, b + (c + (d + (e + g))), tail);
    Assoc(b, c + (d + (e + g)), tail);
    Assoc(c, d + (e + g), tail);
    Assoc(d, e + g, tail);
    Assoc(e, g, tail);
    StrRoundTrip(f.sender, b + (c + (d + (e + (g + tail)))));
    StrRoundTrip(f.socket, c + (d + (e + (g + tail))));
    ByteRoundTrip(f.channel, d + (e + (g + tail)));
    ByteRoundTrip(f.mode, e + (g + tail));
    U32RoundTrip(f.wireSeq, g + tail);
    StrRoundTrip(f.data, tail);
  }

  /** The acknowledgement arrives with every bit of the mask in its place. */
  lemma AckFrameRoundTrip(f: AckFrame, tail: Bytes)
    requires |PutAck(f)| < TWO_32
    ensures ParseAck(PutAck(f) + tail) == if Addressed(f.sender, f.socket) then Parsed(f, tail) else Fail
  {
    var flag: Byte := if f.ordered then 1 else 0;
    var a, b, c, d, e, g := PutStr(f.sender), PutStr(f.socket), [f.channel], [flag], PutU32(f.wireUpTo),
        PutU32(Pack(f.sack));
    Assoc(a, b + (c + (d + (e + g))), tail);
    Assoc(b, c + (d + (e + g)), tail);
    Assoc(c, d + (e + g), tail);
    Assoc(d, e + g, tail);
    Assoc(e, g, tail);
    StrRoundTrip(f.sender, b + (c + (d + (e + (g + tail)))));
    StrRoundTrip(f.socket, c + (d + (e + (g + tail))));
    ByteRoundTrip(f.channel, d + (e + (g + tail)));
    ByteRoundTrip(flag, e + (g + tail));
    U32RoundTrip(f.wireUpTo, g + tail);
    U32RoundTrip(Pack(f.sack), tail);
    BitsOfValue(f.sack);
  }

  /** Which stream a data frame belongs to: any nonzero mode is reliable, and exactly
      mode 2 is ordered. */
  method OnDataFrame(payload: Bytes) returns (f: Option<DataFrame>, reliable: bool, ordered: bool)
    ensures f == (if ParseData(payload).Fail? then None else Some(ParseData(payload).value))
    ensures f.Some? ==> (reliable <==> f.value.mode != UNRELIABLE_UNORDERED)
    ensures f.Some? ==> (ordered <==> f.value.mode == RELIABLE_ORDERED)
  {
    reliable, ordered := false, false;
    f := ReadDataFrame(payload);
    if f.Some? {
      reliable := f.value.mode != UNRELIABLE_UNORDERED;
      ordered := f.value.mode == RELIABLE_ORDERED;
    }
  }

  method ReadDataFrame(payload: Bytes) returns (f: Option<DataFrame>)
    ensures f == (if ParseData(payload).Fail? then None else Some(ParseData(payload).value))
  {
    var r := new ByteReader(payload);
    var names := ReadNames(r);
    if !r.ok || names.sender == [] || names.socket == [] {
      return None;
    }
    var frame := ReadDataBody(r, names.sender, names.socket);
    f := if r.ok then Some(frame) else None;
  }

  method ReadNames(r: ByteReader) returns (names: Names)
    requires r.Valid()
    modifies r
    ensures r.Valid() && Follows(old(r.View()), r.View(), ParseNames, names)
  {
    var sender := r.Str();
    var socket := r.Str();
    names := Names(sender, socket);
  }

  method ReadDataBody(r: ByteReader, sender: Bytes, socket: Bytes) returns (f: DataFrame)
    requires r.Valid()
    modifies r
    ensures r.Valid() && Follows(old(r.View()), r.View(), (s: Bytes) => ParseDataBody(sender, socket, s), f)
  {
    var channel := r.U8();
    var mode := r.U8();
    var wireSeq := r.U32();
    var data := r.Str();
    f := DataFrame(sender, socket, channel, mode, wireSeq, data);
  }
}
