/** Recursive length prefix encoding, Appendix B of the Ethereum Yellow Paper, with a decoder. */
module Rlp {
  import opened Modular
  import opened Bytes

  datatype Item = Str(bytes: Bytes) | Lst(items: seq<Item>)

  /** The shortest big-endian form; zero is the empty string. */
  function MinBE(n: nat): (r: Bytes)
  {
    if n == 0 then [] else MinBE(n / 256) + [n % 256]
  }

  lemma {:induction false} MinBERead(n: nat)
    ensures FromBE(MinBE(n)) == n
  {
    if n > 0 {
      MinBERead(n / 256);
      var b := MinBE(n);
      assert b[..|b| - 1] == MinBE(n / 256);
    }
  }

  lemma {:induction false} MinBELength(n: nat, k: nat)
    requires n < Pow(256, k)
    ensures |MinBE(n)| <= k && (n > 0 ==> |MinBE(n)| >= 1)
  {
    if n > 0 {
      assert k > 0;
      assert n / 256 < Pow(256, k - 1);
      MinBELength(n / 256, k - 1);
    }
  }

  /** The first byte of a long header; a 64-bit length has at most eight bytes. */
  function LongTag(list: bool, k: nat): byte
  {
    if k > 8 then 0 else if list then 0xf7 + k else 0xb7 + k
  }

  /** The header of a payload of n bytes, given the bytes of n. */
  function HeaderWith(list: bool, n: nat, length: Bytes): (r: Bytes)
    ensures |r| >= 1
  {
    if n < 56 then [(if list then 0xc0 else 0x80) + n] else [LongTag(list, |length|)] + length
  }

  function Header(list: bool, n: nat): (r: Bytes)
    ensures |r| >= 1
  {
    HeaderWith(list, n, MinBE(n))
  }

  function EncodeString(b: Bytes): Bytes
  {
    if |b| == 1 && b[0] < 0x80 then b else Header(false, |b|) + b
  }

  function EncodeList(payload: Bytes): Bytes
  {
    Header(true, |payload|) + payload
  }

  function Encode(x: Item): (r: Bytes)
    decreases x
  {
    match x
    case Str(b) => EncodeString(b)
    case Lst(xs) => EncodeList(EncodeAll(xs))
  }

  function EncodeAll(xs: seq<Item>): Bytes
    decreases xs
  {
    if xs == [] then [] else Encode(xs[0]) + EncodeAll(xs[1..])
  }

  lemma SmallLengths(n: nat)
    ensures 0 < n < 256 ==> MinBE(n) == [n]
    ensures 256 <= n < 65536 ==> MinBE(n) == [n / 256, n % 256]
  {
    if 256 <= n < 65536 {
      SmallLengths(n / 256);
    }
  }

  /** The string encodings of the Yellow Paper, length class by length class. */
  lemma EncodesByTheBook(b: Bytes)
    ensures Encode(Str([])) == [0x80] && Encode(Lst([])) == [0xc0]
    ensures |b| == 1 && b[0] < 0x80 ==> Encode(Str(b)) == b
    ensures |b| == 1 && b[0] >= 0x80 ==> Encode(Str(b)) == [0x81] + b
    ensures 2 <= |b| < 56 ==> Encode(Str(b)) == [0x80 + |b|] + b
    ensures 56 <= |b| < 256 ==> Encode(Str(b)) == [0xb8, |b|] + b
    ensures 256 <= |b| < 65536 ==> Encode(Str(b)) == [0xb9, |b| / 256, |b| % 256] + b
  {
    SmallLengths(|b|);
  }

  /** A list of one item is its encoding under the list header of its length class. */
  lemma ListsByTheBook(x: Item)
    ensures var e := Encode(x);
            && (|e| < 56 ==> Encode(Lst([x])) == [0xc0 + |e|] + e)
            && (56 <= |e| < 256 ==> Encode(Lst([x])) == [0xf8, |e|] + e)
            && (256 <= |e| < 65536 ==> Encode(Lst([x])) == [0xf9, |e| / 256, |e| % 256] + e)
  {
    var e := Encode(x);
    assert [x][1..] == [] && EncodeAll([x]) == e + [] == e;
    SmallLengths(|e|);
  }

  // ----- The decoder -----

  /** What a first byte announces: whether a list, the header size and the payload size. */
  datatype Shape = Shape(list: bool, header: nat, payload: nat)

  function ReadHeader(b: Bytes): Option<Shape>
  {
    if b == [] then None
    else if b[0] < 0x80 then Some(Shape(false, 0, 1))
    else if b[0] < 0xb8 then Some(Shape(false, 1, b[0] - 0x80))
    else if b[0] < 0xc0 then
      var k := b[0] - 0xb7;
      if 1 + k > |b| then None else Some(Shape(false, 1 + k, FromBE(b[1..1 + k])))
    else if b[0] < 0xf8 then Some(Shape(true, 1, b[0] - 0xc0))
    else
      var k := b[0] - 0xf7;
      if 1 + k > |b| then None else Some(Shape(true, 1 + k, FromBE(b[1..1 + k])))
  }

  /** One item and what follows it. */
  function Decode(b: Bytes): (r: Option<(Item, Bytes)>)
    ensures r.Some? ==> |r.value.1| < |b|
    decreases |b|, 0
  {
    match ReadHeader(b)
    case None => None
    case Some(Shape(list, header, payload)) =>
      if header + payload > |b| || header + payload == 0 then None
      else
        var body, rest := b[header..header + payload], b[header + payload..];
        if !list then Some((Str(body), rest))
        else if header == 0 then None
        else
          match DecodeAll(body)
          case None => None
          case Some(xs) => Some((Lst(xs), rest))
  }

  function DecodeAll(b: Bytes): Option<seq<Item>>
    decreases |b|, 1
  {
    if b == [] then Some([])
    else
      match Decode(b)
      case None => None
      case Some((x, rest)) =>
        match DecodeAll(rest)
        case None => None
        case Some(xs) => Some([x] + xs)
  }

  // ----- Round trip -----

  lemma MinBE64(n: nat)
    requires 0 < n < TWO_64
    ensures 1 <= |MinBE(n)| <= 8 && FromBE(MinBE(n)) == n
  {
    assert n < Pow(256, 8) by {
      Widths();
    }
    MinBELength(n, 8);
    MinBERead(n);
  }

  /** A header followed by its payload reads back. */
  lemma HeaderWithReads(list: bool, n: nat, length: Bytes, tail: Bytes)
    requires n >= 56 ==> 1 <= |length| <= 8 && FromBE(length) == n
    ensures ReadHeader(HeaderWith(list, n, length) + tail) == Some(Shape(list, |HeaderWith(list, n, length)|, n))
  {
    if n >= 56 {
      var all := HeaderWith(list, n, length) + tail;
      assert all[0] == LongTag(list, |length|) && all[1..1 + |length|] == length;
    }
  }

  lemma HeaderReads(list: bool, n: nat, tail: Bytes)
    requires n < TWO_64
    ensures ReadHeader(Header(list, n) + tail) == Some(Shape(list, |Header(list, n)|, n))
  {
    if n >= 56 {
      MinBE64(n);
    }
    HeaderWithReads(list, n, MinBE(n), tail);
  }

  lemma StringRoundTrip(b: Bytes, rest: Bytes)
    requires |b| < TWO_64
    ensures Decode(EncodeString(b) + rest) == Some((Str(b), rest))
  {
    var all := EncodeString(b) + rest;
    if |b| == 1 && b[0] < 0x80 {
      assert all[0..1] == b && all[1..] == rest;
    } else {
      var h := Header(false, |b|);
      assert all == h + (b + rest);
      HeaderReads(false, |b|, b + rest);
      assert all[|h|..|h| + |b|] == b && all[|h| + |b|..] == rest;
    }
  }

  lemma ListRoundTrip(xs: seq<Item>, rest: Bytes)
    requires |EncodeAll(xs)| < TWO_64 && DecodeAll(EncodeAll(xs)) == Some(xs)
    ensures Decode(Encode(Lst(xs)) + rest) == Some((Lst(xs), rest))
  {
    var payload := EncodeAll(xs);
    var h := Header(true, |payload|);
    var all := EncodeList(payload) + rest;
    assert all == h + (payload + rest);
    HeaderReads(true, |payload|, payload + rest);
    assert all[|h|..|h| + |payload|] == payload && all[|h| + |payload|..] == rest;
  }

  /** Decoding what was encoded gives back the item and leaves what followed. */
  lemma {:induction false} RoundTrip(x: Item, rest: Bytes)
    requires |Encode(x)| < TWO_64
    ensures Decode(Encode(x) + rest) == Some((x, rest))
    decreases x
  {
    match x
    case Str(b) => StringRoundTrip(b, rest);
    case Lst(xs) =>
      RoundTripAll(xs);
      ListRoundTrip(xs, rest);
  }

  lemma {:induction false} RoundTripAll(xs: seq<Item>)
    requires |EncodeAll(xs)| < TWO_64
    ensures DecodeAll(EncodeAll(xs)) == Some(xs)
    decreases xs
  {
    if xs != [] {
      RoundTrip(xs[0], EncodeAll(xs[1..]));
      RoundTripAll(xs[1..]);
      EncodeNonEmpty(xs[0]);
      assert [xs[0]] + xs[1..] == xs;
    }
  }

  lemma EncodeNonEmpty(x: Item)
    ensures Encode(x) != []
  {
  }

  /** No two items of addressable size have the same encoding. */
  lemma EncodeInjective(x: Item, y: Item)
    requires |Encode(x)| < TWO_64 && Encode(x) == Encode(y)
    ensures x == y
  {
    RoundTrip(x, []);
    RoundTrip(y, []);
  }
}
