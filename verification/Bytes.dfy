/** Byte strings, big-endian integers and concatenation. */
module Bytes {
  import opened Modular

  datatype Option<+T> = None | Some(value: T)
  datatype Result<+T, +E> = Ok(value: T) | Err(error: E)

  type byte = x: int | 0 <= x < 256
  type Bytes = seq<byte>
  type B256 = b: Bytes | |b| == 32 witness Zeros(32)
  /** A digest function; nothing is assumed about it. */
  type Hash = Bytes -> B256

  const TWO_64: nat := 0x1_0000_0000_0000_0000
  const TWO_160: nat := 0x1_0000_0000_0000_0000_0000_0000_0000_0000_0000_0000
  const TWO_256: nat := 0x1_0000_0000_0000_0000_0000_0000_0000_0000_0000_0000_0000_0000_0000_0000_0000_0000

  type U64 = x: int | 0 <= x < TWO_64
  type U256 = x: int | 0 <= x < TWO_256
  type Address = x: int | 0 <= x < TWO_160

  function Zeros(n: nat): (r: Bytes)
    ensures |r| == n
  {
    seq(n, (i: nat) => 0 as byte)
  }

  /** The low `width` bytes of `n`, most significant first. */
  function ToBE(n: nat, width: nat): (r: Bytes)
    ensures |r| == width
  {
    if width == 0 then [] else ToBE(n / 256, width - 1) + [n % 256]
  }

  function FromBE(b: Bytes): (n: nat)
  {
    if b == [] then 0 else 256 * FromBE(b[..|b| - 1]) + b[|b| - 1]
  }

  lemma {:induction false} FromBEBound(b: Bytes)
    ensures FromBE(b) < Pow(256, |b|)
  {
    if b != [] {
      FromBEBound(b[..|b| - 1]);
    }
  }

  /** Reading back a number written with enough room. */
  lemma {:induction false} DecodeEncode(n: nat, width: nat)
    requires n < Pow(256, width)
    ensures FromBE(ToBE(n, width)) == n
  {
    if width != 0 {
      assert n / 256 < Pow(256, width - 1);
      DecodeEncode(n / 256, width - 1);
      assert ToBE(n, width)[..width - 1] == ToBE(n / 256, width - 1);
    }
  }

  lemma {:induction false} ZeroBytes(width: nat)
    ensures ToBE(0, width) == Zeros(width)
  {
    if width != 0 {
      ZeroBytes(width - 1);
    }
  }

  /** Writing back a byte string pads it with zeros on the left. */
  lemma {:induction false} EncodeDecode(b: Bytes, width: nat)
    requires |b| <= width
    ensures ToBE(FromBE(b), width) == Zeros(width - |b|) + b
  {
    if b == [] {
      ZeroBytes(width);
    } else {
      var front, last := b[..|b| - 1], b[|b| - 1];
      EncodeDecode(front, width - 1);
      assert FromBE(b) / 256 == FromBE(front) && FromBE(b) % 256 == last;
      assert Zeros(width - |b|) + b == (Zeros(width - |b|) + front) + [last];
    }
  }

  lemma EncodeInjective(m: nat, n: nat, width: nat)
    requires m < Pow(256, width) && n < Pow(256, width) && ToBE(m, width) == ToBE(n, width)
    ensures m == n
  {
    DecodeEncode(m, width);
    DecodeEncode(n, width);
  }

  lemma Widths()
    ensures Pow(256, 8) == TWO_64 && Pow(256, 20) == TWO_160 && Pow(256, 32) == TWO_256
  {
    assert Pow(256, 4) == 0x1_0000_0000;
    PowAdd(256, 4, 4);
    PowAdd(256, 8, 8);
    PowAdd(256, 16, 4);
    PowAdd(256, 16, 16);
  }

  /** A 64-bit number in the low eight bytes of a 32-byte word. */
  function U64Word(n: nat): (r: B256)
  {
    Zeros(24) + ToBE(n, 8)
  }

  function U256Word(n: U256): (r: B256)
  {
    ToBE(n, 32)
  }

  function AddressWord(a: Address): (r: B256)
  {
    Zeros(12) + ToBE(a, 20)
  }

  lemma U64WordInjective(m: nat, n: nat)
    requires m < TWO_64 && n < TWO_64 && U64Word(m) == U64Word(n)
    ensures m == n
  {
    Widths();
    assert U64Word(m)[24..] == ToBE(m, 8) && U64Word(n)[24..] == ToBE(n, 8);
    EncodeInjective(m, n, 8);
  }

  lemma U256WordInjective(m: U256, n: U256)
    requires U256Word(m) == U256Word(n)
    ensures m == n
  {
    Widths();
    EncodeInjective(m, n, 32);
  }

  lemma AddressWordInjective(m: Address, n: Address)
    requires AddressWord(m) == AddressWord(n)
    ensures m == n
  {
    Widths();
    assert AddressWord(m)[12..] == ToBE(m, 20) && AddressWord(n)[12..] == ToBE(n, 20);
    EncodeInjective(m, n, 20);
  }

  function Concat(words: seq<B256>): (r: Bytes)
    ensures |r| == 32 * |words|
  {
    if words == [] then [] else words[0] + Concat(words[1..])
  }

  /** The i-th 32-byte slice of a concatenation is the i-th word. */
  lemma {:induction false} ConcatSlice(words: seq<B256>, i: nat)
    requires i < |words|
    ensures Concat(words)[32 * i..32 * i + 32] == words[i]
  {
    if i == 0 {
      assert Concat(words)[..32] == words[0];
    } else {
      ConcatSlice(words[1..], i - 1);
      assert Concat(words)[32 * i..32 * i + 32] == Concat(words[1..])[32 * (i - 1)..32 * (i - 1) + 32];
    }
  }

  lemma {:induction false} ConcatInjective(a: seq<B256>, b: seq<B256>)
    requires Concat(a) == Concat(b)
    ensures a == b
  {
    assert |a| == |b|;
    forall i | 0 <= i < |a|
      ensures a[i] == b[i]
    {
      ConcatSlice(a, i);
      ConcatSlice(b, i);
    }
  }

  lemma {:induction false} ConcatAppend(a: seq<B256>, w: B256)
    ensures Concat(a + [w]) == Concat(a) + w
  {
    if a == [] {
      assert a + [w] == [w];
      assert Concat([w]) == w + Concat([w][1..]);
    } else {
      ConcatAppend(a[1..], w);
      assert (a + [w])[1..] == a[1..] + [w];
    }
  }

  lemma SplitEqual(a: Bytes, b: Bytes, c: Bytes, d: Bytes)
    requires a + b == c + d && |a| == |c|
    ensures a == c && b == d
  {
    assert (a + b)[..|a|] == a && (c + d)[..|c|] == c;
    assert (a + b)[|a|..] == b && (c + d)[|c|..] == d;
  }

  ghost predicate Clash(h: Hash, x: Bytes, y: Bytes)
  {
    x != y && h(x) == h(y)
  }

  /** Two different strings, one hashed on each side, with the same digest. */
  ghost predicate Collide(h: Hash, a: set<Bytes>, b: set<Bytes>)
  {
    exists x, y {:trigger Clash(h, x, y)} :: x in a && y in b && Clash(h, x, y)
  }

  lemma NoCollision(h: Hash, a: set<Bytes>, b: set<Bytes>, a': set<Bytes>, b': set<Bytes>)
    requires !Collide(h, a', b') && a <= a' && b <= b'
    ensures !Collide(h, a, b)
  {
  }

  /** Equal digests of strings hashed on the two sides: equal strings or a collision. */
  lemma EqualOrCollide(h: Hash, x: Bytes, y: Bytes, a: set<Bytes>, b: set<Bytes>)
    requires h(x) == h(y) && x in a && y in b
    ensures x == y || Collide(h, a, b)
  {
    if x != y {
      assert Clash(h, x, y);
    }
  }
}
