/** Packing canonical bytes into 4096 field elements of at most 31 payload bytes per blob, and unpacking. */
module BlobPacking {
  import opened Modular
  import opened Bytes

  const FIELD_ELEMENTS_PER_BLOB: nat := 4096
  const BYTES_PER_FIELD_ELEMENT: nat := 31
  const BYTES_PER_BLOB: nat := 126976
  /** The order of the BLS12-381 scalar field. */
  const BLS_MODULUS: nat := 0x73eda753299d7d483339d80809a1d80553bda402fffe5bfeffffffff00000001

  function Min(a: int, b: int): int
  {
    if a < b then a else b
  }

  /** The payload of the f-th field element counted over all blobs. */
  function Payload(data: Bytes, f: nat): (r: Bytes)
    ensures |r| <= BYTES_PER_FIELD_ELEMENT
  {
    var start := f * BYTES_PER_FIELD_ELEMENT;
    if start >= |data| then [] else data[start..Min(start + BYTES_PER_FIELD_ELEMENT, |data|)]
  }

  /** `scalar_from_be`: a big-endian word is a scalar exactly when it is below the modulus. */
  function ScalarFromBE(word: B256): Option<nat>
  {
    if FromBE(word) < BLS_MODULUS then Some(FromBE(word)) else None
  }

  function ScalarToBE(value: nat): (r: B256)
  {
    ToBE(value, 32)
  }

  lemma PayloadBelowModulus(b: Bytes)
    requires |b| <= BYTES_PER_FIELD_ELEMENT
    ensures FromBE(b) < BLS_MODULUS
  {
    FromBEBound(b);
    PowMonotone(256, |b|, 31);
    assert Pow(256, 4) == 0x1_0000_0000;
    PowAdd(256, 4, 4);
    PowAdd(256, 8, 8);
    PowAdd(256, 16, 8);
    PowAdd(256, 24, 4);
    PowAdd(256, 28, 3);
    assert Pow(256, 3) == 0x100_0000;
  }

  /** A left-padded payload is a canonical scalar whose value is the payload's. */
  lemma PaddedWord(b: Bytes)
    requires |b| <= BYTES_PER_FIELD_ELEMENT
    ensures |Zeros(32 - |b|) + b| == 32
    ensures ScalarFromBE(Zeros(32 - |b|) + b) == Some(FromBE(b))
  {
    var word := Zeros(32 - |b|) + b;
    EncodeDecode(b, 32);
    FromBEBound(b);
    PowMonotone(256, |b|, 32);
    DecodeEncode(FromBE(b), 32);
    PayloadBelowModulus(b);
  }

  /** The f-th field element over all blobs. */
  function FieldValue(data: Bytes, f: nat): (v: nat)
    ensures v < BLS_MODULUS
  {
    PayloadBelowModulus(Payload(data, f));
    FromBE(Payload(data, f))
  }

  /** One field element: left-pad the payload, and the word is always a canonical scalar. */
  method ReadFieldElement(data: Bytes, start: nat, ghost f: nat) returns (v: nat)
    requires start == f * BYTES_PER_FIELD_ELEMENT < |data|
    ensures v == FieldValue(data, f)
  {
    var end := Min(start + BYTES_PER_FIELD_ELEMENT, |data|);
    PaddedWord(data[start..end]);
    var scalar := ScalarFromBE(Zeros(32 - (end - start)) + data[start..end]);
    assert scalar.Some?;
    v := scalar.value;
  }

  lemma PastTheEnd(data: Bytes, f: nat, g: nat)
    requires f <= g && f * BYTES_PER_FIELD_ELEMENT >= |data|
    ensures FieldValue(data, g) == 0
  {
  }

  /** Field elements of one blob: those past the end of the data stay zero. */
  method BlobFieldValues(data: Bytes, blobIndex: nat) returns (values: seq<nat>)
    ensures |values| == FIELD_ELEMENTS_PER_BLOB
    ensures forall i :: 0 <= i < |values| ==> values[i] == FieldValue(data, blobIndex * FIELD_ELEMENTS_PER_BLOB + i)
  {
    var blobStart := blobIndex * BYTES_PER_BLOB;
    ghost var first := blobIndex * FIELD_ELEMENTS_PER_BLOB;
    values := seq(FIELD_ELEMENTS_PER_BLOB, (i: nat) => 0);
    var i := 0;
    while i < FIELD_ELEMENTS_PER_BLOB
      invariant 0 <= i <= FIELD_ELEMENTS_PER_BLOB == |values|
      invariant forall j :: 0 <= j < i ==> values[j] == FieldValue(data, first + j)
      invariant forall j :: i <= j < FIELD_ELEMENTS_PER_BLOB ==> values[j] == 0
    {
      var start := blobStart + i * BYTES_PER_FIELD_ELEMENT;
      if start >= |data| {
        forall f | first + i <= f
          ensures FieldValue(data, f) == 0
        {
          PastTheEnd(data, first + i, f);
        }
        break;
      }
      var v := ReadFieldElement(data, start, first + i);
      values := values[i := v];
      i := i + 1;
    }
  }

  function FieldWord(data: Bytes, f: nat): (r: B256)
  {
    ScalarToBE(FieldValue(data, f))
  }

  /** The 131072 bytes of one blob. */
  function BlobWords(data: Bytes, blobIndex: nat): (r: seq<B256>)
    ensures |r| == FIELD_ELEMENTS_PER_BLOB
  {
    seq<B256>(FIELD_ELEMENTS_PER_BLOB, (i: nat) => FieldWord(data, blobIndex * FIELD_ELEMENTS_PER_BLOB + i))
  }

  lemma ConcatNext(words: seq<B256>, i: nat)
    requires i < |words|
    ensures Concat(words[..i + 1]) == Concat(words[..i]) + words[i]
  {
    assert words[..i + 1] == words[..i] + [words[i]];
    ConcatAppend(words[..i], words[i]);
  }

  /** Append the big-endian words one after the other. */
  method ConcatScalars(values: seq<nat>, ghost words: seq<B256>) returns (blob: Bytes)
    requires |words| == |values| && forall i :: 0 <= i < |values| ==> words[i] == ScalarToBE(values[i])
    ensures blob == Concat(words)
  {
    blob := [];
    var i := 0;
    while i < |values|
      invariant 0 <= i <= |values| && blob == Concat(words[..i])
    {
      ConcatNext(words, i);
      blob := blob + ScalarToBE(values[i]);
      i := i + 1;
    }
    assert words[..i] == words;
  }

  method CanonicalBlobBytes(data: Bytes, blobIndex: nat) returns (blob: Bytes)
    ensures blob == Concat(BlobWords(data, blobIndex))
  {
    var values := BlobFieldValues(data, blobIndex);
    ghost var words := BlobWords(data, blobIndex);
    forall i | 0 <= i < |values|
      ensures words[i] == ScalarToBE(values[i])
    {
      assert words[i] == FieldWord(data, blobIndex * FIELD_ELEMENTS_PER_BLOB + i);
    }
    blob := ConcatScalars(values, words);
  }

  /** The number of blobs the validator demands for `len` bytes. */
  function CanonicalBlobCount(len: nat): (n: nat)
  {
    (len + BYTES_PER_BLOB - 1) / BYTES_PER_BLOB
  }

  // ----- Unpacking -----

  ghost predicate AreBlobs(blobs: seq<Bytes>, len: nat)
  {
    |blobs| == CanonicalBlobCount(len) && forall b :: 0 <= b < |blobs| ==> |blobs[b]| == 32 * FIELD_ELEMENTS_PER_BLOB
  }

  function WordAt(blobs: seq<Bytes>, len: nat, f: nat): (r: B256)
    requires AreBlobs(blobs, len) && f * BYTES_PER_FIELD_ELEMENT < len
  {
    var b, i := f / FIELD_ELEMENTS_PER_BLOB, f % FIELD_ELEMENTS_PER_BLOB;
    assert b < |blobs|;
    blobs[b][32 * i..32 * i + 32]
  }

  /** Read the payloads back, given the byte length. */
  function UnpackFrom(blobs: seq<Bytes>, len: nat, f: nat): Bytes
    requires AreBlobs(blobs, len)
    decreases len - f * BYTES_PER_FIELD_ELEMENT
  {
    var start := f * BYTES_PER_FIELD_ELEMENT;
    if start >= len then []
    else WordAt(blobs, len, f)[32 - Min(BYTES_PER_FIELD_ELEMENT, len - start)..] + UnpackFrom(blobs, len, f + 1)
  }

  ghost predicate PackedAs(data: Bytes, blobs: seq<Bytes>)
  {
    |blobs| == CanonicalBlobCount(|data|) && forall b :: 0 <= b < |blobs| ==> blobs[b] == Concat(BlobWords(data, b))
  }

  lemma WordOfPacked(data: Bytes, blobs: seq<Bytes>, f: nat)
    requires PackedAs(data, blobs) && AreBlobs(blobs, |data|) && f * BYTES_PER_FIELD_ELEMENT < |data|
    ensures WordAt(blobs, |data|, f) == FieldWord(data, f)
  {
    var b, i := f / FIELD_ELEMENTS_PER_BLOB, f % FIELD_ELEMENTS_PER_BLOB;
    assert b < |blobs|;
    assert b * FIELD_ELEMENTS_PER_BLOB + i == f;
    ConcatSlice(BlobWords(data, b), i);
  }

  /** The low bytes of a field word are its payload. */
  lemma PayloadOfWord(data: Bytes, f: nat)
    ensures FieldWord(data, f)[32 - |Payload(data, f)|..] == Payload(data, f)
  {
    EncodeDecode(Payload(data, f), 32);
  }

  lemma UnpackStep(data: Bytes, blobs: seq<Bytes>, f: nat)
    requires PackedAs(data, blobs) && AreBlobs(blobs, |data|) && f * BYTES_PER_FIELD_ELEMENT < |data|
    ensures UnpackFrom(blobs, |data|, f) == Payload(data, f) + UnpackFrom(blobs, |data|, f + 1)
  {
    WordOfPacked(data, blobs, f);
    PayloadOfWord(data, f);
  }

  lemma SuffixSplit(data: Bytes, f: nat, start: nat)
    requires start == f * BYTES_PER_FIELD_ELEMENT < |data|
    ensures data[start..] == Payload(data, f) + if start + BYTES_PER_FIELD_ELEMENT >= |data| then []
            else data[start + BYTES_PER_FIELD_ELEMENT..]
  {
  }

  lemma {:induction false} UnpackSuffix(data: Bytes, blobs: seq<Bytes>, f: nat, start: nat)
    requires PackedAs(data, blobs) && AreBlobs(blobs, |data|) && start == f * BYTES_PER_FIELD_ELEMENT
    ensures UnpackFrom(blobs, |data|, f) == if start >= |data| then [] else data[start..]
    decreases |data| - start
  {
    if start < |data| {
      UnpackStep(data, blobs, f);
      UnpackSuffix(data, blobs, f + 1, start + BYTES_PER_FIELD_ELEMENT);
      SuffixSplit(data, f, start);
    }
  }

  /** Packing into ceil(len / 126976) blobs loses nothing: the known length recovers every byte. */
  lemma UnpackPacked(data: Bytes, blobs: seq<Bytes>)
    requires PackedAs(data, blobs)
    ensures AreBlobs(blobs, |data|) && UnpackFrom(blobs, |data|, 0) == data
  {
    UnpackSuffix(data, blobs, 0, 0);
    assert data[0..] == data;
  }

  /** Data of equal length with the same blobs are equal. */
  lemma PackingInjective(a: Bytes, b: Bytes, blobs: seq<Bytes>)
    requires |a| == |b| && PackedAs(a, blobs) && PackedAs(b, blobs)
    ensures a == b
  {
    UnpackPacked(a, blobs);
    UnpackPacked(b, blobs);
  }
}
