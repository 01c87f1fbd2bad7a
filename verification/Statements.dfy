/** Solidity ABI array encodings and the data-availability and aggregate statements: what equal statements pin down. */
module Statements {
  import opened Bytes

  // ----- bytes32[] -----

  function WordArray(values: seq<B256>): (r: Bytes)
    ensures |r| == 32 * (|values| + 2)
  {
    Concat([U64Word(32), U64Word(|values|)] + values)
  }

  method AbiWordArray(values: seq<B256>) returns (encoded: Bytes)
    ensures encoded == WordArray(values)
  {
    var words: seq<B256> := [U64Word(32), U64Word(|values|)] + values;
    encoded := [];
    var i := 0;
    while i < |words|
      invariant 0 <= i <= |words| && encoded == Concat(words[..i])
    {
      ConcatAppend(words[..i], words[i]);
      assert words[..i + 1] == words[..i] + [words[i]];
      encoded := encoded + words[i];
      i := i + 1;
    }
    assert words[..i] == words;
  }

  lemma WordArrayInjective(a: seq<B256>, b: seq<B256>)
    requires WordArray(a) == WordArray(b)
    ensures a == b
  {
    var x, y := [U64Word(32), U64Word(|a|)] + a, [U64Word(32), U64Word(|b|)] + b;
    ConcatInjective(x, y);
    assert x[2..] == a && y[2..] == b;
  }

  // ----- bytes[] -----

  /** How many words hold `n` bytes. */
  function Words(n: nat): (r: nat)
    ensures n <= 32 * r < n + 32
  {
    (n + 31) / 32
  }

  /** `n` rounded up to whole words. */
  function Padded(n: nat): (r: nat)
    ensures n <= r < n + 32
  {
    32 * Words(n)
  }

  lemma PaddedShift(k: nat, n: nat)
    ensures Padded(32 * k + n) == 32 * k + Padded(n)
  {
  }

  function Element(value: Bytes): (r: Bytes)
    ensures |r| == 32 + Padded(|value|)
  {
    U64Word(|value|) + value + Zeros(Padded(|value|) - |value|)
  }

  function Elements(values: seq<Bytes>): Bytes
  {
    if values == [] then [] else Elements(values[..|values| - 1]) + Element(values[|values| - 1])
  }

  /** Where element `i` starts, counted from the word after the array length. */
  function Offset(values: seq<Bytes>, i: nat): nat
    requires i <= |values|
  {
    32 * |values| + |Elements(values[..i])|
  }

  function Offsets(values: seq<Bytes>, i: nat): (r: seq<B256>)
    requires i <= |values|
    ensures |r| == i
  {
    if i == 0 then [] else Offsets(values, i - 1) + [U64Word(Offset(values, i - 1))]
  }

  function Head(values: seq<Bytes>): (r: Bytes)
    ensures |r| == 64
  {
    U64Word(32) + U64Word(|values|)
  }

  function BytesArray(values: seq<Bytes>): Bytes
  {
    Head(values) + Concat(Offsets(values, |values|)) + Elements(values)
  }

  lemma ElementsStep(values: seq<Bytes>, i: nat)
    requires i < |values|
    ensures Elements(values[..i + 1]) == Elements(values[..i]) + Element(values[i])
  {
    assert values[..i + 1][..i] == values[..i];
  }

  /** How many words the first `i` elements take. */
  function ElementWords(values: seq<Bytes>, i: nat): nat
    requires i <= |values|
  {
    if i == 0 then 0 else ElementWords(values, i - 1) + 1 + Words(|values[i - 1]|)
  }

  lemma {:induction false} ElementsLength(values: seq<Bytes>, i: nat)
    requires i <= |values|
    ensures |Elements(values[..i])| == 32 * ElementWords(values, i)
  {
    if i > 0 {
      ElementsLength(values, i - 1);
      ElementsStep(values, i - 1);
    } else {
      assert values[..0] == [];
    }
  }

  method AbiOffsets(values: seq<Bytes>, head: Bytes) returns (encoded: Bytes)
    ensures encoded == head + Concat(Offsets(values, |values|))
  {
    encoded := head;
    var offset := |values| * 32;
    var i := 0;
    assert values[..0] == [];
    while i < |values|
      invariant 0 <= i <= |values|
      invariant offset == Offset(values, i)
      invariant encoded == head + Concat(Offsets(values, i))
    {
      ConcatAppend(Offsets(values, i), U64Word(offset));
      encoded := encoded + U64Word(offset);
      ElementsStep(values, i);
      offset := offset + 32 + Padded(|values[i]|);
      i := i + 1;
    }
  }

  /** Append one element, padding the whole buffer. */
  method AppendElement(buffer: Bytes, value: Bytes, ghost words: nat) returns (encoded: Bytes)
    requires |buffer| == 32 * words
    ensures encoded == buffer + Element(value)
  {
    encoded := buffer + U64Word(|value|);
    encoded := encoded + value;
    PaddedShift(words + 1, |value|);
    encoded := encoded + Zeros(Padded(|encoded|) - |encoded|);
  }

  method AbiElements(values: seq<Bytes>, front: Bytes, ghost words: nat) returns (encoded: Bytes)
    requires |front| == 32 * words
    ensures encoded == front + Elements(values)
  {
    encoded := front;
    var i := 0;
    assert values[..0] == [];
    while i < |values|
      invariant 0 <= i <= |values|
      invariant encoded == front + Elements(values[..i])
    {
      ghost var body := Elements(values[..i]);
      ElementsLength(values, i);
      encoded := AppendElement(encoded, values[i], words + ElementWords(values, i));
      ElementsStep(values, i);
      assert (front + body) + Element(values[i]) == front + (body + Element(values[i]));
      i := i + 1;
    }
    assert values[..i] == values;
  }

  /** The two loops: offsets first, then length, bytes and zero padding to a whole word of the buffer. */
  method AbiBytesArray(values: seq<Bytes>) returns (encoded: Bytes)
    ensures encoded == BytesArray(values)
  {
    var front := AbiOffsets(values, Head(values));
    encoded := AbiElements(values, front, |values| + 2);
  }

  // A reader that follows the offsets, as an ABI decoder does.

  function ReadU64(encoded: Bytes, at: nat): Option<nat>
  {
    if at + 32 > |encoded| then None else Some(FromBE(encoded[at + 24..at + 32]))
  }

  function ReadElement(encoded: Bytes, i: nat): Option<Bytes>
  {
    match ReadU64(encoded, 64 + 32 * i)
    case None => None
    case Some(offset) =>
      match ReadU64(encoded, 64 + offset)
      case None => None
      case Some(len) =>
        if 64 + offset + 32 + len > |encoded| then None
        else Some(encoded[64 + offset + 32..64 + offset + 32 + len])
  }

  lemma ReadWritten(encoded: Bytes, at: nat, n: nat)
    requires n < TWO_64 && at + 32 <= |encoded| && encoded[at..at + 32] == U64Word(n)
    ensures ReadU64(encoded, at) == Some(n)
  {
    Widths();
    DecodeEncode(n, 8);
    assert encoded[at + 24..at + 32] == U64Word(n)[24..];
    assert U64Word(n)[24..] == ToBE(n, 8);
  }

  lemma {:induction false} OffsetsAt(values: seq<Bytes>, n: nat, i: nat)
    requires i < n <= |values|
    ensures Offsets(values, n)[i] == U64Word(Offset(values, i))
  {
    if i < n - 1 {
      OffsetsAt(values, n - 1, i);
    }
  }

  lemma {:induction false} ElementAt(values: seq<Bytes>, i: nat)
    requires i < |values|
    ensures var start := |Elements(values[..i])|;
            start + |Element(values[i])| <= |Elements(values)|
            && Elements(values)[start..start + |Element(values[i])|] == Element(values[i])
  {
    if i == |values| - 1 {
      assert values[..i] == values[..|values| - 1];
    } else {
      var front := values[..|values| - 1];
      ElementAt(front, i);
      assert front[..i] == values[..i];
    }
  }

  lemma SliceOfConcat(a: Bytes, b: Bytes, c: Bytes, lo: nat, hi: nat)
    requires lo <= hi <= |b|
    ensures (a + b + c)[|a| + lo..|a| + hi] == b[lo..hi]
  {
  }

  lemma SliceOfSuffix(a: Bytes, b: Bytes, lo: nat, hi: nat)
    requires lo <= hi <= |b|
    ensures (a + b)[|a| + lo..|a| + hi] == b[lo..hi]
  {
  }

  lemma SliceOfSlice(s: Bytes, at: nat, n: nat, lo: nat, hi: nat)
    requires at + n <= |s| && lo <= hi <= n
    ensures s[at..at + n][lo..hi] == s[at + lo..at + hi]
  {
    var a, b := s[at..at + n][lo..hi], s[at + lo..at + hi];
    assert forall i :: 0 <= i < hi - lo ==> a[i] == s[at + lo + i] && b[i] == s[at + lo + i];
  }

  lemma CountWord(values: seq<Bytes>)
    ensures |BytesArray(values)| >= 64 && BytesArray(values)[32..64] == U64Word(|values|)
  {
    var rest := Concat(Offsets(values, |values|)) + Elements(values);
    assert BytesArray(values) == U64Word(32) + U64Word(|values|) + rest;
    SliceOfConcat(U64Word(32), U64Word(|values|), rest, 0, 32);
  }

  lemma OffsetWord(values: seq<Bytes>, i: nat)
    requires i < |values|
    ensures 64 + 32 * i + 32 <= |BytesArray(values)|
    ensures BytesArray(values)[64 + 32 * i..64 + 32 * i + 32] == U64Word(Offset(values, i))
  {
    var offsets := Offsets(values, |values|);
    SliceOfConcat(Head(values), Concat(offsets), Elements(values), 32 * i, 32 * i + 32);
    ConcatSlice(offsets, i);
    OffsetsAt(values, |values|, i);
  }

  lemma ElementSlice(values: seq<Bytes>, i: nat)
    requires i < |values|
    ensures var at, e := 64 + Offset(values, i), Element(values[i]);
            at + |e| <= |BytesArray(values)| && BytesArray(values)[at..at + |e|] == e
  {
    var front, body := Head(values) + Concat(Offsets(values, |values|)), Elements(values);
    ElementAt(values, i);
    SuffixAt(front, body, |Elements(values[..i])|, Element(values[i]));
  }

  lemma SuffixAt(front: Bytes, body: Bytes, start: nat, e: Bytes)
    requires start + |e| <= |body| && body[start..start + |e|] == e
    ensures (front + body)[|front| + start..|front| + start + |e|] == e
  {
    SliceOfSuffix(front, body, start, start + |e|);
  }

  /** Every offset points at its element, and the reader gets the element back. */
  lemma ReadElementWritten(values: seq<Bytes>, i: nat)
    requires i < |values| && |BytesArray(values)| < TWO_64
    ensures ReadElement(BytesArray(values), i) == Some(values[i])
  {
    ElementSlice(values, i);
    OffsetWord(values, i);
    ReadElementAt(BytesArray(values), i, Offset(values, i), values[i]);
  }

  lemma ReadElementAt(encoded: Bytes, i: nat, offset: nat, value: Bytes)
    requires 64 + 32 * i + 32 <= |encoded| < TWO_64 && encoded[64 + 32 * i..64 + 32 * i + 32] == U64Word(offset)
    requires 64 + offset + |Element(value)| <= |encoded|
    requires encoded[64 + offset..64 + offset + |Element(value)|] == Element(value)
    ensures ReadElement(encoded, i) == Some(value)
  {
    ReadWritten(encoded, 64 + 32 * i, offset);
    ReadBack(encoded, 64 + offset, value);
    ReadVia(encoded, i, offset, value);
  }

  lemma ReadVia(encoded: Bytes, i: nat, offset: nat, value: Bytes)
    requires ReadU64(encoded, 64 + 32 * i) == Some(offset) && ReadU64(encoded, 64 + offset) == Some(|value|)
    requires 64 + offset + 32 + |value| <= |encoded|
    requires encoded[64 + offset + 32..64 + offset + 32 + |value|] == value
    ensures ReadElement(encoded, i) == Some(value)
  {
  }

  lemma ReadBack(encoded: Bytes, at: nat, value: Bytes)
    requires at + |Element(value)| <= |encoded| < TWO_64 && encoded[at..at + |Element(value)|] == Element(value)
    ensures at + 32 + |value| <= |encoded|
    ensures ReadU64(encoded, at) == Some(|value|)
    ensures encoded[at + 32..at + 32 + |value|] == value
  {
    var e := Element(value);
    assert e[0..32] == U64Word(|value|) && e[32..32 + |value|] == value;
    SliceOfSlice(encoded, at, |e|, 0, 32);
    ReadWritten(encoded, at, |value|);
    SliceOfSlice(encoded, at, |e|, 32, 32 + |value|);
  }

  lemma BytesArrayInjective(a: seq<Bytes>, b: seq<Bytes>)
    requires BytesArray(a) == BytesArray(b) && |BytesArray(a)| < TWO_64
    ensures a == b
  {
    CountWord(a);
    CountWord(b);
    U64WordInjective(|a|, |b|);
    forall i | 0 <= i < |a|
      ensures a[i] == b[i]
    {
      ReadElementWritten(a, i);
      ReadElementWritten(b, i);
    }
  }

  // ----- The data-availability statement -----

  datatype EquivalenceInput = EquivalenceInput(
    deploymentDomain: B256,
    roomId: U64,
    journalHash: B256,
    canonicalData: Bytes,
    blobStartIndex: byte,
    blobVersionedHashes: seq<B256>,
    commitments: seq<Bytes>,
    evaluationPoints: seq<B256>,
    evaluations: seq<B256>)

  /** Lengths a 64-bit machine can hold. */
  ghost predicate FitsMemory(input: EquivalenceInput)
  {
    |input.canonicalData| < TWO_64 && |BytesArray(input.commitments)| < TWO_64
  }

  function StatementWords(h: Hash, tag: Bytes, input: EquivalenceInput): (r: seq<B256>)
  {
    [h(tag),
     input.deploymentDomain,
     U64Word(input.roomId),
     input.journalHash,
     h(input.canonicalData),
     U64Word(|input.canonicalData|),
     U64Word(input.blobStartIndex),
     h(WordArray(input.blobVersionedHashes)),
     h(BytesArray(input.commitments)),
     h(WordArray(input.evaluationPoints)),
     h(WordArray(input.evaluations))]
  }

  function DataAvailabilityStatement(h: Hash, tag: Bytes, input: EquivalenceInput): B256
  {
    h(Concat(StatementWords(h, tag, input)))
  }

  /** Every input-dependent string hashed while computing the statement. */
  function StatementPreimages(h: Hash, tag: Bytes, input: EquivalenceInput): set<Bytes>
  {
    {Concat(StatementWords(h, tag, input)), input.canonicalData, WordArray(input.blobVersionedHashes),
     BytesArray(input.commitments), WordArray(input.evaluationPoints), WordArray(input.evaluations)}
  }

  /** Equal statements come from equal inputs, unless two of the hashed strings collide. */
  lemma DataAvailabilityBinding(h: Hash, tag: Bytes, a: EquivalenceInput, b: EquivalenceInput)
    requires FitsMemory(a) && FitsMemory(b)
    requires DataAvailabilityStatement(h, tag, a) == DataAvailabilityStatement(h, tag, b)
    ensures a == b || Collide(h, StatementPreimages(h, tag, a), StatementPreimages(h, tag, b))
  {
    var x, y := StatementWords(h, tag, a), StatementWords(h, tag, b);
    var p, q := StatementPreimages(h, tag, a), StatementPreimages(h, tag, b);
    if !Collide(h, p, q) {
      EqualOrCollide(h, Concat(x), Concat(y), p, q);
      ConcatInjective(x, y);
      StatementFieldsBind(h, a, b, p, q, x, y, tag);
    }
  }

  lemma StatementFieldsBind(h: Hash, a: EquivalenceInput, b: EquivalenceInput, p: set<Bytes>, q: set<Bytes>,
                            x: seq<B256>, y: seq<B256>, tag: Bytes)
    requires FitsMemory(a) && FitsMemory(b) && !Collide(h, p, q) && x == y
    requires x == StatementWords(h, tag, a) && y == StatementWords(h, tag, b)
    requires p == StatementPreimages(h, tag, a) && q == StatementPreimages(h, tag, b)
    ensures a == b
  {
    assert x[1] == y[1] && x[2] == y[2] && x[3] == y[3] && x[4] == y[4] && x[6] == y[6];
    assert x[7] == y[7] && x[8] == y[8] && x[9] == y[9] && x[10] == y[10];
    U64WordInjective(a.roomId, b.roomId);
    EqualOrCollide(h, a.canonicalData, b.canonicalData, p, q);
    U64WordInjective(a.blobStartIndex, b.blobStartIndex);
    EqualOrCollide(h, WordArray(a.blobVersionedHashes), WordArray(b.blobVersionedHashes), p, q);
    WordArrayInjective(a.blobVersionedHashes, b.blobVersionedHashes);
    EqualOrCollide(h, BytesArray(a.commitments), BytesArray(b.commitments), p, q);
    BytesArrayInjective(a.commitments, b.commitments);
    EqualOrCollide(h, WordArray(a.evaluationPoints), WordArray(b.evaluationPoints), p, q);
    WordArrayInjective(a.evaluationPoints, b.evaluationPoints);
    EqualOrCollide(h, WordArray(a.evaluations), WordArray(b.evaluations), p, q);
    WordArrayInjective(a.evaluations, b.evaluations);
  }

  // ----- The aggregate statement -----

  datatype Member = Member(
    roomId: U64,
    roomProgramId: B256,
    journalHash: B256,
    equivalenceProgramId: B256,
    equivalenceStatement: B256)

  datatype AggregateInput = AggregateInput(deploymentDomain: B256, members: seq<Member>)

  function MemberBytes(m: Member): Bytes
  {
    Concat([U64Word(m.roomId), m.roomProgramId, m.journalHash, m.equivalenceProgramId, m.equivalenceStatement])
  }

  function MemberHashes(h: Hash, members: seq<Member>): (r: seq<B256>)
    ensures |r| == |members|
    ensures forall i :: 0 <= i < |members| ==> r[i] == h(MemberBytes(members[i]))
  {
    if members == [] then [] else [h(MemberBytes(members[0]))] + MemberHashes(h, members[1..])
  }

  function AggregateBytes(h: Hash, tag: Bytes, input: AggregateInput): Bytes
  {
    Concat([h(tag), input.deploymentDomain, h(WordArray(MemberHashes(h, input.members)))])
  }

  function AggregateStatement(h: Hash, tag: Bytes, input: AggregateInput): B256
  {
    h(AggregateBytes(h, tag, input))
  }

  function AggregatePreimages(h: Hash, tag: Bytes, input: AggregateInput): set<Bytes>
  {
    {AggregateBytes(h, tag, input), WordArray(MemberHashes(h, input.members))}
    + set i | 0 <= i < |input.members| :: MemberBytes(input.members[i])
  }

  lemma MemberBytesInjective(a: Member, b: Member)
    requires MemberBytes(a) == MemberBytes(b)
    ensures a == b
  {
    var x := [U64Word(a.roomId), a.roomProgramId, a.journalHash, a.equivalenceProgramId, a.equivalenceStatement];
    var y := [U64Word(b.roomId), b.roomProgramId, b.journalHash, b.equivalenceProgramId, b.equivalenceStatement];
    ConcatInjective(x, y);
    assert x[0] == y[0] && x[1] == y[1] && x[2] == y[2] && x[3] == y[3] && x[4] == y[4];
    U64WordInjective(a.roomId, b.roomId);
  }

  /** Equal aggregate statements name the same members in the same order, unless hashed strings collide. */
  lemma AggregateBinding(h: Hash, tag: Bytes, a: AggregateInput, b: AggregateInput)
    requires AggregateStatement(h, tag, a) == AggregateStatement(h, tag, b)
    ensures a == b || Collide(h, AggregatePreimages(h, tag, a), AggregatePreimages(h, tag, b))
  {
    var p, q := AggregatePreimages(h, tag, a), AggregatePreimages(h, tag, b);
    if !Collide(h, p, q) {
      var x := [h(tag), a.deploymentDomain, h(WordArray(MemberHashes(h, a.members)))];
      var y := [h(tag), b.deploymentDomain, h(WordArray(MemberHashes(h, b.members)))];
      EqualOrCollide(h, AggregateBytes(h, tag, a), AggregateBytes(h, tag, b), p, q);
      ConcatInjective(x, y);
      assert x[1] == y[1] && x[2] == y[2];
      EqualOrCollide(h, WordArray(MemberHashes(h, a.members)), WordArray(MemberHashes(h, b.members)), p, q);
      WordArrayInjective(MemberHashes(h, a.members), MemberHashes(h, b.members));
      forall i | 0 <= i < |a.members|
        ensures a.members[i] == b.members[i]
      {
        EqualOrCollide(h, MemberBytes(a.members[i]), MemberBytes(b.members[i]), p, q);
        MemberBytesInjective(a.members[i], b.members[i]);
      }
    }
  }

  // ----- The aggregate validator -----

  const MAX_AGGREGATE_ROOMS: nat := 8

  datatype HostingError = BadAggregateCount | ZeroRoom | ZeroRoomProgram | DuplicateRoom | IncompleteEquivalence

  /** What one member must satisfy next to those before it. */
  function MemberError(members: seq<Member>, i: nat): Option<HostingError>
    requires i < |members|
  {
    var m := members[i];
    if m.roomId == 0 then Some(ZeroRoom)
    else if m.roomProgramId == Zeros(32) then Some(ZeroRoomProgram)
    else if exists j :: 0 <= j < i && members[j].roomId == m.roomId then Some(DuplicateRoom)
    else if (m.equivalenceProgramId == Zeros(32)) != (m.equivalenceStatement == Zeros(32))
    then Some(IncompleteEquivalence)
    else None
  }

  ghost predicate WellFormedAggregate(input: AggregateInput)
  {
    && 1 <= |input.members| <= MAX_AGGREGATE_ROOMS
    && (forall m :: m in input.members ==> m.roomId != 0 && m.roomProgramId != Zeros(32))
    && (forall i, j :: 0 <= i < j < |input.members| ==> input.members[i].roomId != input.members[j].roomId)
    && (forall m :: m in input.members ==>
        (m.equivalenceProgramId == Zeros(32) <==> m.equivalenceStatement == Zeros(32)))
  }

  method ValidateAggregate(h: Hash, tag: Bytes, input: AggregateInput) returns (r: Result<B256, HostingError>)
    ensures r.Ok? <==> WellFormedAggregate(input)
    ensures r.Ok? ==> r.value == AggregateStatement(h, tag, input)
    ensures r == Err(BadAggregateCount) <==> !(1 <= |input.members| <= MAX_AGGREGATE_ROOMS)
    ensures r.Err? && r.error != BadAggregateCount ==>
      exists i :: 0 <= i < |input.members| && MemberError(input.members, i) == Some(r.error)
        && forall j :: 0 <= j < i ==> MemberError(input.members, j) == None
  {
    var members := input.members;
    if members == [] || |members| > MAX_AGGREGATE_ROOMS {
      return Err(BadAggregateCount);
    }
    var i := 0;
    while i < |members|
      invariant 0 <= i <= |members|
      invariant forall j :: 0 <= j < i ==> MemberError(members, j) == None
    {
      match MemberError(members, i) {
        case Some(e) => return Err(e);
        case None => i := i + 1;
      }
    }
    forall m | m in members
      ensures m.roomId != 0 && m.roomProgramId != Zeros(32)
      ensures m.equivalenceProgramId == Zeros(32) <==> m.equivalenceStatement == Zeros(32)
    {
      var k :| 0 <= k < |members| && members[k] == m;
      assert MemberError(members, k) == None;
    }
    forall a, b | 0 <= a < b < |members|
      ensures members[a].roomId != members[b].roomId
    {
      assert MemberError(members, b) == None;
    }
    r := Ok(AggregateStatement(h, tag, input));
  }
}
