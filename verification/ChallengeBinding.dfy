/** The Fiat-Shamir point of a blob opening is drawn from every public field of the witness. */
module ChallengeBinding {
  import opened Modular
  import opened Bytes
  import opened Statements
  import opened BlobEquivalence

  /** The concatenation of a list of strings. */
  function Join(parts: seq<Bytes>): Bytes
  {
    if parts == [] then [] else parts[0] + Join(parts[1..])
  }

  /** Equal joins of pairwise equally long parts have equal parts. */
  lemma {:induction false} JoinInjective(a: seq<Bytes>, b: seq<Bytes>)
    requires |a| == |b| && (forall i :: 0 <= i < |a| ==> |a[i]| == |b[i]|) && Join(a) == Join(b)
    ensures a == b
  {
    if a != [] {
      SplitEqual(a[0], Join(a[1..]), b[0], Join(b[1..]));
      JoinInjective(a[1..], b[1..]);
      assert a == [a[0]] + a[1..] && b == [b[0]] + b[1..];
    }
  }

  function Head(setup: Setup, input: EquivalenceInput): seq<Bytes>
  {
    [setup.challengeTag, input.deploymentDomain, ToBE(input.roomId, 8), input.journalHash,
     setup.keccak(input.canonicalData)]
  }

  function Tail(input: EquivalenceInput, i: nat, counter: nat): seq<Bytes>
    requires i < |input.commitments| && i < |input.blobVersionedHashes|
  {
    [ToBE(|input.canonicalData|, 8), ToBE(input.blobStartIndex, 8), ToBE(i, 8), input.blobVersionedHashes[i],
     input.commitments[i], ToBE(counter, 4)]
  }

  lemma JoinFive(a: Bytes, b: Bytes, c: Bytes, d: Bytes, e: Bytes)
    ensures Join([a, b, c, d, e]) == a + b + c + d + e
  {
    var s := [a, b, c, d, e];
    assert s[1..] == [b, c, d, e] && s[1..][1..] == [c, d, e] && s[1..][1..][1..] == [d, e];
    assert [d, e][1..] == [e] && [e][1..] == [];
    assert Join([e]) == e && Join([d, e]) == d + e;
    assert Join([c, d, e]) == c + (d + e);
    assert Join([b, c, d, e]) == b + (c + (d + e));
    assert Join(s) == a + (b + (c + (d + e)));
  }

  lemma JoinSix(a: Bytes, b: Bytes, c: Bytes, d: Bytes, e: Bytes, f: Bytes)
    ensures Join([a, b, c, d, e, f]) == a + b + c + d + e + f
  {
    assert [a, b, c, d, e, f][1..] == [b, c, d, e, f];
    JoinFive(b, c, d, e, f);
    assert a + (b + c + d + e + f) == a + b + c + d + e + f;
  }

  lemma Append(h: Bytes, a: Bytes, b: Bytes, c: Bytes, d: Bytes, e: Bytes, f: Bytes)
    ensures h + a + b + c + d + e + f == h + (a + b + c + d + e + f)
  {
  }

  /** A transcript is its eleven fields in a row. */
  lemma TranscriptParts(setup: Setup, input: EquivalenceInput, i: nat, counter: nat)
    requires i < |input.commitments| && i < |input.blobVersionedHashes|
    ensures Transcript(setup, input, i, counter) == Join(Head(setup, input)) + Join(Tail(input, i, counter))
  {
    var h, t := Head(setup, input), Tail(input, i, counter);
    JoinFive(h[0], h[1], h[2], h[3], h[4]);
    JoinSix(t[0], t[1], t[2], t[3], t[4], t[5]);
    Append(h[0] + h[1] + h[2] + h[3] + h[4], t[0], t[1], t[2], t[3], t[4], t[5]);
  }

  /** A place where a challenge is drawn: a witness, one of its blobs and a counter. */
  ghost predicate Drawable(input: EquivalenceInput, i: nat, counter: nat)
  {
    && |input.canonicalData| < TWO_64 && i < |input.commitments| && i < |input.blobVersionedHashes| && i < TWO_64
    && |input.commitments[i]| == 48 && counter < COUNTERS
  }

  /** Everything the transcript names agrees; the data by its digest and length. */
  ghost predicate SameFields(setup: Setup, a: EquivalenceInput, i: nat, b: EquivalenceInput, j: nat)
    requires i < |a.commitments| && i < |a.blobVersionedHashes| && j < |b.commitments| && j < |b.blobVersionedHashes|
  {
    && a.deploymentDomain == b.deploymentDomain && a.roomId == b.roomId && a.journalHash == b.journalHash
    && setup.keccak(a.canonicalData) == setup.keccak(b.canonicalData) && |a.canonicalData| == |b.canonicalData|
    && a.blobStartIndex == b.blobStartIndex && i == j
    && a.blobVersionedHashes[i] == b.blobVersionedHashes[j] && a.commitments[i] == b.commitments[j]
  }

  lemma CounterWidth()
    ensures Pow(256, 4) == COUNTERS
  {
    assert Pow(256, 2) == 0x1_0000;
    PowAdd(256, 2, 2);
  }

  lemma HeadBinds(setup: Setup, a: EquivalenceInput, b: EquivalenceInput)
    requires Head(setup, a) == Head(setup, b)
    ensures a.deploymentDomain == b.deploymentDomain && a.roomId == b.roomId && a.journalHash == b.journalHash
    ensures setup.keccak(a.canonicalData) == setup.keccak(b.canonicalData)
  {
    var x, y := Head(setup, a), Head(setup, b);
    assert x[1] == y[1] && x[2] == y[2] && x[3] == y[3] && x[4] == y[4];
    Widths();
    EncodeInjective(a.roomId, b.roomId, 8);
  }

  lemma TailBinds(a: EquivalenceInput, i: nat, n: nat, b: EquivalenceInput, j: nat, m: nat)
    requires Drawable(a, i, n) && Drawable(b, j, m) && Tail(a, i, n) == Tail(b, j, m)
    ensures |a.canonicalData| == |b.canonicalData| && a.blobStartIndex == b.blobStartIndex && i == j && n == m
    ensures a.blobVersionedHashes[i] == b.blobVersionedHashes[j] && a.commitments[i] == b.commitments[j]
  {
    var x, y := Tail(a, i, n), Tail(b, j, m);
    assert x[0] == y[0] && x[1] == y[1] && x[2] == y[2] && x[3] == y[3] && x[4] == y[4] && x[5] == y[5];
    Widths();
    CounterWidth();
    EncodeInjective(|a.canonicalData|, |b.canonicalData|, 8);
    EncodeInjective(a.blobStartIndex, b.blobStartIndex, 8);
    EncodeInjective(i, j, 8);
    EncodeInjective(n, m, 4);
  }

  lemma {:induction false} JoinLength(a: seq<Bytes>, b: seq<Bytes>)
    requires |a| == |b| && forall i :: 0 <= i < |a| ==> |a[i]| == |b[i]|
    ensures |Join(a)| == |Join(b)|
  {
    if a != [] {
      JoinLength(a[1..], b[1..]);
    }
  }

  /** Equal transcripts name the same fields and the same counter. */
  lemma TranscriptBinding(setup: Setup, a: EquivalenceInput, i: nat, n: nat, b: EquivalenceInput, j: nat, m: nat)
    requires Drawable(a, i, n) && Drawable(b, j, m) && Transcript(setup, a, i, n) == Transcript(setup, b, j, m)
    ensures SameFields(setup, a, i, b, j) && n == m
  {
    TranscriptParts(setup, a, i, n);
    TranscriptParts(setup, b, j, m);
    JoinLength(Head(setup, a), Head(setup, b));
    SplitEqual(Join(Head(setup, a)), Join(Tail(a, i, n)), Join(Head(setup, b)), Join(Tail(b, j, m)));
    JoinInjective(Head(setup, a), Head(setup, b));
    JoinInjective(Tail(a, i, n), Tail(b, j, m));
    HeadBinds(setup, a, b);
    TailBinds(a, i, n, b, j, m);
  }

  /** The transcripts a challenge may be drawn from. */
  ghost function Transcripts(setup: Setup, input: EquivalenceInput, i: nat): set<Bytes>
    requires i < |input.commitments| && i < |input.blobVersionedHashes|
  {
    set n: nat | n < COUNTERS :: Transcript(setup, input, i, n)
  }

  /** One challenge for two openings means the same commitment, hash, data and identity on both sides, or two
      transcripts collide under SHA-256, or the data collide under Keccak. */
  lemma ChallengeBindsFields(setup: Setup, a: EquivalenceInput, i: nat, b: EquivalenceInput, j: nat, point: B256)
    requires Drawable(a, i, 0) && Drawable(b, j, 0)
    requires IsChallenge(setup, a, i, point) && IsChallenge(setup, b, j, point)
    ensures || Collide(setup.sha256, Transcripts(setup, a, i), Transcripts(setup, b, j))
            || Collide(setup.keccak, {a.canonicalData}, {b.canonicalData})
            || (SameFields(setup, a, i, b, j) && a.canonicalData == b.canonicalData)
  {
    var n: nat :| n < COUNTERS && point == Candidate(setup, a, i, n);
    var m: nat :| m < COUNTERS && point == Candidate(setup, b, j, m);
    var x, y := Transcript(setup, a, i, n), Transcript(setup, b, j, m);
    assert x in Transcripts(setup, a, i) && y in Transcripts(setup, b, j);
    EqualOrCollide(setup.sha256, x, y, Transcripts(setup, a, i), Transcripts(setup, b, j));
    if x == y {
      TranscriptBinding(setup, a, i, n, b, j, m);
      EqualOrCollide(setup.keccak, a.canonicalData, b.canonicalData, {a.canonicalData}, {b.canonicalData});
    }
  }

  /** The hash a versioned hash keeps: the digest without its first byte. */
  function Truncated(h: Hash): Hash
  {
    (x: Bytes) => [0] + h(x)[1..]
  }

  /** A versioned hash carries version one and binds its commitment, unless the other 31 bytes of two digests agree. */
  lemma VersionedHashBinds(setup: Setup, c: Bytes, d: Bytes)
    requires VersionedHash(setup, c) == VersionedHash(setup, d)
    ensures VersionedHash(setup, c)[0] == 1
    ensures c == d || Collide(Truncated(setup.sha256), {c}, {d})
  {
    assert VersionedHash(setup, c)[1..] == setup.sha256(c)[1..] && VersionedHash(setup, d)[1..] == setup.sha256(d)[1..];
    EqualOrCollide(Truncated(setup.sha256), c, d, {c}, {d});
  }
}
