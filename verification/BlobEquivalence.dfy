/** The blob-equivalence validator: an accepted witness opens, at the transcript-derived points, the polynomials
    whose values are the packed canonical bytes. */
module BlobEquivalence {
  import opened Modular
  import opened Polynomial
  import opened PolynomialRoots
  import opened RootsOfUnity
  import opened Bytes
  import opened BlobPacking
  import opened BlobEvaluation
  import opened Statements

  const MAX_BLOBS_PER_BATCH: nat := 6
  /** The two-adicity of the scalar field and the logarithm of the domain size. */
  const TWO_ADICITY: nat := 32
  const DOMAIN_BITS: nat := 12
  const COUNTERS: nat := 0x1_0000_0000

  datatype EquivalenceError =
    | EmptyCanonicalData | BadBlobCount | NonCanonicalBlobCount | BadBlobRange | VectorLengthMismatch
    | BadCommitmentLength | BadVersionedHash | BadChallenge | NonCanonicalEvaluation | EvaluationMismatch

  /** The digests and labels the program fixes, the field's generator of 2^32-th roots of unity, and the width of a
      machine index: 64 bits on a host, 32 on the guest. */
  datatype Setup = Setup(keccak: Hash, sha256: Hash, statementTag: Bytes, challengeTag: Bytes, generator: int,
                         indexBits: nat)

  ghost predicate ValidSetup(setup: Setup)
  {
    IsField(BLS_MODULUS) && PrimitiveRoot(setup.generator, TWO_ADICITY, BLS_MODULUS) && setup.indexBits >= DOMAIN_BITS
  }

  function VersionedHash(setup: Setup, commitment: Bytes): B256
  {
    [1] + setup.sha256(commitment)[1..]
  }

  function Transcript(setup: Setup, input: EquivalenceInput, i: nat, counter: nat): Bytes
    requires i < |input.commitments| && i < |input.blobVersionedHashes|
  {
    setup.challengeTag + input.deploymentDomain + ToBE(input.roomId, 8) + input.journalHash
    + setup.keccak(input.canonicalData) + ToBE(|input.canonicalData|, 8) + ToBE(input.blobStartIndex, 8)
    + ToBE(i, 8) + input.blobVersionedHashes[i] + input.commitments[i] + ToBE(counter, 4)
  }

  function Candidate(setup: Setup, input: EquivalenceInput, i: nat, counter: nat): B256
    requires i < |input.commitments| && i < |input.blobVersionedHashes|
  {
    setup.sha256(Transcript(setup, input, i, counter))
  }

  /** `point` is the first candidate of the transcript that is a canonical scalar. */
  ghost predicate IsChallenge(setup: Setup, input: EquivalenceInput, i: nat, point: B256)
    requires i < |input.commitments| && i < |input.blobVersionedHashes|
  {
    exists n: nat :: n < COUNTERS && point == Candidate(setup, input, i, n) && ScalarFromBE(point).Some?
      && forall m: nat :: m < n ==> ScalarFromBE(Candidate(setup, input, i, m)).None?
  }

  /** Rejection sampling over all 32-bit counters. */
  method Challenge(setup: Setup, input: EquivalenceInput, i: nat) returns (r: Option<B256>)
    requires i < |input.commitments| && i < |input.blobVersionedHashes|
    ensures r.Some? ==> IsChallenge(setup, input, i, r.value)
    ensures r.None? ==> forall point :: !IsChallenge(setup, input, i, point)
  {
    var counter := 0;
    while counter < COUNTERS
      invariant 0 <= counter <= COUNTERS
      invariant forall m: nat :: m < counter ==> ScalarFromBE(Candidate(setup, input, i, m)).None?
    {
      var candidate := Candidate(setup, input, i, counter);
      if ScalarFromBE(candidate).Some? {
        return Some(candidate);
      }
      counter := counter + 1;
    }
    r := None;
  }

  lemma ChallengeUnique(setup: Setup, input: EquivalenceInput, i: nat, p: B256, q: B256)
    requires i < |input.commitments| && i < |input.blobVersionedHashes|
    requires IsChallenge(setup, input, i, p) && IsChallenge(setup, input, i, q)
    ensures p == q
  {
    var m: nat :| m < COUNTERS && p == Candidate(setup, input, i, m) && ScalarFromBE(p).Some?
      && forall l: nat :: l < m ==> ScalarFromBE(Candidate(setup, input, i, l)).None?;
    var n: nat :| n < COUNTERS && q == Candidate(setup, input, i, n) && ScalarFromBE(q).Some?
      && forall l: nat :: l < n ==> ScalarFromBE(Candidate(setup, input, i, l)).None?;
    assert m == n;
  }

  /** The field values the i-th blob carries. */
  function BlobValues(data: Bytes, i: nat): (r: seq<int>)
    ensures |r| == FIELD_ELEMENTS_PER_BLOB
  {
    seq(FIELD_ELEMENTS_PER_BLOB, (j: nat) => FromBE(Payload(data, i * FIELD_ELEMENTS_PER_BLOB + j)))
  }

  /** `y` is the value at `z` of every polynomial of degree below 4096 that carries the i-th blob's values. */
  ghost predicate Opens(setup: Setup, data: Bytes, i: nat, z: int, y: int)
  {
    forall c :: Interpolates(c, BlobValues(data, i), DomainGenerator(setup.generator, TWO_ADICITY, DOMAIN_BITS),
                             DOMAIN_BITS, BLS_MODULUS)
      ==> y == Eval(c, z) % BLS_MODULUS
  }

  method BlobEquivalenceEvaluation(setup: Setup, data: Bytes, i: nat, z: nat) returns (y: nat)
    requires ValidSetup(setup) && z < BLS_MODULUS
    ensures y < BLS_MODULUS && Opens(setup, data, i, z, y)
  {
    var values := BlobFieldValues(data, i);
    assert values == BlobValues(data, i);
    assert Exp2(DOMAIN_BITS) == FIELD_ELEMENTS_PER_BLOB;
    y := EvaluateBlob(BLS_MODULUS, setup.generator, TWO_ADICITY, DOMAIN_BITS, values, z, setup.indexBits);
  }

  /** At most one value opens a blob at a point. */
  lemma OpeningUnique(setup: Setup, data: Bytes, i: nat, z: int, y: int, y': int)
    requires ValidSetup(setup) && Opens(setup, data, i, z, y) && Opens(setup, data, i, z, y')
    ensures y == y'
  {
    var w := DomainGenerator(setup.generator, TWO_ADICITY, DOMAIN_BITS);
    DomainGeneratorIsPrimitive(setup.generator, TWO_ADICITY, DOMAIN_BITS, BLS_MODULUS);
    assert Exp2(DOMAIN_BITS) == FIELD_ELEMENTS_PER_BLOB;
    var c := InterpolantExists(BlobValues(data, i), w, DOMAIN_BITS, BLS_MODULUS);
  }

  // ----- What an opening says about the blob -----

  /** One value opens both blobs at the point. */
  ghost predicate OpenAlike(setup: Setup, data: Bytes, i: nat, other: Bytes, j: nat, z: int)
  {
    exists y :: Opens(setup, data, i, z, y) && Opens(setup, other, j, z, y)
  }

  /** Canonical points at which two blobs open alike. */
  ghost predicate OpenAlikeAt(setup: Setup, data: Bytes, i: nat, other: Bytes, j: nat, points: set<int>)
  {
    forall z {:trigger z in points} :: z in points ==> 0 <= z < BLS_MODULUS && OpenAlike(setup, data, i, other, j, z)
  }

  lemma CanonicalValue(data: Bytes, i: nat, m: nat)
    requires m < FIELD_ELEMENTS_PER_BLOB
    ensures BlobValues(data, i)[m] == FieldValue(data, i * FIELD_ELEMENTS_PER_BLOB + m)
    ensures BlobValues(data, i)[m] % BLS_MODULUS == BlobValues(data, i)[m]
  {
    var v := FieldValue(data, i * FIELD_ELEMENTS_PER_BLOB + m);
    SmallMod(v, BLS_MODULUS);
  }

  lemma OpenAlikeValues(setup: Setup, data: Bytes, i: nat, other: Bytes, j: nat, z: int, c: seq<int>, e: seq<int>)
    requires OpenAlike(setup, data, i, other, j, z)
    requires Carries(setup, c, data, i) && Carries(setup, e, other, j)
    ensures Eval(c, z) % BLS_MODULUS == Eval(e, z) % BLS_MODULUS
  {
    var y :| Opens(setup, data, i, z, y) && Opens(setup, other, j, z, y);
  }

  /** The coefficients of a polynomial that carries a blob's values. */
  ghost predicate Carries(setup: Setup, c: seq<int>, data: Bytes, i: nat)
  {
    Interpolates(c, BlobValues(data, i), DomainGenerator(setup.generator, TWO_ADICITY, DOMAIN_BITS), DOMAIN_BITS,
                 BLS_MODULUS)
  }

  lemma CarrierExists(setup: Setup, data: Bytes, i: nat) returns (c: seq<int>)
    requires ValidSetup(setup)
    ensures Carries(setup, c, data, i) && |c| == FIELD_ELEMENTS_PER_BLOB
  {
    var w := DomainGenerator(setup.generator, TWO_ADICITY, DOMAIN_BITS);
    DomainGeneratorIsPrimitive(setup.generator, TWO_ADICITY, DOMAIN_BITS, BLS_MODULUS);
    assert Exp2(DOMAIN_BITS) == FIELD_ELEMENTS_PER_BLOB;
    c := InterpolantExists(BlobValues(data, i), w, DOMAIN_BITS, BLS_MODULUS);
  }

  /** Two blobs with different values open alike at fewer than 4096 of the field's points. */
  lemma DistinctBlobsAgreeRarely(setup: Setup, data: Bytes, i: nat, other: Bytes, j: nat, points: set<int>)
    requires ValidSetup(setup) && BlobValues(data, i) != BlobValues(other, j)
    requires OpenAlikeAt(setup, data, i, other, j, points)
    ensures |points| < FIELD_ELEMENTS_PER_BLOB
  {
    var c := CarrierExists(setup, data, i);
    var e := CarrierExists(setup, other, j);
    var m: nat :| m < FIELD_ELEMENTS_PER_BLOB && BlobValues(data, i)[m] != BlobValues(other, j)[m];
    CanonicalValue(data, i, m);
    CanonicalValue(other, j, m);
    forall z | z in points
      ensures 0 <= z < BLS_MODULUS && Eval(c, z) % BLS_MODULUS == Eval(e, z) % BLS_MODULUS
    {
      OpenAlikeValues(setup, data, i, other, j, z, c, e);
    }
    var x := Pow(DomainGenerator(setup.generator, TWO_ADICITY, DOMAIN_BITS), ReverseBits(m, DOMAIN_BITS));
    AgreeRarely(c, e, x, points, BLS_MODULUS);
  }

  lemma SameValuesSameWords(data: Bytes, other: Bytes, i: nat)
    requires BlobValues(data, i) == BlobValues(other, i)
    ensures BlobWords(data, i) == BlobWords(other, i)
  {
    forall m: nat | m < FIELD_ELEMENTS_PER_BLOB
      ensures BlobWords(data, i)[m] == BlobWords(other, i)[m]
    {
      CanonicalValue(data, i, m);
      CanonicalValue(other, i, m);
    }
  }

  /** Different data of one length differ in some blob, whose openings then agree at fewer than 4096 points: any other
      point of the field tells the data apart. */
  lemma DistinctDataAgreesRarely(setup: Setup, data: Bytes, other: Bytes) returns (i: nat)
    requires ValidSetup(setup) && |data| == |other| && data != other
    ensures i < CanonicalBlobCount(|data|) && BlobValues(data, i) != BlobValues(other, i)
    ensures forall points :: OpenAlikeAt(setup, data, i, other, i, points) ==> |points| < FIELD_ELEMENTS_PER_BLOB
  {
    var n := CanonicalBlobCount(|data|);
    if forall b: nat :: b < n ==> BlobValues(data, b) == BlobValues(other, b) {
      var blobs := seq(n, (b: nat) => Concat(BlobWords(data, b)));
      forall b: nat | b < n
        ensures blobs[b] == Concat(BlobWords(other, b))
      {
        SameValuesSameWords(data, other, b);
      }
      PackingInjective(data, other, blobs);
    }
    i :| i < n && BlobValues(data, i) != BlobValues(other, i);
    forall points | OpenAlikeAt(setup, data, i, other, i, points)
      ensures |points| < FIELD_ELEMENTS_PER_BLOB
    {
      DistinctBlobsAgreeRarely(setup, data, i, other, i, points);
    }
  }

  // ----- The validator -----

  /** The shape checks that precede the per-blob loop. */
  function ShapeError(input: EquivalenceInput): Option<EquivalenceError>
  {
    var count := |input.blobVersionedHashes|;
    if input.canonicalData == [] then Some(EmptyCanonicalData)
    else if count == 0 || count > MAX_BLOBS_PER_BATCH then Some(BadBlobCount)
    else if input.blobStartIndex + count > MAX_BLOBS_PER_BATCH then Some(BadBlobRange)
    else if count != CanonicalBlobCount(|input.canonicalData|) then Some(NonCanonicalBlobCount)
    else if |input.commitments| != count || |input.evaluationPoints| != count || |input.evaluations| != count
    then Some(VectorLengthMismatch)
    else None
  }

  /** The first reason, in the validator's order, for which a blob's part of the witness is refused. */
  ghost function BlobError(setup: Setup, input: EquivalenceInput, i: nat): Option<EquivalenceError>
    requires ShapeError(input).None? && i < |input.blobVersionedHashes|
  {
    if |input.commitments[i]| != 48 then Some(BadCommitmentLength)
    else if VersionedHash(setup, input.commitments[i]) != input.blobVersionedHashes[i] then Some(BadVersionedHash)
    else if !IsChallenge(setup, input, i, input.evaluationPoints[i]) then Some(BadChallenge)
    else if ScalarFromBE(input.evaluations[i]).None? then Some(NonCanonicalEvaluation)
    else if !Opens(setup, input.canonicalData, i, FromBE(input.evaluationPoints[i]), FromBE(input.evaluations[i]))
    then Some(EvaluationMismatch)
    else None
  }

  method CheckBlob(setup: Setup, input: EquivalenceInput, i: nat) returns (error: Option<EquivalenceError>)
    requires ValidSetup(setup) && ShapeError(input).None? && i < |input.blobVersionedHashes|
    ensures error == BlobError(setup, input, i)
  {
    var commitment := input.commitments[i];
    if |commitment| != 48 {
      return Some(BadCommitmentLength);
    }
    if VersionedHash(setup, commitment) != input.blobVersionedHashes[i] {
      return Some(BadVersionedHash);
    }
    var challenge := Challenge(setup, input, i);
    if challenge.None? {
      return Some(BadChallenge);
    }
    if input.evaluationPoints[i] != challenge.value {
      if IsChallenge(setup, input, i, input.evaluationPoints[i]) {
        ChallengeUnique(setup, input, i, input.evaluationPoints[i], challenge.value);
      }
      return Some(BadChallenge);
    }
    var z := ScalarFromBE(input.evaluationPoints[i]);
    var supplied := ScalarFromBE(input.evaluations[i]);
    if supplied.None? {
      return Some(NonCanonicalEvaluation);
    }
    var expected := BlobEquivalenceEvaluation(setup, input.canonicalData, i, z.value);
    Widths();
    if ScalarToBE(supplied.value) != ScalarToBE(expected) {
      if Opens(setup, input.canonicalData, i, z.value, supplied.value) {
        OpeningUnique(setup, input.canonicalData, i, z.value, supplied.value, expected);
      }
      return Some(EvaluationMismatch);
    }
    EncodeInjective(supplied.value, expected, 32);
    error := None;
  }

  /** Why each blob's part of the witness is refused, if it is. */
  ghost function BlobErrors(setup: Setup, input: EquivalenceInput): (r: seq<Option<EquivalenceError>>)
    requires ShapeError(input).None?
    ensures |r| == |input.blobVersionedHashes|
  {
    seq(|input.blobVersionedHashes|, i requires 0 <= i < |input.blobVersionedHashes| => BlobError(setup, input, i))
  }

  /** The loop over the blobs stops at the first error. */
  lemma ErrorAt(setup: Setup, input: EquivalenceInput, i: nat)
    requires ShapeError(input).None? && i < |input.blobVersionedHashes|
    ensures BlobErrors(setup, input)[i] == BlobError(setup, input, i)
  {
  }

  method CheckOne(setup: Setup, input: EquivalenceInput, i: nat, ghost errors: seq<Option<EquivalenceError>>)
    returns (error: Option<EquivalenceError>)
    requires ValidSetup(setup) && ShapeError(input).None? && errors == BlobErrors(setup, input) && i < |errors|
    ensures error == errors[i]
  {
    error := CheckBlob(setup, input, i);
    ErrorAt(setup, input, i);
  }

  /** The first n entries hold no error. */
  ghost predicate Clean(errors: seq<Option<EquivalenceError>>, n: nat)
    requires n <= |errors|
  {
    n == 0 || (Clean(errors, n - 1) && errors[n - 1].None?)
  }

  lemma {:induction false} CleanExact(errors: seq<Option<EquivalenceError>>, n: nat)
    requires n <= |errors|
    ensures Clean(errors, n) <==> forall j :: 0 <= j < n ==> errors[j].None?
  {
    if n > 0 {
      CleanExact(errors, n - 1);
    }
  }

  /** The loop stops at the first error. */
  method CheckBlobs(setup: Setup, input: EquivalenceInput, ghost errors: seq<Option<EquivalenceError>>)
    returns (error: Option<EquivalenceError>, at: nat)
    requires ValidSetup(setup) && ShapeError(input).None? && errors == BlobErrors(setup, input)
    ensures at <= |errors| && Clean(errors, at)
    ensures if error.Some? then at < |errors| && errors[at] == error else at == |errors|
  {
    at := 0;
    while at < |input.blobVersionedHashes|
      invariant 0 <= at <= |errors| && Clean(errors, at)
    {
      error := CheckOne(setup, input, at, errors);
      if error.Some? {
        return;
      }
      at := at + 1;
    }
    error := None;
  }

  /** A witness is accepted exactly when every blob's opening is right, and then the statement is the data-availability
      one; otherwise the first reason is reported. */
  method ValidateBlobEquivalence(setup: Setup, input: EquivalenceInput) returns (r: Result<B256, EquivalenceError>)
    requires ValidSetup(setup)
    ensures r.Ok? <==> ShapeError(input).None? && forall i :: 0 <= i < |input.blobVersionedHashes| ==>
              BlobErrors(setup, input)[i].None?
    ensures r.Ok? ==> r.value == DataAvailabilityStatement(setup.keccak, setup.statementTag, input)
    ensures ShapeError(input).Some? ==> r == Err(ShapeError(input).value)
    ensures ShapeError(input).None? && r.Err? ==>
      var errors := BlobErrors(setup, input);
      exists i :: 0 <= i < |errors| && errors[i] == Some(r.error) && forall j :: 0 <= j < i ==> errors[j].None?
  {
    var shape := ShapeError(input);
    if shape.Some? {
      return Err(shape.value);
    }
    ghost var errors := BlobErrors(setup, input);
    var error, at := CheckBlobs(setup, input, errors);
    CleanExact(errors, at);
    if error.Some? {
      return Err(error.value);
    }
    r := Ok(DataAvailabilityStatement(setup.keccak, setup.statementTag, input));
  }
}
