/** What an accepted blob-equivalence witness is, and what the opening of a commitment then attests about the data. */
module EquivalenceMeaning {
  import opened Modular
  import opened Polynomial
  import opened PolynomialRoots
  import opened RootsOfUnity
  import opened Bytes
  import opened BlobPacking
  import opened BlobEvaluation
  import opened Statements
  import opened BlobEquivalence

  /** The validator finds nothing to refuse. */
  ghost predicate Accepted(setup: Setup, input: EquivalenceInput)
  {
    ShapeError(input).None?
    && forall i :: 0 <= i < |input.blobVersionedHashes| ==> BlobErrors(setup, input)[i].None?
  }

  /** One to six blobs from the start index on, all of them needed for the data and enough, with a commitment, a point
      and a value each. */
  ghost predicate WellShaped(input: EquivalenceInput)
  {
    var count := |input.blobVersionedHashes|;
    && 1 <= count && input.blobStartIndex + count <= 6
    && (count - 1) * 126976 < |input.canonicalData| <= count * 126976
    && |input.commitments| == count && |input.evaluationPoints| == count && |input.evaluations| == count
  }

  /** The i-th blob's part: a version-one hash of a 48-byte commitment, the transcript's own challenge, and the
      canonical value there of the polynomial that carries the blob. */
  ghost predicate Witnessed(setup: Setup, input: EquivalenceInput, i: nat)
    requires WellShaped(input) && i < |input.blobVersionedHashes|
  {
    var hash, commitment := input.blobVersionedHashes[i], input.commitments[i];
    && |commitment| == 48 && hash[0] == 1 && hash[1..] == setup.sha256(commitment)[1..]
    && IsChallenge(setup, input, i, input.evaluationPoints[i]) && FromBE(input.evaluations[i]) < BLS_MODULUS
    && Opens(setup, input.canonicalData, i, FromBE(input.evaluationPoints[i]), FromBE(input.evaluations[i]))
  }

  lemma ShapeExact(input: EquivalenceInput)
    ensures ShapeError(input).None? <==> WellShaped(input)
  {
  }

  lemma VersionedExact(setup: Setup, commitment: Bytes, hash: B256)
    ensures VersionedHash(setup, commitment) == hash <==> hash[0] == 1 && hash[1..] == setup.sha256(commitment)[1..]
  {
    assert hash == [hash[0]] + hash[1..];
    assert VersionedHash(setup, commitment)[1..] == setup.sha256(commitment)[1..];
  }

  lemma BlobExact(setup: Setup, input: EquivalenceInput, i: nat)
    requires ShapeError(input).None? && WellShaped(input) && i < |input.blobVersionedHashes|
    ensures BlobErrors(setup, input)[i].None? <==> Witnessed(setup, input, i)
  {
    ErrorAt(setup, input, i);
    VersionedExact(setup, input.commitments[i], input.blobVersionedHashes[i]);
  }

  /** A witness is accepted exactly when it is well shaped and every blob's part is as it should be. */
  lemma AcceptedExactly(setup: Setup, input: EquivalenceInput)
    ensures Accepted(setup, input) <==>
            WellShaped(input) && forall i :: 0 <= i < |input.blobVersionedHashes| ==> Witnessed(setup, input, i)
  {
    ShapeExact(input);
    if WellShaped(input) {
      forall i | 0 <= i < |input.blobVersionedHashes|
        ensures BlobErrors(setup, input)[i].None? <==> Witnessed(setup, input, i)
      {
        BlobExact(setup, input, i);
      }
    }
  }

  // ----- What an opening attests -----

  /** The polynomial takes, at a canonical point, the value of the one that carries the blob. */
  ghost predicate Alike(setup: Setup, c: seq<int>, data: Bytes, i: nat, z: int)
  {
    0 <= z < BLS_MODULUS && Opens(setup, data, i, z, Eval(c, z) % BLS_MODULUS)
  }

  ghost predicate AlikeAt(setup: Setup, c: seq<int>, data: Bytes, i: nat, points: set<int>)
  {
    forall z {:trigger z in points} :: z in points ==> Alike(setup, c, data, i, z)
  }

  /** A polynomial that does not carry the blob is like it at fewer than 4096 points. */
  lemma StrangerIsAlikeRarely(setup: Setup, c: seq<int>, data: Bytes, i: nat, points: set<int>)
    requires ValidSetup(setup) && |c| == FIELD_ELEMENTS_PER_BLOB && !Carries(setup, c, data, i)
    requires AlikeAt(setup, c, data, i, points)
    ensures |points| < FIELD_ELEMENTS_PER_BLOB
  {
    var e := CarrierExists(setup, data, i);
    var x := DifferentValue(setup, c, e, data, i);
    forall z | z in points
      ensures 0 <= z < BLS_MODULUS && Eval(c, z) % BLS_MODULUS == Eval(e, z) % BLS_MODULUS
    {
      assert Alike(setup, c, data, i, z);
    }
    AgreeRarely(c, e, x, points, BLS_MODULUS);
  }

  lemma DifferentValue(setup: Setup, c: seq<int>, e: seq<int>, data: Bytes, i: nat) returns (x: int)
    requires |c| == FIELD_ELEMENTS_PER_BLOB && !Carries(setup, c, data, i) && Carries(setup, e, data, i)
    ensures Eval(c, x) % BLS_MODULUS != Eval(e, x) % BLS_MODULUS
  {
    var w, values := DomainGenerator(setup.generator, TWO_ADICITY, DOMAIN_BITS), BlobValues(data, i);
    var m: nat :| m < |values|
      && Eval(c, Pow(w, ReverseBits(m, DOMAIN_BITS))) % BLS_MODULUS != values[m] % BLS_MODULUS;
    x := Pow(w, ReverseBits(m, DOMAIN_BITS));
    assert Eval(e, x) % BLS_MODULUS == values[m] % BLS_MODULUS;
  }

  /** When a commitment's polynomial opens to the witness's value at the witness's point, it carries the blob, or the
      challenge hit one of the fewer than 4096 points where the two happen to agree. */
  lemma OpeningAttests(setup: Setup, input: EquivalenceInput, i: nat, c: seq<int>)
    requires ValidSetup(setup) && Accepted(setup, input) && i < |input.blobVersionedHashes|
    requires |c| == FIELD_ELEMENTS_PER_BLOB && i < |input.evaluationPoints| && i < |input.evaluations|
    requires Eval(c, FromBE(input.evaluationPoints[i])) % BLS_MODULUS == FromBE(input.evaluations[i])
    ensures Alike(setup, c, input.canonicalData, i, FromBE(input.evaluationPoints[i]))
    ensures || Carries(setup, c, input.canonicalData, i)
            || forall points :: AlikeAt(setup, c, input.canonicalData, i, points) ==> |points| < FIELD_ELEMENTS_PER_BLOB
  {
    AcceptedExactly(setup, input);
    assert Witnessed(setup, input, i);
    if !Carries(setup, c, input.canonicalData, i) {
      forall points | AlikeAt(setup, c, input.canonicalData, i, points)
        ensures |points| < FIELD_ELEMENTS_PER_BLOB
      {
        StrangerIsAlikeRarely(setup, c, input.canonicalData, i, points);
      }
    }
  }
}
