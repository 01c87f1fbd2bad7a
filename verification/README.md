# zkdeal prover, verified

A Dafny model of the parts of the zkdeal prover where a fast computation replaces an obvious one, or where a commitment has
to pin down exactly what it claims. `dafny verify dfyconfig.toml` checks the whole project.

## What is modelled

- **Superinstruction interpreter** (`Gadgets`, `Opcodes`, `FrameObserver`, `Evm`). Fourteen opcodes get handlers that may
  also consume the next opcode. Sixteen arithmetic opcodes are concrete, all others are an arbitrary deterministic function
  of the machine. A transaction is an arbitrary program over database reads, frame boundaries and instruction loops.
- **Blob equivalence** (`RootsOfUnity`, `PolynomialRoots`, `BlobEvaluation`, `BlobPacking`, `Statements`, `BlobEquivalence`,
  `ChallengeBinding`, `EquivalenceMeaning`). Bit-reversed roots of unity, batch inversion, the barycentric formula of
  EIP-4844, 31-byte packing, and the Solidity ABI array encodings behind the statements. Polynomials live over the integers
  modulo a field modulus.
- **State, code cache and commitments** (`State`, `StateLaws`, `StateMaps`, `Compact`, `MerkleTree`, `SparseRoot`,
  `ColdShapes`, `ColdState`). Account reads, commits with a latched violation, the prepared-code cache, the compact witness,
  the sparse state root and the cold static commitment.
- **Batches and certified policy** (`Policy`, `Inspector`, `FromV5`, `PolicyMeaning`, `FromInput`, `Inbox`, `Block`,
  `BlockLaws`, `BlockEffects`, `Chain`, `Batch`, `BatchLaws`, `ColdLimits`, `ColdRoom`, `OpeningWrites`, `RefusedCredit`,
  `RoomV5`, `RoomV5Laws`). Blocks run in a loop that carries a state and its root; an inspector latches violations; a
  post-state check closes the batch. A v5 room writes mirrored L1 slots and deposit credits into its opening state before
  the policy is built.
- **Canonical batch bytes** (`Rlp`, `BlockData`, `BatchData`, `BatchDataV4`), with the RLP of Appendix B of the Ethereum
  Yellow Paper.
- **Circuit arithmetic** (`FieldBits`, `ScalarMul`, `Limbs`) and the **heartbeat loop** (`Heartbeat`, `HeartbeatRuns`).

The remaining modules (`Modular`, `BitFields`, `Polynomial`, `Bytes`, `Ordered`) hold arithmetic, bits, byte strings and
ordered listings.

## What is assumed

- Hash functions are arbitrary functions. Binding results say "equal, or two different strings hashed on the two sides have
  the same digest"; both sides' strings are listed in a finite set, so the second case names a real collision.
- `ValidPlatform`: REVM's decoder keeps the original bytes, and a hash map's iteration order lists each key once.
- `CodeOnlyFromCreation`: a call transaction whose trace shows no creation leaves every touched account with the code it had
  or none. Transactions that set code otherwise (type 4) are refused by `zkvm/crates/stf-core/src/txenv.rs:22-24`.
- Transaction programs ask the database for accounts, slots and block hashes but never for code by hash: REVM does that only
  for an account whose info carries no code, and `basic` always returns the code
  (`zkvm/crates/stf-core/src/db/evm.rs:15-36`).
- `IsGroupLaw`: twisted Edwards addition is associative with identity (0, 1) on the curve points, and `IsField` with a
  primitive root for the scalar field. `ToBits` is the decomposition of the canonical residue.
- Lists, code and storage are shorter than 2^64 where their lengths are hashed.

## Results that needed a condition

- Reading `to_input_state` back is the identity exactly on states without empty accounts and zero slots. Its comment says zero
  slots are omitted; the code keeps them (`Compact.InputRoundTrip`).
- `code_by_hash` keeps serving a cached runtime that no account holds any more, for example after an installed contract
  selfdestructs; it agrees with the uncached lookup exactly for the other hashes (`StateLaws.CodeByHashAgreement`,
  `StateLaws.StaleHashIsServed`).
- The violation a commit latches can depend on the order of two hash maps, the change set and an account's slots. All orders
  latch the same one exactly when one was latched before, or at most one change leaves the envelope and that change is to an
  undeclared account or writes a single undeclared slot (`StateLaws.LatchedErrorOrder`,
  `StateLaws.LatchedErrorDependsOnOrder`, `StateLaws.LatchedSlotDependsOnOrder`). Whether one is latched never depends on them
  (`StateLaws.CommitOrderIrrelevant`).
- The post-state check sees neither an unpinned address gaining code nor a resident zero slot outside the namespaces. The v5
  constructor accepts the post-state again exactly when neither happened (`FromV5.StateOkAgain`), and execution never makes
  them happen (`RoomV5.ContainmentAcrossBatches`).
- Over a state the v5 constructor accepts, imports and deposit credits leave a state it accepts again exactly when every
  token credit lands in a declared namespace (`OpeningWrites.WrittenStateOk`). The policy's shape does not ensure that:
  a well-shaped policy may bind a token without a namespace, and then a deposit makes the constructor refuse the batch
  (`RefusedCredit.AcceptedRoomRefusedAfterCredit`).
- A fused pair is two steps in the inspector's count on a host only: the RISC-V guest compiles the counting out
  (`FrameObserver.ObservationPreserved`).
- The probe after a failed first heartbeat attempt decides about the delay only; an unhealthy answer still retries
  (`Heartbeat.SecondProbeGatesOnlyTheDelay`).

## Model

| member | source | states |
|---|---|---|
| `Gadgets.DispatcherMatchesTable` | zkvm/crates/stf-core/src/opcode_gadgets.rs:220-276 | the fused dispatcher knows exactly the ranked pairs, each starts with a replaced opcode, and it runs the second opcode's own operation at its own price |
| `Gadgets.MotifTableAgrees` | zkvm/crates/stf-core/src/opcode_gadgets.rs:48-172 | the motif table and the rank match are inverse: the same fifty pairs, ranked 1 to 50 |
| `Gadgets.Top50Dispatches` | zkvm/crates/stf-core/src/opcode_gadgets.rs:102-172 | the dispatcher and price table agree with the rank match on all 65536 pairs |
| `Gadgets.InstallGadgets` | zkvm/crates/stf-core/src/opcode_gadgets.rs:311-330 | installation replaces exactly the fourteen handlers and keeps every price |
| `Gadgets.Interpreter.ExecutePure` | zkvm/crates/stf-core/src/opcode_gadgets.rs:175-217 | the pure handler pops, computes and pushes in place, or halts on underflow |
| `Gadgets.Interpreter.ExecuteFused` | zkvm/crates/stf-core/src/opcode_gadgets.rs:220-276 | the hand-written handler is its first operation followed, for a ranked pair on a running machine, by one reference step |
| `Gadgets.Interpreter.Step` | zkvm/crates/stf-core/src/opcode_gadgets.rs:220-330 | one dispatch of the interpreter object is one table step |
| `Gadgets.Interpreter.StepShipped` | zkvm/crates/stf-core/src/opcode_gadgets.rs:220-330 | with the installed table and the fifty shipped motifs, one dispatch of the object is one or two reference steps |
| `Gadgets.DispatchSimulates` | zkvm/crates/stf-core/src/opcode_gadgets.rs:220-276 | one dispatch is exactly one or two reference steps: stack, program counter, gas and halt reason |
| `Gadgets.RunSimulates` | zkvm/crates/stf-core/src/opcode_gadgets.rs:220-330 | n dispatches are k reference steps with n <= k <= 2n, for every bytecode, start state and gas |
| `Gadgets.FusionPreservesMeaning` | zkvm/crates/stf-core/src/opcode_gadgets.rs:220-330 | the fused and the reference interpreter halt in the same final states |
| `Gadgets.FinalStateUnique` | zkvm/crates/stf-core/src/opcode_gadgets.rs:220-330 | a run has at most one final state |
| `Opcodes.OpcodeComputes` | zkvm/crates/stf-core/src/opcode_gadgets.rs:175-217 | each modelled opcode leaves its word: sums and products modulo 2^256, quotients with zero for zero, comparisons, and every bit of the bitwise operations and shifts |
| `Opcodes.ReferenceStepComputes` | zkvm/crates/stf-core/src/opcode_gadgets.rs:175-217 | a reference step charges the opcode its price and replaces its operands by that word, or halts for gas or a short stack |
| `Opcodes.ReferenceStepElsewhere` | zkvm/crates/stf-core/src/opcode_gadgets.rs:175-217 | at any other opcode, STOP past the end of the code, it advances, pays and does what that opcode does |
| `FrameObserver.ObservationPreserved` | zkvm/crates/stf-core/src/policy/inspector.rs:169-243 | n fused dispatches leave the inspector the record of k plain ones: same violation, KECCAK, call and memory counters, and on a host build the same number of steps |
| `Evm.FramesAlike` | zkvm/crates/stf-core/src/block.rs:158-172 | an instruction loop ends the same way under both interpreters and no inspector can tell which one ran it |
| `Evm.ExecutionsAlike` | zkvm/crates/stf-core/src/block.rs:186-194 | any transaction over a cached state with fused opcodes runs like the reference over the plain state |
| `Evm.FusedExecutionIsTransparent` | zkvm/crates/stf-core/src/block.rs:158-172 | whatever program the EVM is, fused execution with the cache is transparent |
| `RootsOfUnity.Barycentric` | zkvm/crates/stf-types/src/hosting.rs:269-312 | the shares of a polynomial's values at all powers of a primitive root sum to N times its value at any point |
| `RootsOfUnity.ReverseBitsInvolution` | zkvm/crates/stf-types/src/hosting.rs:277-282 | reversing the bits of an index twice gives it back |
| `BlobEvaluation.BitReversedRoots` | zkvm/crates/stf-types/src/hosting.rs:273-282 | the root loop fills the bit-reversed powers of the primitive root |
| `BlobEvaluation.Prefixes` | zkvm/crates/stf-types/src/hosting.rs:290-295 | the prefix loop holds the running products of the denominators |
| `BlobEvaluation.BatchInversionStep` | zkvm/crates/stf-types/src/hosting.rs:296-304 | one backward step of batch inversion yields that denominator's inverse and the inverse of the shorter product |
| `BlobEvaluation.Invert` | zkvm/crates/stf-types/src/hosting.rs:296-297 | the inverse exists exactly for non-zero residues |
| `BlobEvaluation.EvaluateBlob` | zkvm/crates/stf-types/src/hosting.rs:269-312 | the result is the value at z of every polynomial of degree below N through the values on the bit-reversed roots, on and off the domain; neither `expect` can fire |
| `BlobEvaluation.InterpolantExists` | zkvm/crates/stf-types/src/hosting.rs:269-312 | every value vector has an interpolating polynomial on the domain |
| `BlobEvaluation.InterpolantUnique` | zkvm/crates/stf-types/src/hosting.rs:269-312 | interpolants of the same values agree at every point |
| `BlobPacking.BlobFieldValues` | zkvm/crates/stf-types/src/hosting.rs:245-265 | field elements are the 31-byte payloads in order, zero past the end, all below the modulus |
| `BlobPacking.PaddedWord` | zkvm/crates/stf-types/src/hosting.rs:169-178 | a left-padded payload is a canonical scalar with the payload's value |
| `BlobPacking.CanonicalBlobBytes` | zkvm/crates/stf-types/src/hosting.rs:206-213 | blob bytes are the 4096 big-endian field words of that blob |
| `BlobPacking.UnpackPacked` | zkvm/crates/stf-types/src/hosting.rs:206-265 | unpacking ceil(len/126976) blobs with the known length returns the data, partial tail included |
| `BlobPacking.PackingInjective` | zkvm/crates/stf-types/src/hosting.rs:329-335 | data of equal length with the same blobs are equal |
| `Statements.AbiWordArray` | zkvm/crates/stf-types/src/hosting.rs:103-109 | the loop writes the `bytes32[]` encoding |
| `Statements.AbiBytesArray` | zkvm/crates/stf-types/src/hosting.rs:113-128 | the offset and padding loops write the `bytes[]` encoding |
| `Statements.ReadElementWritten` | zkvm/crates/stf-types/src/hosting.rs:113-128 | following the i-th offset reads back the i-th element |
| `Statements.BytesArrayInjective` | zkvm/crates/stf-types/src/hosting.rs:113-128 | equal `bytes[]` encodings come from equal arrays |
| `Statements.DataAvailabilityBinding` | zkvm/crates/stf-types/src/hosting.rs:130-144 | equal statements: equal inputs in the same order, or a collision of hashed strings |
| `Statements.AggregateBinding` | zkvm/crates/stf-types/src/hosting.rs:146-167 | equal aggregate statements: the same members in the same order, or a collision |
| `Statements.ValidateAggregate` | zkvm/crates/stf-types/src/hosting.rs:367-393 | an aggregate is accepted exactly when every member is acceptable next to those before it |
| `BlobEquivalence.Challenge` | zkvm/crates/stf-types/src/hosting.rs:218-243 | rejection sampling returns the first candidate of the transcript that is a canonical scalar |
| `BlobEquivalence.ChallengeUnique` | zkvm/crates/stf-types/src/hosting.rs:218-243 | a transcript has at most one challenge |
| `ChallengeBinding.TranscriptBinding` | zkvm/crates/stf-types/src/hosting.rs:218-237 | equal transcripts come from the same domain, room, journal, data digest and length, start index, blob index, versioned hash, commitment and counter |
| `ChallengeBinding.ChallengeBindsFields` | zkvm/crates/stf-types/src/hosting.rs:215-243 | equal challenges of two inputs: the same public fields and data for the blob, or transcripts or data collide |
| `ChallengeBinding.VersionedHashBinds` | zkvm/crates/stf-types/src/hosting.rs:198-202 | equal versioned hashes come from equal commitments, or their digests agree past the version byte |
| `BlobEquivalence.BlobEquivalenceEvaluation` | zkvm/crates/stf-types/src/hosting.rs:184-196 | the evaluation opens the blob's polynomial at the point |
| `BlobEquivalence.OpeningUnique` | zkvm/crates/stf-types/src/hosting.rs:184-196 | at most one value opens a blob at a point |
| `PolynomialRoots.FewRoots` | zkvm/crates/stf-types/src/hosting.rs:269-312 | a polynomial of degree below n over the field has fewer than n roots, unless all its coefficients vanish |
| `BlobEquivalence.DistinctBlobsAgreeRarely` | zkvm/crates/stf-types/src/hosting.rs:184-243 | two blobs with different values open alike at fewer than 4096 points of the field |
| `BlobEquivalence.DistinctDataAgreesRarely` | zkvm/crates/stf-types/src/hosting.rs:184-243 | different data of one length differ in some blob, which then tells them apart at all but fewer than 4096 points |
| `BlobEquivalence.ValidateBlobEquivalence` | zkvm/crates/stf-types/src/hosting.rs:316-365 | a witness is accepted exactly when every blob's hash, challenge and opening are right; otherwise the first error is reported |
| `EquivalenceMeaning.AcceptedExactly` | zkvm/crates/stf-types/src/hosting.rs:316-365 | accepted are exactly the witnesses with one to six blobs from the start index on, as many as the data needs, each with a version-one hash of its 48-byte commitment, the transcript's challenge and the canonical value there |
| `EquivalenceMeaning.OpeningAttests` | zkvm/crates/stf-types/src/hosting.rs:316-365 | a polynomial of degree below 4096 that opens to an accepted witness's value at its point carries the blob, or the challenge hit one of the fewer than 4096 points where the two agree |
| `EquivalenceMeaning.StrangerIsAlikeRarely` | zkvm/crates/stf-types/src/hosting.rs:184-243 | a polynomial that does not carry a blob takes the blob's value at fewer than 4096 points |
| `StateLaws.ReadsIgnoreCache` | zkvm/crates/stf-core/src/db/evm.rs:15-36 | account reads through a valid cache equal uncached reads |
| `StateLaws.RootIgnoresCache` | zkvm/crates/stf-core/src/db/roots.rs:16-38 | the trie root through a valid cache equals the uncached root |
| `StateLaws.TrieRootBinding` | zkvm/crates/stf-core/src/db/roots.rs:16-38 | equal trie roots of states without empty accounts: the same accounts, or the account trie, a storage trie or the code hash collides |
| `StateLaws.TrieRootExact` | zkvm/crates/stf-core/src/db/roots.rs:16-38 | states that differ in empty accounts at most have one trie root, and equal roots come from such states or a collision |
| `StateLaws.InstallKeepsCacheValid` | zkvm/crates/stf-core/src/db/mod.rs:205-249 | an installed cache maps each hash to the decoded runtime with that hash |
| `StateLaws.CommitForgetsCache` | zkvm/crates/stf-core/src/db/evm.rs:97-187 | forgetting the cache before or after a commit is the same |
| `StateLaws.CacheInvisible` | zkvm/crates/stf-core/src/db/mod.rs:205-271 | over any installs, clears and commits the cache stays valid and never changes the state beneath it |
| `StateLaws.HistoryReadsAgree` | zkvm/crates/stf-core/src/db/evm.rs:15-68 | reads and the root after any history equal those of the uncached history |
| `StateLaws.CodeByHashAgreement` | zkvm/crates/stf-core/src/db/evm.rs:38-49 | lookup by hash agrees with the uncached lookup exactly when the hash is uncached or held by a live account |
| `StateLaws.StaleHashIsServed` | zkvm/crates/stf-core/src/db/evm.rs:38-49 | after installing a contract and a commit that selfdestructs it, its hash is still served, unlike in the uncached history |
| `StateLaws.CommitPointwise` | zkvm/crates/stf-core/src/db/evm.rs:97-187 | each account and cache binding after a commit depends on its own entry only |
| `StateLaws.CommitReadsBack` | zkvm/crates/stf-core/src/db/evm.rs:131-170 | after a commit written slots hold their values, others keep theirs unless created anew, and destroyed accounts are gone |
| `StateLaws.CommitReadsBackInfo` | zkvm/crates/stf-core/src/db/evm.rs:15-36 | through the reader and any valid cache a deployed contract reads back as committed, an account without code as one, and where only a hash was committed the code is the one read before |
| `StateLaws.CommitReadsBackSlot` | zkvm/crates/stf-core/src/db/evm.rs:51-68 | through the reader a declared slot of a committed account holds the written value, or the earlier one unless created anew |
| `StateLaws.UntouchedReadsSame` | zkvm/crates/stf-core/src/db/evm.rs:97-187 | accounts a commit does not touch read as before |
| `StateLaws.CommitViolation` | zkvm/crates/stf-core/src/db/evm.rs:109-130 | a commit latches nothing exactly when nothing was latched and all touched writes are declared |
| `StateLaws.CommitOrderIrrelevant` | zkvm/crates/stf-core/src/db/evm.rs:97-187 | commit gives the same accounts, bindings and latched-or-not in any order of the change set and of each account's slots |
| `StateLaws.LatchedErrorOrder` | zkvm/crates/stf-core/src/db/evm.rs:109-130 | all orders of changes and slots latch the same error exactly when one was latched before, or at most one change leaves the envelope and it is to an undeclared account or writes one undeclared slot |
| `StateLaws.LatchedIsFirstOffence` | zkvm/crates/stf-core/src/db/evm.rs:109-130 | a commit latches the violation of the first undeclared change in its order, unless something was latched before |
| `StateLaws.LatchedErrorDependsOnOrder` | zkvm/crates/stf-core/src/db/evm.rs:109-130 | with two undeclared accounts the two orders latch different errors |
| `StateLaws.LatchedSlotDependsOnOrder` | zkvm/crates/stf-core/src/db/evm.rs:117-129 | with two undeclared slots of one declared account the two slot orders latch different errors |
| `StateLaws.CommitKeepsContained` | zkvm/crates/stf-core/src/db/evm.rs:97-187 | a commit that latches nothing keeps the state in the envelope, without empty accounts or zero slots |
| `StateLaws.CommitsKeepContained` | zkvm/crates/stf-core/src/db/evm.rs:97-187 | so does any number of commits |
| `StateMaps.StateMap.ReadBasic` | zkvm/crates/stf-core/src/db/evm.rs:15-36 | the reader returns the account with its code, or an error outside the envelope |
| `StateMaps.StateMap.ReadCodeByHash` | zkvm/crates/stf-core/src/db/evm.rs:38-49 | the scan returns the cached code or that of the least address holding the hash |
| `StateMaps.StateMap.CommitChanges` | zkvm/crates/stf-core/src/db/evm.rs:97-187 | the in-place commit loop has exactly the specified effect on accounts, latch and bindings; what that is to a reader is `CommitReadsBackInfo` and `CommitReadsBackSlot` |
| `StateMaps.StateMap.InstallPreparedRuntimeCode` | zkvm/crates/stf-core/src/db/mod.rs:205-249 | installation succeeds exactly when every frozen hash matches, and otherwise changes nothing |
| `StateMaps.StateMap.ClearPreparedRuntimeCode` | zkvm/crates/stf-core/src/db/mod.rs:252-255 | clearing empties both cache maps and nothing else |
| `Compact.ReadSlots` | zkvm/crates/stf-core/src/compact.rs:131-159 | slots are accepted exactly when strictly sorted, and the non-zero ones become resident |
| `Compact.VerifyRoomLocal` | zkvm/crates/stf-core/src/compact.rs:17-180 | a room-local witness is accepted exactly when well formed, and the state then holds exactly the listed accounts and envelope |
| `Compact.OpenedUnique` | zkvm/crates/stf-core/src/compact.rs:17-180 | a witness opens at most one state |
| `Compact.AcceptedIsContained` | zkvm/crates/stf-core/src/compact.rs:84-173 | an accepted witness has no empty account, no zero slot and nothing undeclared |
| `Compact.RoomStaysContained` | zkvm/crates/stf-core/src/compact.rs:17-180 | after any commits without a latched violation that is still so |
| `Compact.InputRoundTrip` | zkvm/crates/stf-core/src/db/mod.rs:276-292 | `from_input` after `to_input_state` is the identity exactly without empty accounts and zero slots |
| `Compact.ContainedRoundTrip` | zkvm/crates/stf-core/src/db/mod.rs:124-152 | so it is the identity on contained states |
| `MerkleTree.HashLevels` | zkvm/crates/stf-core/src/db/roots.rs:51-62 | the halving loop computes the root of the full tree |
| `MerkleTree.ComputeTreeRoot` | zkvm/crates/stf-core/src/db/roots.rs:44-68 | padding, halving and committing the count compute the tree root |
| `MerkleTree.MerkleBinding` | zkvm/crates/stf-core/src/db/roots.rs:51-62 | equal roots over equally many leaves have equal leaves, when no node strings collide |
| `MerkleTree.TreeBinding` | zkvm/crates/stf-core/src/db/roots.rs:44-68 | equal committed roots have the same leaves in the same number, when no strings collide |
| `SparseRoot.StorageBinding` | zkvm/crates/stf-core/src/db/roots.rs:75-89 | equal storage roots have the same non-zero slots, when no strings collide |
| `SparseRoot.SparseRootBinding` | zkvm/crates/stf-core/src/db/roots.rs:43-105 | equal sparse roots: the same non-empty accounts and non-zero slots, or a collision |
| `SparseRoot.SparseRootDeterminedByVisible` | zkvm/crates/stf-core/src/db/roots.rs:43-105 | the same non-empty accounts and non-zero slots give the same sparse root |
| `ColdShapes.IndexAccess` | zkvm/crates/stf-core/src/cold_state.rs:64-96 | the access list is accepted exactly when sorted and capped, and the map then indexes it |
| `ColdShapes.CheckRefresh` | zkvm/crates/stf-core/src/cold_state.rs:106-137 | a refresh rule is accepted exactly when it names slots of an access account; the binary search is exact membership |
| `ColdShapes.ValidateColdShapes` | zkvm/crates/stf-core/src/cold_state.rs:38-139 | the validator accepts exactly the lists of the required shape |
| `ColdShapes.VerifyColdRuntimeCode` | zkvm/crates/stf-core/src/cold_state.rs:141-173 | accepted exactly when the deployed code is the committed bundle and nothing else |
| `ColdShapes.RuntimeBinding` | zkvm/crates/stf-core/src/cold_state.rs:141-173 | two states verified against one bundle run the same code everywhere, or runtimes collide |
| `ColdState.StaticSlotsExact` | zkvm/crates/stf-core/src/cold_state.rs:215-226 | the static slots are exactly the access slots no rule refreshes |
| `ColdState.ViewsEqualIffAgree` | zkvm/crates/stf-core/src/cold_state.rs:194-258 | the committed views of an account are equal exactly when the states agree on everything not refreshable |
| `ColdState.AccessRootBinding` | zkvm/crates/stf-types/src/v4/cold.rs:40-58 | the access root binds the access list |
| `ColdState.RefreshRootBinding` | zkvm/crates/stf-types/src/v4/cold.rs:60-83 | the refresh root binds the refresh list |
| `ColdState.CommitmentBinding` | zkvm/crates/stf-core/src/cold_state.rs:179-268 | equal commitments come from the same lists and views, or strings collide |
| `ColdState.ColdStaticStateCommitment` | zkvm/crates/stf-core/src/cold_state.rs:179-268 | a commitment exists exactly for valid lists and covered states, and is the digest of the static view |
| `ColdState.CommitmentMeansAgreement` | zkvm/crates/stf-core/src/cold_state.rs:179-268 | agreeing states have equal commitments; equal commitments mean agreement or a collision |
| `Policy.PrefixIsInterval` | zkvm/crates/stf-core/src/policy/mod.rs:238-244 | a namespace is an aligned interval of 2^(256 - bits) slots |
| `Policy.WordErrorExact` | zkvm/crates/stf-core/src/policy/enforce.rs:65-88 | an argument word passes exactly when it is the ABI encoding of an active member |
| `Policy.ArgumentErrorExact` | zkvm/crates/stf-core/src/policy/enforce.rs:49-90 | arguments pass exactly when every ruled word names an active member |
| `Policy.ValidateArgumentsExact` | zkvm/crates/stf-core/src/policy/enforce.rs:49-90 | a call's arguments pass exactly when every word its first matching rule lists names an active member |
| `Policy.ScanOtherCode` | zkvm/crates/stf-core/src/policy/from_v5.rs:93-97 | the account loop accepts exactly states without code outside the pinned set |
| `Policy.DiffsWritableExact` | zkvm/crates/stf-core/src/policy/enforce.rs:139-174 | scanning resident keys decides all slots of all addresses |
| `Policy.AcceptedPostState` | zkvm/crates/stf-core/src/policy/enforce.rs:122-177 | a certified terminal state is accepted exactly with pinned code intact, guards met and writes in writable namespaces only |
| `Inspector.CertifiedInspector.Reset` | zkvm/crates/stf-core/src/policy/inspector.rs:51-53 | only the violation is cleared between transactions |
| `Inspector.CertifiedInspector.Step` | zkvm/crates/stf-core/src/policy/inspector.rs:169-219 | the instruction callback updates counters and latches the memory cap |
| `Inspector.CertifiedInspector.StepEnd` | zkvm/crates/stf-core/src/policy/inspector.rs:221-243 | the closing callback counts a fused pair, on a host build, and latches the memory cap |
| `Inspector.CertifiedInspector.OnCallFrame` | zkvm/crates/stf-core/src/policy/inspector.rs:245-286 | a call is checked against the envelope unless something is latched already; which calls pass is `PolicyMeaning.CallAllowedExactly` |
| `Inspector.EntryExact` | zkvm/crates/stf-core/src/policy/inspector.rs:65-99 | the entry check finds nothing exactly for creations where creation is allowed and for allow-listed calls whose ruled arguments all name active members |
| `Inspector.CertifiedInspector.ValidateTransactionEntry` | zkvm/crates/stf-core/src/policy/inspector.rs:65-99 | the transaction passes exactly when its outermost frame is an allowed creation or an allow-listed call whose ruled arguments all name active members |
| `Inspector.CertifiedInspector.Watch` | zkvm/crates/stf-core/src/policy/inspector.rs:165-304 | feeding a trace through the callbacks folds it into the record |
| `Inspector.ObserveExact` | zkvm/crates/stf-core/src/policy/inspector.rs:165-304 | nothing is latched after a trace exactly when every event was inside the envelope |
| `Inspector.FirstViolationKept` | zkvm/crates/stf-core/src/policy/inspector.rs:165-304 | what is latched after a trace is the report of its first event outside the envelope |
| `Inspector.CountersExact` | zkvm/crates/stf-core/src/policy/inspector.rs:169-219 | the counters hold the numbers of instructions, hashes and calls, saturating, and the largest memory |
| `FromV5.PinCode` | zkvm/crates/stf-core/src/policy/from_v5.rs:69-92 | code pins are accepted exactly when sorted, non-zero and matched by the state |
| `FromV5.Construct` | zkvm/crates/stf-core/src/policy/from_v5.rs:39-317 | the constructor accepts exactly well-shaped policies over states with the pinned code, no other code and all storage in namespaces |
| `PolicyMeaning.CallAllowedExactly` | zkvm/crates/stf-core/src/policy/enforce.rs:17-47 | a call passes exactly when a rule of the policy as written lists caller or member sentinel, target, selector and kind; a pinned contract may CALL or STATICCALL any precompile; CALLCODE never passes |
| `PolicyMeaning.EntryAllowedExactly` | zkvm/crates/stf-core/src/policy/inspector.rs:65-99 | a transaction enters exactly by a listed plain call, or as a pinned contract to a precompile, never by creation |
| `PolicyMeaning.OtherEventsExactly` | zkvm/crates/stf-core/src/policy/inspector.rs:169-304 | otherwise memory up to the written cap passes, creation and selfdestruct never |
| `PolicyMeaning.AcceptedKindsKnown` | zkvm/crates/stf-core/src/policy/from_v5.rs:99-135 | an accepted policy lists only the kinds CALL, STATICCALL and DELEGATECALL |
| `PolicyMeaning.WritableExactly` | zkvm/crates/stf-core/src/policy/mod.rs:238-244 | a slot may be written exactly when it lies in the interval of a writable namespace of its contract |
| `PolicyMeaning.PinnedExactly` | zkvm/crates/stf-core/src/policy/from_v5.rs:69-92 | an address is pinned exactly when the policy lists it, to the listed hash |
| `PolicyMeaning.GuardValueIsField` | zkvm/crates/stf-core/src/policy/enforce.rs:101-118 | a guarded value has the bits of the slot from the offset on, as many as the width |
| `PolicyMeaning.GuardsExactly` | zkvm/crates/stf-core/src/policy/enforce.rs:92-120 | when the membership changes, and only then, each guarded contract must be there with the guarded bits spelling an allowed value |
| `FromV5.StateOkAgain` | zkvm/crates/stf-core/src/policy/from_v5.rs:69-169 | after an accepted transition the constructor's state checks pass again exactly when zero slots are covered and no unpinned address gained code |
| `FromV5.ScanNamespaces` | zkvm/crates/stf-core/src/policy/from_v5.rs:157-168 | the storage loops accept exactly states whose resident slots all lie in namespaces |
| `FromV5.NewCodeIsNotSeen` | zkvm/crates/stf-core/src/policy/enforce.rs:122-177 | the post-state check does not see code at an unpinned address |
| `FromV5.ZeroSlotIsNotSeen` | zkvm/crates/stf-core/src/policy/enforce.rs:139-174 | nor a resident zero slot outside every namespace |
| `FromV5.ContainmentOverRuns` | zkvm/crates/stf-core/src/policy/from_v5.rs:69-169 | containment holds in every state of every run of transitions that keep code and store no zeros |
| `FromInput.VerifyRoster` | zkvm/crates/stf-core/src/policy/mod.rs:176-236 | a roster is accepted exactly when every slot is well formed, active accounts are distinct, and root and masks match |
| `FromInput.RosterBits` | zkvm/crates/stf-core/src/policy/mod.rs:176-236 | bit i of the active mask says that slot i is active, bit i of the used mask that it was ever used |
| `FromInput.CheckPins` | zkvm/crates/stf-core/src/policy/from_input.rs:153-161 | the pin loop accepts exactly states with every pinned account and its code |
| `FromInput.CheckDomains` | zkvm/crates/stf-core/src/policy/from_input.rs:170-213 | the binding loop accepts exactly distinct bindings of pinned contracts whose slots hold the derived domains |
| `FromInput.CheckDeclared` | zkvm/crates/stf-core/src/policy/from_input.rs:395-422 | the witness loops accept exactly declared slots of pinned accounts inside namespaces |
| `FromInput.Construct` | zkvm/crates/stf-core/src/policy/from_input.rs:129-442 | the parsed preset is accepted exactly with its roster, pins, domains, declared storage and guards in order |
| `FromInput.AcceptedStartsCovered` | zkvm/crates/stf-core/src/policy/from_input.rs:395-422 | a certified room starts with all resident storage inside namespaces |
| `FromInput.InstallCannotFail` | zkvm/crates/stf-core/src/batch_v4.rs:172-178 | after acceptance the cache installs on every state with the same code |
| `Inbox.CreditsKeep` | zkvm/crates/stf-core/src/settlement/program.rs:270-317 | credits never touch code, envelope, cache or latch, and keep the state contained |
| `Inbox.CreditExact` | zkvm/crates/stf-core/src/settlement/program.rs:270-317 | a credit adds its amount to the recipient's balance, or to token balance and supply, and to nothing else |
| `Inbox.CreditsExact` | zkvm/crates/stf-core/src/settlement/program.rs:270-317 | every balance and slot grows by exactly what a list of credits adds to it |
| `Inbox.CreditAcceptedExactly` | zkvm/crates/stf-core/src/settlement/program.rs:270-317 | a credit is refused exactly when it is zero, its destination is undeclared or absent, or a sum leaves 256 bits |
| `Inbox.MappingSlotBinds` | zkvm/crates/stf-core/src/settlement/mod.rs:93-98 | two mapping entries share a slot only when they are the same entry or their preimages collide |
| `Block.InstallBlockHashes` | zkvm/crates/stf-core/src/db/mod.rs:174-199 | a history is accepted exactly when bounded, ordered and within the last 256 heights |
| `Block.HistoryServed` | zkvm/crates/stf-core/src/db/mod.rs:174-199 | BLOCKHASH serves exactly the admitted entries and zero elsewhere |
| `Block.RunTransactions` | zkvm/crates/stf-core/src/block.rs:174-216 | the transaction loop drives inspector, state and gas as the recursive account says; what that accepts and leaves is `BlockEffects.LoopExact` and `BlockEffects.LastTouchDecides` |
| `Block.ExecuteBlockOnState` | zkvm/crates/stf-core/src/block.rs:100-268 | the block executor computes the specified outcome or error; what that is over the whole block is `BlockEffects.BlockAcceptedExactly`, `BlockLeaves` and `BlockReports` |
| `Block.AcceptedTxs` | zkvm/crates/stf-core/src/block.rs:176-216 | every transaction of an accepted block decoded, had an allowed root call and a trace inside the envelope |
| `BlockEffects.StepExact` | zkvm/crates/stf-core/src/block.rs:176-216 | a transaction is accepted exactly when it decodes, enters and runs inside the envelope, writes declared accounts and slots only and fits the gas budget |
| `BlockEffects.LoopExact` | zkvm/crates/stf-core/src/block.rs:174-216 | the loop accepts exactly when every transaction does, from the state the ones before it left |
| `BlockEffects.LastTouchDecides` | zkvm/crates/stf-core/src/block.rs:176-216 | an account is left as the last transaction touching it committed it; an untouched one is unchanged |
| `BlockEffects.OutcomesExact` | zkvm/crates/stf-core/src/block.rs:190-193 | each transaction is reported by its hash and by whether its run succeeded |
| `BlockEffects.BlockAcceptedExactly` | zkvm/crates/stf-core/src/block.rs:100-235 | a block is accepted exactly when its history, its root check and every transaction are |
| `BlockEffects.BlockLeaves` | zkvm/crates/stf-core/src/block.rs:174-235 | the state an accepted block hands on has every account as its last toucher left it, and the others as before |
| `BlockEffects.BlockReports` | zkvm/crates/stf-core/src/block.rs:251-267 | the journal has the block's own numbers, roots and commitments, and the outcomes are the runs' own |
| `BlockLaws.TxsAccounted` | zkvm/crates/stf-core/src/block.rs:173-216 | the gas of accepted transactions adds up within the block limit, and each is recorded under its own hash |
| `BlockLaws.RootCheckRedundant` | zkvm/crates/stf-core/src/block.rs:118-128 | checking a carried root that is right never changes the result |
| `BlockLaws.BlockCarriesRoot` | zkvm/crates/stf-core/src/block.rs:222-263 | a block hands on the root of the state it hands on |
| `BlockLaws.BlocksAlike` | zkvm/crates/stf-core/src/block.rs:100-268 | a block gives the same journal, gas and outcomes, or the same error, with and without gadgets and cache |
| `BlockLaws.BlockKeeps` | zkvm/crates/stf-core/src/block.rs:176-216 | an accepted block keeps the state contained, and a certified one creates no code |
| `Chain.RunBlocks` | zkvm/crates/stf-core/src/batch_v4.rs:203-282 | the block loop computes the specified carry or error |
| `Chain.CarriedRootIsStateRoot` | zkvm/crates/stf-core/src/batch_v4.rs:247-275 | the carried root is always the recomputed root of the carried state |
| `Chain.RootToRoot` | zkvm/crates/stf-core/src/batch_v4.rs:247-275 | every block runs from a state whose root is the start root or the previous block's recorded root |
| `Chain.VerifyingChangesNothing` | zkvm/crates/stf-core/src/batch_v4.rs:247-260 | turning the root check on never changes the loop's result |
| `Chain.AcceptedBlock` | zkvm/crates/stf-core/src/batch_v4.rs:203-282 | before each block the loop holds the previous block's root and timestamp, and the block passed its checks |
| `Chain.ChainAcceptedExactly` | zkvm/crates/stf-core/src/batch_v4.rs:203-282 | the loop accepts exactly the lists with a chain of states in which each block passes its header check, runs from the state the block before it left, and reaches its root within the gas cap |
| `Chain.ChainsAlike` | zkvm/crates/stf-core/src/batch_v4.rs:203-282 | the loop with gadgets and cache carries what the loop without them carries |
| `Chain.ChainKeeps` | zkvm/crates/stf-core/src/batch_v4.rs:203-282 | an accepted loop keeps the envelope and adds no empty account; a certified one creates no code |
| `Chain.EveryTransactionAllowed` | zkvm/crates/stf-core/src/block.rs:176-216 | in every transaction of every accepted block, root call and trace were inside the envelope |
| `Batch.CreditInbox` | zkvm/crates/stf-core/src/settlement/inbox.rs:55-153 | the inbox loop applies the credits of each entry in order |
| `Batch.OpenState` | zkvm/crates/stf-core/src/batch_v4.rs:58-166 | the opening checks counts, masks, cursor and data hash, authenticates the witness and the cold link, builds the policy and applies the inbox |
| `BatchLaws.InboxExact` | zkvm/crates/stf-core/src/settlement/inbox.rs:55-153 | after the inbox every balance and slot has grown by exactly the credits of all entries |
| `BatchLaws.OpenedMasks` | zkvm/crates/stf-core/src/batch_v4.rs:76-96 | an opened batch has seven-slot masks with every active slot a used one, before and after, and an inbox that does not run backwards |
| `BatchLaws.OpenedMembers` | zkvm/crates/stf-core/src/policy/mod.rs:176-236 | the members of an opened batch are exactly the accounts of the slots whose active bit is set |
| `BatchLaws.SettlementOpened` | zkvm/crates/stf-core/src/batch_v4.rs:97-199 | an opened batch passed the membership, exit and inbox checks of settlement |
| `Batch.ExecuteWithRuntimeCache` | zkvm/crates/stf-core/src/batch_v4.rs:53-366 | batch execution computes the specified journal or error, with or without the runtime cache |
| `BatchLaws.OpeningIsGood` | zkvm/crates/stf-core/src/batch_v4.rs:128-178 | an accepted opening is contained, its root is known, and the cache installation cannot fail |
| `BatchLaws.ProductionEqualsFallback` | zkvm/crates/stf-core/src/batch_v4.rs:32-51 | production and fallback give the same journal or the same error, for every input |
| `BatchLaws.ProductionParity` | zkvm/crates/stf-core/src/batch_v4.rs:32-51 | the same with the EVM as any program and the fused table against REVM's own |
| `BatchLaws.ShippedParity` | zkvm/crates/stf-core/src/batch_v4.rs:32-51 | the same at the shipped configuration: the fifty motifs and the table installation leaves |
| `BatchLaws.RootChecksChangeNothing` | zkvm/crates/stf-core/src/batch_v4.rs:194-260 | recomputing the root before every block, or after an empty inbox, would never change a batch |
| `BatchLaws.AcceptedBatchIsChained` | zkvm/crates/stf-core/src/batch_v4.rs:203-288 | accepted blocks are contiguous in height, ordered in time, in the room's fixed environment with its chain id and gas limit, and chained root to root: each runs from a state with the previous recorded root, and the final root is the final state's |
| `BatchLaws.HeaderExact` | zkvm/crates/stf-core/src/batch_v4.rs:204-237 | a block passes the header check exactly with the next height, a time not before the last, and the room's fixed environment |
| `BatchLaws.CertifiedBatchIsSafe` | zkvm/crates/stf-core/src/batch_v4.rs:203-292 | an accepted certified batch made only allowed calls, created and destroyed nothing, stayed under the memory cap, and wrote only writable namespaces with pinned code intact |
| `BatchLaws.PublishedDataBinds` | zkvm/crates/stf-core/src/batch_v4.rs:120-126 | accepted batches with the same block-data hash carry the same heights, timestamps, roots and transactions over the same previous root, or their bytes collide |
| `BatchLaws.ComposedBatchStartsAsProven` | zkvm/crates/stf-core/src/batch_v4.rs:136-138 | a composed batch opens with the lists, the code and every value outside the refresh rules that the cold run proved, or strings collide |
| `OpeningWrites.ApplyImport` | zkvm/crates/stf-core/src/room_v5/import.rs:99-147 | the mirror loop writes the complete certified adapter map, declared slots of resident contracts only |
| `OpeningWrites.ImportExact` | zkvm/crates/stf-core/src/room_v5/import.rs:113-145 | every mirrored slot holds its authenticated L1 value, every other slot and balance is unchanged |
| `OpeningWrites.ImportIsCertified` | zkvm/crates/stf-core/src/room_v5/import.rs:99-125 | an accepted import mirrors exactly the policy's bindings for its adapter, version and source, in order, from authenticated slots |
| `OpeningWrites.NetValue` | zkvm/crates/stf-core/src/room_v5/liabilities.rs:44-54 | the fee loop with its overflow check finds the amount less all fees naming the deposit, or refuses |
| `OpeningWrites.ApplyDeposits` | zkvm/crates/stf-core/src/room_v5/liabilities.rs:36-95 | the deposit loop places each net value in turn, or refuses |
| `OpeningWrites.DepositsExact` | zkvm/crates/stf-core/src/room_v5/liabilities.rs:36-95 | every balance and slot grows by exactly the net value of the deposits sent there |
| `OpeningWrites.DepositsConserve` | zkvm/crates/stf-core/src/room_v5/liabilities.rs:36-95 | with distinct deposits, what is credited and the fees that name live deposits, each counted once, add up to what those deposits brought in |
| `OpeningWrites.TokenFound` | zkvm/crates/stf-core/src/room_v5/liabilities.rs:71-84 | the bound token is the first asset of the exit listed as a token |
| `OpeningWrites.NoTokenFound` | zkvm/crates/stf-core/src/room_v5/liabilities.rs:71-84 | an asset not listed as a token has no bound token |
| `OpeningWrites.WrittenStateOk` | zkvm/crates/stf-core/src/room_v5/mod.rs:206-249 | over a state the constructor accepts, import and credits leave one it accepts exactly when every token credit lands in a declared namespace |
| `OpeningWrites.ImportKeepsNonEmpty` | zkvm/crates/stf-core/src/room_v5/import.rs:133-144 | no import empties an account of an opened state |
| `OpeningWrites.WrittenIsContained` | zkvm/crates/stf-core/src/room_v5/mod.rs:185-219 | import and credits leave an opened state contained: inside its envelope, without empty accounts and zero slots |
| `RefusedCredit.AcceptedRoomRefusedAfterCredit` | zkvm/crates/stf-core/src/room_v5/mod.rs:206-249 | a well-shaped policy, a witness that opens a state the constructor accepts, and a deposit after whose credit it refuses |
| `RoomV5.GatherSenders` | zkvm/crates/stf-core/src/room_v5/mod.rs:225-241 | the decoding loops collect exactly the senders of all transactions, or refuse |
| `RoomV5.PredecodingChangesNothing` | zkvm/crates/stf-core/src/room_v5/mod.rs:220-235 | handing the decoded transactions to the executor gives the result of decoding them there |
| `RoomV5.ExecuteBatchV5` | zkvm/crates/stf-core/src/room_v5/mod.rs:124-357 | a v5 batch runs as specified: opening, import, credits, policy, cache, block loop, post-state, root and data hash |
| `RoomV5.ContainmentAcrossBatches` | zkvm/crates/stf-core/src/room_v5/mod.rs:250-325 | a block loop over a contained state the constructor accepts closes in such a state, with the same envelope and cached runtimes |
| `RoomV5.ClosingIsContained` | zkvm/crates/stf-core/src/room_v5/mod.rs:185-325 | every accepted batch, import and credits included, closes in a contained state that the constructor's state checks accept |
| `RoomV5.AcceptedIsChained` | zkvm/crates/stf-core/src/room_v5/mod.rs:258-333 | the blocks of an accepted batch, at most as many as the policy takes and one only at the close, are contiguous, ordered in time, in the room's fixed environment and chained root to root, and the published root is the closing state's |
| `RoomV5.HeaderExact` | zkvm/crates/stf-core/src/room_v5/mod.rs:269-294 | a block passes the header check exactly with the next height, a time not before the last, no more transactions than allowed, and the room's fixed environment |
| `RoomV5Laws.MembersExact` | zkvm/crates/stf-core/src/room_v5/mod.rs:220-249 | the members are the approvers, and in a validity-only room also exactly the senders of the batch, whose transactions then all decode |
| `RoomV5Laws.EverythingPermitted` | zkvm/crates/stf-core/src/room_v5/mod.rs:269-320 | in every transaction of an accepted batch the root call and everything the run did was permitted by the policy as it is written |
| `RoomV5Laws.NothingSkipped` | zkvm/crates/stf-core/src/room_v5/mod.rs:150-348 | an accepted batch has an authenticated opening root, a proven import and the committed policy, and passed the checks at the opening and at the close |
| `RoomV5Laws.PublishedDataBinds` | zkvm/crates/stf-core/src/room_v5/mod.rs:322-333 | two accepted batches with one data hash have the same blocks and opening root, or their encodings collide |
| `RoomV5.RunsStayContained` | zkvm/crates/stf-core/src/room_v5/mod.rs:185-333 | over every run of accepted batches, each closing state is contained, passes the state checks and has the published root, and each batch opens the accounts the one before it closed with, or hashes or tries collide |
| `RoomV5.NextOpensClosing` | zkvm/crates/stf-core/src/room_v5/mod.rs:185-192 | under either commitment a witness at the last closing root opens the closing accounts, or hashes or tries collide |
| `RoomV5.NextBatchIsAdmissible` | zkvm/crates/stf-core/src/room_v5/mod.rs:206-249 | after any run the next batch's writes can spoil the constructor's state checks only by a token credit outside the namespaces |
| `ColdRoom.RuntimeRootBinding` | zkvm/crates/stf-types/src/v4/cold.rs:12-28 | the runtime root binds the runtime list |
| `ColdRoom.TemplateBinding` | zkvm/crates/stf-types/src/v4/cold.rs:87-105 | a template id binds every field of the cold statement but the version, or strings collide |
| `ColdLimits.CheckInput` | zkvm/crates/stf-core/src/cold_room.rs:25-97 | the input is accepted exactly within its size, count and commitment limits, with a sorted, non-zero, capped initial state |
| `ColdLimits.CheckCaps` | zkvm/crates/stf-core/src/cold_room.rs:169-188 | the initialized state is accepted exactly within the account, slot and code caps |
| `ColdRoom.ExecuteColdRoom` | zkvm/crates/stf-core/src/cold_room.rs:24-212 | cold preparation succeeds exactly when limits, shapes, roots, setup blocks, caps, runtime and static commitment are in order, and journals them with the template id |
| `ColdRoom.SetupRootChecksChangeNothing` | zkvm/crates/stf-core/src/cold_room.rs:112-157 | recomputing the root before every setup block would change nothing |
| `ColdRoom.AcceptedSetupIsChained` | zkvm/crates/stf-core/src/cold_room.rs:112-168 | setup blocks are contiguous from zero, ordered in time, in the cold environment with decodable transactions, and chained root to root, from the initial root to the initialized state's root |
| `ColdRoom.SetupExact` | zkvm/crates/stf-core/src/cold_room.rs:115-139 | a setup block passes the header check exactly with its height, an ordered time, the cold environment, a gas limit under the cap and transactions that decode |
| `ColdRoom.ValidateComposedLink` | zkvm/crates/stf-core/src/cold_room.rs:215-261 | the link is accepted exactly when version, chain, template id, program, preset, manifest, shapes, the three roots, runtime and static commitment match |
| `ColdRoom.LinkBindsStaticState` | zkvm/crates/stf-core/src/cold_room.rs:215-261 | a linked room starts with the proven lists, the proven code everywhere and every proven value outside the refresh rules, or strings collide |
| `Rlp.RoundTrip` | zkvm/crates/stf-types/src/batch_data.rs:69-80 | decoding an encoded item returns it and what followed |
| `Rlp.EncodeInjective` | zkvm/crates/stf-types/src/batch_data.rs:69-80 | no two items of addressable size have the same encoding |
| `Rlp.EncodesByTheBook` | zkvm/crates/stf-types/src/batch_data.rs:69-80 | the string encoding of each length class, byte by byte |
| `Rlp.ListsByTheBook` | zkvm/crates/stf-types/src/batch_data.rs:69-80 | the list header of each length class |
| `BatchData.CanonicalBatchData` | zkvm/crates/stf-types/src/batch_data.rs:68-120 | the encoder with its running parent root writes the batch item |
| `BatchData.BatchRoundTrip` | zkvm/crates/stf-types/src/batch_data.rs:68-120 | a decoder recovers every block field, history entry, transaction and, for a non-empty batch, the opening root |
| `BatchData.BatchDataInjective` | zkvm/crates/stf-types/src/batch_data.rs:68-120 | equal canonical bytes exactly for equal blocks and, unless empty, equal opening roots |
| `BatchDataV4.CanonicalBatchBytes` | zkvm/crates/stf-types/src/batch_data.rs:14-59 | the version 4 encoder with its running parent root writes the batch item |
| `BatchDataV4.ShortRoundTrip` | zkvm/crates/stf-types/src/batch_data.rs:14-59 | a decoder recovers what version 4 commits to of every block and, for a non-empty batch, the opening root |
| `BatchDataV4.ShortDataBinding` | zkvm/crates/stf-types/src/batch_data.rs:14-64 | equal version 4 bytes exactly for equal heights, timestamps, roots, transactions and, unless empty, opening roots |
| `FieldBits.MuxSelects` | zkvm/ligetron/sdk-rust/src/bn254fr.rs:747-757 | the field expression selects by a boolean |
| `FieldBits.Mux2Selects` | zkvm/ligetron/sdk-rust/src/bn254fr.rs:759-779 | the nested expression selects one of four |
| `ScalarMul.SelectsMultiple` | zkvm/ligetron/sdk-rust/src/babyjubjub.rs:89-96 | coordinate-wise selection picks the table's multiple for two bits |
| `ScalarMul.AppendBits` | zkvm/ligetron/sdk-rust/src/babyjubjub.rs:224-230 | the window loop appends bits to the multiple, two at a time |
| `ScalarMul.ScalarMultiply` | zkvm/ligetron/sdk-rust/src/babyjubjub.rs:213-233 | the result is the k-fold sum for every k below 2^width, for every even width (the source's is 254) |
| `ScalarMul.ScalarMultiplyExtend` | zkvm/ligetron/sdk-rust/src/babyjubjub.rs:237-266 | the result is the (x2 * 2^width + x1)-fold sum for every even width |
| `Limbs.SplitLimbExact` | zkvm/ligetron/sdk-rust/src/uint256.rs:491-500 | 65 bits split into the low limb and the top bit |
| `Limbs.AddLimbWithCarry` | zkvm/ligetron/sdk-rust/src/uint256.rs:485-501 | limb addition is exact: no wrap in the field, no failing decomposition |
| `Limbs.SubLimbWithBorrow` | zkvm/ligetron/sdk-rust/src/uint256.rs:505-526 | limb subtraction is exact |
| `Limbs.AddWithCarry` | zkvm/ligetron/sdk-rust/src/uint256.rs:530-541 | val + 2^256 carry = a + b, with the carry set exactly on overflow |
| `Limbs.SubWithBorrow` | zkvm/ligetron/sdk-rust/src/uint256.rs:545-560 | val - 2^256 borrow = a - b, with the borrow set exactly on underflow |
| `Heartbeat.StepKeeps` | agent/src/heartbeat.ts:718-764 | every piece of code between awaits keeps the invariant |
| `Heartbeat.HeartbeatSafety` | agent/src/heartbeat.ts:534-547 | over every interleaving: one active beat, publication only after a healthy opening probe, at most two, with one logical beat and one idempotency key |
| `HeartbeatRuns.SuccessIsFinal` | agent/src/heartbeat.ts:736-741 | over every interleaving: once an attempt of a beat settles with success, no later event adds a publication of it |
| `HeartbeatRuns.RetryMeansFailure` | agent/src/heartbeat.ts:729-759 | a beat with two publications had its first attempt rejected or settled without success |
| `HeartbeatRuns.FailureIsRetried` | agent/src/heartbeat.ts:729-759 | when a first attempt fails and the loop is not stopped, a settled second probe, and its delay when healthy, leave exactly two publications, whatever happens in between |
| `HeartbeatRuns.ProbeDecides` | agent/src/heartbeat.ts:724-735 | a settled opening probe leads to one publication under the beat read then, exactly when healthy and not stopped |
| `HeartbeatRuns.TickStartsBeat` | agent/src/heartbeat.ts:718-722 | a tick starts a beat exactly when the loop is neither stopped nor busy |
| `HeartbeatRuns.FreshNegotiation` | agent/src/heartbeat.ts:484-519 | a publication never waits on a negotiation rejected before it began |
| `Heartbeat.NothingAfterStop` | agent/src/heartbeat.ts:767-772 | once stopped, no interleaving starts another publication or beat |
| `Heartbeat.SecondProbeGatesOnlyTheDelay` | agent/src/heartbeat.ts:758-758 | the second probe decides about the delay only |

## Left out

- RISC Zero proving, receipts, c-kzg, networking, command lines and result files: foreign calls and input or output.
- REVM internals, trie construction, signature recovery and transaction decoding: opaque functions of the model.
- Preset and exit-program JSON parsing: the model starts from the parsed preset.
- Canonical-proof mode of the compact witness: it rests on trie proof verification; batches use the room-local mode.
- Settlement derivation, membership transitions, exit programs and the entry checks of the inbox: opaque functions; only the
  credits an entry makes are concrete.
- Access metrics and proof-work totals: telemetry that no result depends on.
- `canonicalOutcome` and the outcome polling of the heartbeat client: a list of evidence checks; the model lets outcomes settle
  either way.
- Timer periods and wall-clock time: steps may happen at any time, which includes every schedule of the timers.
- Wide multiplication, division and modular inverse of limbs, `uint256::mux`, SHA-256 and Poseidon.
- StateMaps.StateMap.ReadBasic: bytes REVM cannot decode give an account without code where the source would panic.
- FromInput.Construct: the preset's own shape (resource envelope, unique rules, argument rules, guard ranges) belongs to the
  parsed preset, because it looks at neither roster nor state.
- FromInput.CheckDomains: a binding's tag and its derived domain belong to the parsed preset, for the same reason.
- FromV5.ContainmentOverRuns: ranges over transitions given to keep code and store no zeros, because `FromV5` knows no
  executor; `RoomV5.RunsStayContained` proves the same of executed batches.
- Batch.CreditInbox: which credits an inbox entry makes, and the cursor, status and deposit checks of an entry, are a function
  of the input, because settlement decides them.
- Batch.OpenState: membership and the exit program are opaque functions of the input, because settlement decides them.
- Batch.ExecuteWithRuntimeCache: the settled part of the journal is an opaque function of the input and the closing accounts,
  because it is derived by settlement.
- OpeningWrites.ApplyImport: the import's metadata and its account and storage proofs are decided elsewhere, because trie
  proofs are opaque; the mirror writes start from the authenticated values.
- RoomV5.ExecuteBatchV5: public identity fields, roster and liability transitions, participant registry, admissions and exits
  are opaque checks, because they read the state and never write it.
- Block.RunTransactions: gas and outcomes come from REVM's report, because its internals are opaque.
