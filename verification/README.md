# MeshMine, modelled and proved in Dafny

MeshMine is a durable overlay for mining Handshake blocks. This project models the parts of it where a
mistake would lose work, money or safety, and proves what they promise, for every input, every run and every
point at which a process may crash.

* **The capture pipeline.** The gateway hands out jobs, accepts shares and keeps them until they are
  acknowledged. The operator's spool numbers them and sends them to Core, and Core answers each with a receipt.
  The gateway is a class over a durable store and the in-memory indexes it must keep equal to that store
  (`Gateway`, with `GatewayStore`, `GatewayMemory`, `GatewayRecords`, `GatewaySteps`, `GatewayRetire`); `GatewayRun`
  proves what holds over whole runs, `GatewayOpen` that reopening after a crash rebuilds the same memory, and
  `DurableRecords` that the stored bytes mean what was written. `Spool` and `Client` are the operator's side,
  `Admission` with the ledger of `Handoff` is Core's, and `Authorization` proves that what may be submitted on a job is
  what the operator may forward. `Pipeline` joins the three in one state machine with crashes and a network that loses,
  repeats and delays messages, and `Deployment` runs the three classes together and proves that every method is a
  sequence of steps of that machine. The main results hold of whatever methods ran and wherever they crashed: a
  tombstone means a receipt that Core journaled; no accepted share is lost or altered, and only a repeated proof of work
  is refused as duplicate; every receipt is the verdict on its share; work is paid once; and once nothing waits in the
  spool, the drain of the operator is the one that completes the transition at Core (`Agreement`).
* **Block publication.** `Publisher` is the write-ahead log of block submissions, with any number of publishers
  interleaved and crashing.
* **The circuit compiler.** `Circuit` builds the Boolean circuit of BLAKE2b-256 gate by gate; each lane of its
  packed evaluation is proved equal to the hash function of RFC 7693, which `Blake2b` states on integers.
* **Committee risk.** `Exact` (module `ExactProbability`), `Risk`, `Correlation`, `Report` and `Release` are the
  exact rational loops up to the release gate: a profile that passes it is safe for a year at every threshold.
  `Combinatorics`, `Probability` and `ClosedForms` hold the mathematics they are proved against: Vandermonde,
  closed forms of binomial and trinomial tails, monotonicity and an association inequality.
* **Targets and masks.** `Target` and `CaptureTarget`: compact targets and the capture target that misses no winner.
* **Merkle proofs, availability, sortition.** `Merkle`, `Availability`, `Sortition`, `Roster`. Members are drawn
  exactly in proportion to their finalized work.
* **The canonical codec.** `Codec` and `PublicationIntent`: varints, byte strings and intents round trip both ways.

`Arith`, `Bits`, `Bytes`, `Sorting`, `Traces` and `Wrappers` are shared.

## How it is modelled

* Objects whose methods update fields are classes, and loops are methods with invariants; each is proved against
  functions or predicates on values. Ghost fields (`trail`, `writes`, `log`, `history`) record what was written.
* A durable store is one map per namespace, and a write is one atomic batch together with the condition under
  which the program makes it. A crash writes nothing, so a run of writes covers a crash at any point.
* Hashes are ideal: injective constructors (`Merkle`), the hashed parts themselves (work keys, works, request ids) or a
  parameter, which is injective where objects are named by it (envelopes at Core). Signatures, bundle validation,
  the parent-chain oracle and clocks are parameters too.
* Integers are unbounded; widths, wrap-around and saturation are written out where the program has them.
* Some large invariants are sealed: `forall i {:trigger Opened(i)} :: Opened(i) && i == n ==> ...` is the
  invariant, and `assert Opened(n)` opens it in the lemmas that need it. Lemmas such as
  `GatewaySteps.ConsistentMeans` and `Client.KeptMeans` state what the sealed forms mean.

Where the code and a description of it differ, the model follows the code. `complete_drain` treats any valid
drain receipt as completion, also one with outcome "rejected" (`Client.RejectedDrainAnswers`). `submit` does not
examine the user name, which only the wire parser bounds; a longer one would be stored and make the store fail to
reopen (`Gateway.Gateway.Submit`). A Merkle proof binds only the low bits of its index (`Merkle.IndexWraps`); the
index of a shard is checked as well.

The client looks for a receipt and then writes an envelope. `Spool.MayPutEnvelope`, and with it
`Pipeline.EnvelopeOnce`, take the two as one step: submit calls do not overlap, because the operator process drains
under the lock of the gateway.

Core answers a drain with a receipt that carries the time of the call, and journals it under the assignment. A call
that was interrupted after that write and is repeated at another time finds a different receipt there and fails; the
transition then completes only with the first time (`Admission.RetryNeedsSameTime`).

## Model

| member | source | states |
|---|---|---|
| `Circuit.WiresStable` | crates/meshmine-mpc-api/src/mask_hash_circuit.rs:203-217 | appending gates in topological single-assignment order never changes the value on an earlier wire, for every gate list and input |
| `Circuit.CircuitBuilder.constructor` | crates/meshmine-mpc-api/src/mask_hash_circuit.rs:203-211 | a new builder has the given input wires and no gates |
| `Circuit.CircuitBuilder.XorWire` | crates/meshmine-mpc-api/src/mask_hash_circuit.rs:223-231 | appends one XOR gate that drives the next free wire |
| `Circuit.CircuitBuilder.AndWire` | crates/meshmine-mpc-api/src/mask_hash_circuit.rs:233-241 | appends one AND gate that drives the next free wire |
| `Circuit.CircuitBuilder.NotWire` | crates/meshmine-mpc-api/src/mask_hash_circuit.rs:243-247 | appends one INV gate that drives the next free wire |
| `Circuit.CircuitBuilder.Constant` | crates/meshmine-mpc-api/src/mask_hash_circuit.rs:249-266 | returns a wire proved to carry the constant in every lane, and reuses it |
| `Circuit.ConstantWireValue` | crates/meshmine-mpc-api/src/mask_hash_circuit.rs:249-266 | a wire driven by `0 XOR 0`, or by the inverse of such a wire, carries 0 or 1 whatever the input |
| `Circuit.ConstantWord` | crates/meshmine-mpc-api/src/mask_hash_circuit.rs:271-273 | 64 constant wires that carry the given word for every input |
| `Circuit.XorWord` | crates/meshmine-mpc-api/src/mask_hash_circuit.rs:275-281 | the new word carries the bitwise exclusive or of the two words, for every input |
| `Circuit.NotWord` | crates/meshmine-mpc-api/src/mask_hash_circuit.rs:323-413 | the new word carries the 64-bit complement, for every input |
| `Circuit.FullAdder` | crates/meshmine-mpc-api/src/mask_hash_circuit.rs:283-297 | the five gates of one adder position add their three input bits exactly |
| `Circuit.RippleCarry` | crates/meshmine-mpc-api/src/mask_hash_circuit.rs:283-297 | one-bit adders chained through their carries add the numbers their bits denote, for every length |
| `Circuit.AddWord` | crates/meshmine-mpc-api/src/mask_hash_circuit.rs:283-297 | the ripple-carry chain is addition modulo 2^64, for every input |
| `Circuit.RotateRightValue` | crates/meshmine-mpc-api/src/mask_hash_circuit.rs:299-301 | renaming 64 wires rotates the number they carry, for every distance |
| `Circuit.G` | crates/meshmine-mpc-api/src/mask_hash_circuit.rs:303-321 | the gates compute the mixing function G of section 3.1 of RFC 7693 on the wire state |
| `Circuit.ScheduleIsSigma` | crates/meshmine-mpc-api/src/mask_hash_circuit.rs:323-413 | the twelve-row schedule is the message permutation of section 2.7 of RFC 7693, repeated |
| `Circuit.MixedIsColumnsAndDiagonals` | crates/meshmine-mpc-api/src/mask_hash_circuit.rs:323-413 | the eight calls of a round mix the columns and then the diagonals of the state |
| `Blake2b.IvIsSquareRoot` | crates/meshmine-mpc-api/src/mask_hash_circuit.rs:14-23 | every constant of the table is the first 64 bits of the fractional part of the square root of its prime, section 2.6 of RFC 7693 |
| `Circuit.Round` | crates/meshmine-mpc-api/src/mask_hash_circuit.rs:323-413 | one round of gates is one round of the compression function |
| `Circuit.Rounds` | crates/meshmine-mpc-api/src/mask_hash_circuit.rs:323-413 | twelve rounds of gates are the twelve rounds of section 3.2 of RFC 7693 |
| `Circuit.WorkingVector` | crates/meshmine-mpc-api/src/mask_hash_circuit.rs:323-413 | the initial state wires carry the working vector of a final 64-byte block |
| `Circuit.DigestWords` | crates/meshmine-mpc-api/src/mask_hash_circuit.rs:323-413 | the digest wires carry the folded chaining value |
| `Circuit.Blake2b256OneBlock` | crates/meshmine-mpc-api/src/mask_hash_circuit.rs:323-413 | for every lane the digest words are the hash words of the message its input wires carry |
| `Circuit.LaneWordsAreBlockWords` | crates/meshmine-mpc-api/src/mask_hash_circuit.rs:323-413 | the 512 input bits of a lane, with eight zero words, are the zero-padded little-endian block |
| `Circuit.OutputOctets` | crates/meshmine-mpc-api/src/mask_hash_circuit.rs:92-107 | the 256 output bits, taken in octets, are the digest octets |
| `Circuit.Build` | crates/meshmine-mpc-api/src/mask_hash_circuit.rs:92-107 | the built circuit is well formed and its outputs are BLAKE2b-256 of the 64-byte message, for every 512-bit input |
| `Circuit.StepLane` | crates/meshmine-mpc-api/src/mask_hash_circuit.rs:127-149 | a gate evaluated on packed words acts on each of the 64 lanes separately |
| `Circuit.EvaluatePacked` | crates/meshmine-mpc-api/src/mask_hash_circuit.rs:127-149 | a wrong input count is an error, and otherwise every lane of the packed run equals the one-lane meaning of the circuit |
| `Circuit.MaskHashLanes` | crates/meshmine-mpc-api/src/mask_hash_circuit.rs:92-149 | end to end: each lane of the packed run of the built circuit is BLAKE2b-256 of that lane |
| `ExactProbability.ReducedVal` | crates/meshmine-committee-risk/src/lib.rs:323-332 | dividing by the greatest common divisor does not change the rational |
| `ExactProbability.Complement` | crates/meshmine-committee-risk/src/lib.rs:271-276 | the complement of a probability is one minus it, exactly |
| `ExactProbability.Add` | crates/meshmine-committee-risk/src/lib.rs:278-283 | addition is the exact sum, stopped at one |
| `ExactProbability.Multiply` | crates/meshmine-committee-risk/src/lib.rs:293-298 | multiplication is exact |
| `ExactProbability.AtMostVal` | crates/meshmine-committee-risk/src/lib.rs:351-355 | comparison by cross multiplication is the order of the rationals |
| `ExactProbability.SumExceedsOneVal` | crates/meshmine-committee-risk/src/lib.rs:1181-1184 | the check that a sum exceeds one is exact although addition is capped |
| `Risk.Choose` | crates/meshmine-committee-risk/src/lib.rs:999-1010 | the multiplicative loop divides without remainder at every step and counts subsets |
| `Risk.BinomialMass` | crates/meshmine-committee-risk/src/lib.rs:987-997 | the exact binomial mass |
| `Risk.BinomialTail` | crates/meshmine-committee-risk/src/lib.rs:369-385 | the loop computes the chance of at least t successes in n trials, and its running sum never reaches the cap |
| `ClosedForms.TailClosedForm` | crates/meshmine-committee-risk/src/lib.rs:369-385 | the sum over successes equals the trial-by-trial definition of the tail, for all n, t and p |
| `ClosedForms.MassesFrom` | crates/meshmine-committee-risk/src/lib.rs:369-385 | the masses from t to n sum to the tail, and all masses sum to one |
| `Probability.TailMonotone` | crates/meshmine-committee-risk/src/lib.rs:369-385 | the tail never falls when the success probability rises |
| `Probability.TailThreshold` | crates/meshmine-committee-risk/src/lib.rs:369-385 | the tail never rises when the threshold rises |
| `Risk.JointBinomialTail` | crates/meshmine-committee-risk/src/lib.rs:866-884 | the loop over shared members computes the joint tail of two overlapping committees exactly |
| `ClosedForms.JointClosedForm` | crates/meshmine-committee-risk/src/lib.rs:866-884 | the convolution over shared members equals the member-by-member definition of the joint tail |
| `Probability.JointAssociation` | crates/meshmine-committee-risk/src/lib.rs:866-884 | for any number of shared members the joint tail is at least the product of the tails (Chebyshev association) |
| `Probability.JointUnit` | crates/meshmine-committee-risk/src/lib.rs:866-884 | the joint tail is a probability, and without shared members it is the product of the two tails |
| `Risk.CategoricalBlockProbability` | crates/meshmine-committee-risk/src/lib.rs:827-864 | the double loop computes the chance of too many adversarial or too few honest online members, exactly |
| `ClosedForms.BlockClosedForm` | crates/meshmine-committee-risk/src/lib.rs:827-864 | the trinomial double sum equals the member-by-member definition of blocking |
| `Probability.BlockCertain` | crates/meshmine-committee-risk/src/lib.rs:827-864 | when every outcome blocks (no adversarial member is needed, or more honest members than there are) the trinomial masses sum to one |
| `Probability.BlockAtLeastAdversarial` | crates/meshmine-committee-risk/src/lib.rs:827-864 | blocking is at least as likely as too many adversarial members |
| `Probability.BlockAtLeastTooFew` | crates/meshmine-committee-risk/src/lib.rs:827-864 | blocking is at least as likely as too few honest online members |
| `Probability.BlockAtMostSum` | crates/meshmine-committee-risk/src/lib.rs:827-864 | blocking is at most the sum of its two causes |
| `Risk.DrawsAll` | crates/meshmine-committee-risk/src/lib.rs:387-409 | without a threshold the draws are all subsets: Vandermonde |
| `Risk.DrawsAtMostAll` | crates/meshmine-committee-risk/src/lib.rs:387-409 | the favourable draws never outnumber all draws, so the range error of the tail is unreachable |
| `Risk.DrawsClosedForm` | crates/meshmine-committee-risk/src/lib.rs:387-409 | the sum of products of binomial coefficients counts the draws with at least t adversarial members |
| `Risk.CountDraws` | crates/meshmine-committee-risk/src/lib.rs:387-409 | the loop counts exactly those draws |
| `Risk.HypergeometricTail` | crates/meshmine-committee-risk/src/lib.rs:387-409 | succeeds exactly for valid populations and returns the hypergeometric tail |
| `Risk.AnyOf` | crates/meshmine-committee-risk/src/lib.rs:1023-1033 | Bernoulli: the chance of any of n independent events is at most n times the chance of one |
| `Risk.AnnualUnionBound` | crates/meshmine-committee-risk/src/lib.rs:1023-1033 | the capped product, which is at least the chance of any event in a year |
| `Correlation.ValidateGroups` | crates/meshmine-committee-risk/src/lib.rs:1123-1141 | the group checks accept exactly the profiles with probabilities in range, at most one per group, and fractions of at most one in all |
| `Correlation.VisitsTotal` | crates/meshmine-committee-risk/src/lib.rs:886-945 | from every state of the enumeration, weights multiply, fractions add without capping and skipping zero weights loses nothing |
| `Correlation.VisitsMean` | crates/meshmine-committee-risk/src/lib.rs:886-945 | summing a quantity over the visited group states gives its mean over independent groups |
| `Correlation.AverageConstant` | crates/meshmine-committee-risk/src/lib.rs:886-945 | the weights of the group states sum to one |
| `Correlation.AverageMonotone` | crates/meshmine-committee-risk/src/lib.rs:886-945 | the mean respects order on the fractions that can occur |
| `Correlation.TotalStep` | crates/meshmine-committee-risk/src/lib.rs:886-945 | partial sums over group states stay within one, so the cap removes nothing |
| `Report.MemberOdds` | crates/meshmine-committee-risk/src/lib.rs:741-770 | in every state adversarial plus honest online never exceeds one and adversarial never falls below its base rate |
| `Report.CorrelatedTail` | crates/meshmine-committee-risk/src/lib.rs:741-770 | the loop over group states computes the mean tail |
| `Report.CorrelatedJointTail` | crates/meshmine-committee-risk/src/lib.rs:772-797 | the loop over group states computes the mean joint tail |
| `Report.CorrelatedCombinedBlock` | crates/meshmine-committee-risk/src/lib.rs:799-825 | the loop over group states computes the mean blocking probability |
| `Report.CaptureAtLeastBinomial` | crates/meshmine-committee-risk/src/lib.rs:741-770 | correlated capture is never below plain binomial capture |
| `Report.CombinedBlockBounds` | crates/meshmine-committee-risk/src/lib.rs:799-825 | combined blocking is at least each cause and at most their sum, after averaging over groups |
| `Report.OverlapAtLeastIndependent` | crates/meshmine-committee-risk/src/lib.rs:772-797 | joint capture of overlapping committees is never below the independent product, for every group structure |
| `Report.ReportOrdered` | crates/meshmine-committee-risk/src/lib.rs:584-693 | in every report the figures are ordered: binomial, correlated, blocking and its causes |
| `Report.AssessThreshold` | crates/meshmine-committee-risk/src/lib.rs:584-693 | the figures reported for one threshold are the ones defined |
| `Report.AssessRole` | crates/meshmine-committee-risk/src/lib.rs:584-693 | the headline figures are exactly the largest capture and the largest blocking figure of the role, as profile and role determine them, and bound every figure reported |
| `Report.AssessOverlap` | crates/meshmine-committee-risk/src/lib.rs:695-726 | the reported joint figure is at least the independent product reported next to it |
| `Release.SumBounds` | crates/meshmine-committee-risk/src/lib.rs:483-506 | the sum over roles is at least every summand, before the cap and after |
| `Release.FiguresAreRisks` | crates/meshmine-committee-risk/src/lib.rs:483-506 | the reported figures of all roles add up to the risks that profile and roles alone determine |
| `Release.YearBound` | crates/meshmine-committee-risk/src/lib.rs:1023-1037 | an annual bound within its target keeps the chance of any event in a year within it, for every event no likelier than the sum |
| `Release.ThresholdSafe` | crates/meshmine-committee-risk/src/lib.rs:483-517 | at one threshold: binomial, correlated and hypergeometric capture in a year are within the security target, blocking within the liveness target |
| `Release.RolesSafe` | crates/meshmine-committee-risk/src/lib.rs:483-517 | if the annual bounds of the capped sums meet their targets, every role is safe at both of its thresholds |
| `Release.ValidateProfile` | crates/meshmine-committee-risk/src/lib.rs:1087-1140 | accepts exactly proper probabilities and targets, valid roles and valid groups |
| `Release.Decide` | crates/meshmine-committee-risk/src/lib.rs:483-540 | computes the figures of every role and the capped sums, and passes exactly if both annual bounds of the sums meet their targets |
| `Release.EnforceProfile` | crates/meshmine-committee-risk/src/lib.rs:531-540 | an acceptable profile passes exactly if the annual bounds of its true risks meet both targets, and one that passes is safe: for every role and threshold the chance of any capture or blocking in a year is within the target |
| `Target.PartsMean` | crates/meshmine-hns/src/target.rs:48-68 | the chosen mantissa keeps the leading bytes and never has the sign bit |
| `Target.CompactWord` | crates/meshmine-hns/src/target.rs:48-68 | the compact word is exponent and mantissa side by side, within 32 bits |
| `Target.CompactRoundsDown` | crates/meshmine-hns/src/target.rs:25-68 | compacting and expanding never exceeds the target and loses less than one unit of the last kept byte |
| `Target.CompactIdempotent` | crates/meshmine-hns/src/target.rs:25-68 | a second round trip changes nothing |
| `Target.CompactMonotone` | crates/meshmine-hns/src/target.rs:25-68 | the round trip respects order |
| `CaptureTarget.CountLeadingZeroBits` | crates/meshmine-hns/src/target.rs:120-131 | counts the leading zero bits, for every byte string |
| `CaptureTarget.FillCapture` | crates/meshmine-hns/src/target.rs:83-118 | the byte array filled in place is the largest number with q leading zero bits |
| `CaptureTarget.DeriveCaptureParameters` | crates/meshmine-hns/src/target.rs:83-118 | fails exactly for targets that are not positive 256-bit numbers and for blind bands out of range, and otherwise returns the capture target |
| `CaptureTarget.XorHashes` | crates/meshmine-hns/src/header.rs:412-418 | the byte-wise exclusive or |
| `CaptureTarget.UnmaskMask` | crates/meshmine-hns/src/header.rs:412-418 | masking twice gives the share back |
| `CaptureTarget.NoWinnerMissed` | crates/meshmine-hns/src/target.rs:83-118 | for every valid profile and mask with q leading zero bits, a share that wins after masking is within the capture target and every allowed advertised target |
| `CaptureTarget.HandyTargetFits` | crates/meshmine-gateway/src/lib.rs:2492-2513 | the device target always fits 32 bytes |
| `CaptureTarget.HandyTargetMonotone` | crates/meshmine-gateway/src/lib.rs:2492-2513 | the device target never rises with difficulty |
| `CaptureTarget.HandyTargetFromDifficulty` | crates/meshmine-gateway/src/lib.rs:2492-2513 | refuses difficulty zero and otherwise returns the 32 bytes of the device target |
| `Bytes.LessIsIntegerOrder` | crates/meshmine-gateway/src/lib.rs:1411-1414 | comparing byte arrays is comparing big-endian integers |
| `Codec.VarintDecodes` | crates/meshmine-codec/src/lib.rs:73-162 | decoding an encoded varint gives the value and the bytes after it, for every 64-bit value |
| `Codec.VarintCanonical` | crates/meshmine-codec/src/lib.rs:145-162 | bytes that decode as a varint are its encoding, including the tenth-byte bound |
| `Codec.LittleRoundTrip` | crates/meshmine-codec/src/lib.rs:57-67 | little-endian integers of any width round trip |
| `Codec.BytesDecode` | crates/meshmine-codec/src/lib.rs:87-192 | an encoded byte string decodes to itself when it respects the limits |
| `Codec.BytesParsed` | crates/meshmine-codec/src/lib.rs:164-192 | bytes that decode as a byte string are its encoding and respect the limits |
| `Codec.Encoder.Varint` | crates/meshmine-codec/src/lib.rs:73-85 | the shift loop appends the varint |
| `Codec.Encoder.Bytes` | crates/meshmine-codec/src/lib.rs:87-90 | appends the length-prefixed bytes |
| `Codec.Decoder.Take` | crates/meshmine-codec/src/lib.rs:227-244 | returns the next bytes and advances, or fails and stays |
| `Codec.Decoder.Varint` | crates/meshmine-codec/src/lib.rs:145-162 | the loop over seven-bit groups accepts exactly the canonical 64-bit varints |
| `Codec.Decoder.Bytes` | crates/meshmine-codec/src/lib.rs:179-192 | reads exactly what the format says |
| `Codec.Decoder.Finish` | crates/meshmine-codec/src/lib.rs:215-221 | fails exactly if bytes remain |
| `Codec.NewDecoder` | crates/meshmine-codec/src/lib.rs:109-121 | refuses exactly the objects over the limit |
| `PublicationIntent.DecodeEncoded` | crates/meshmine-fast-path/src/lib.rs:74-122 | decoding an encoded intent gives it back, exactly when it respects the limits |
| `PublicationIntent.EncodeDecoded` | crates/meshmine-fast-path/src/lib.rs:97-122 | bytes that decode to an intent are its encoding |
| `PublicationIntent.Encode` | crates/meshmine-fast-path/src/lib.rs:77-94 | the encoder writes exactly the canonical bytes |
| `PublicationIntent.Decode` | crates/meshmine-fast-path/src/lib.rs:98-122 | the decoder computes exactly the parse of the whole input |
| `Merkle.ProofComplete` | crates/meshmine-body/src/availability.rs:571-612 | for every leaf list and index the created proof leads to the root |
| `Merkle.ProofBinds` | crates/meshmine-body/src/availability.rs:600-612 | with an ideal hash whatever leads to the root is the leaf at the low bits of its index, with the honest siblings; the index itself is bound exactly if it is below the number of leaves |
| `Merkle.ClimbBinds` | crates/meshmine-body/src/availability.rs:600-612 | a path of the height of the tree leads to its top only from the node at its position, and only with the honest siblings |
| `Merkle.IndexWraps` | crates/meshmine-body/src/availability.rs:600-612 | the counterexample family: an index beyond the tree verifies like its low bits, so the index needs the check of its own that `verify_shard` makes |
| `Merkle.ClimbInjective` | crates/meshmine-body/src/availability.rs:600-612 | different nodes at one position never reach the same root |
| `Merkle.MerkleRoot` | crates/meshmine-hns/src/merkle.rs:9-31 | the level loop computes the root of the padded tree |
| `Merkle.CreateProof` | crates/meshmine-body/src/availability.rs:571-598 | the loop collects the siblings on the path of the index |
| `Merkle.VerifyProof` | crates/meshmine-body/src/availability.rs:600-612 | the loop accepts exactly the proofs that climb to the root |
| `Availability.VerifiesIffGenuine` | crates/meshmine-body/src/availability.rs:343-356 | a shard passes exactly if it is the original shard at its index |
| `Availability.VerifyShard` | crates/meshmine-body/src/availability.rs:343-356 | index, length and proof checks accept exactly the shards that verify |
| `Availability.ShardSizeSmallest` | crates/meshmine-body/src/availability.rs:213-284 | shards have the smallest size that holds the body |
| `Availability.EncodeBody` | crates/meshmine-body/src/availability.rs:213-284 | each error (counts, size, no erasure code) happens exactly in its case; otherwise the shards are the coded rows of the body, of the smallest size, and every one verifies |
| `Availability.CollectShards` | crates/meshmine-body/src/availability.rs:286-341 | fills one slot per index and rejects a list with a false or repeated shard |
| `Availability.ReconstructBody` | crates/meshmine-body/src/availability.rs:286-341 | succeeds exactly with a code and enough distinct genuine shards and no forged or repeated one, and then returns the body |
| `Sortition.WinnerSlice` | crates/meshmine-committee/src/lib.rs:697-756 | the cumulative search finds a winner for every residue, and candidate i wins exactly its slice |
| `Sortition.SliceCount` | crates/meshmine-committee/src/lib.rs:697-756 | counts the accepted values whose residue falls in a slice |
| `Sortition.ExactShare` | crates/meshmine-committee/src/lib.rs:697-756 | among accepted values each candidate wins exactly floor(space / total) times its weight |
| `Sortition.Sample` | crates/meshmine-committee/src/lib.rs:697-756 | rejection sampling returns the first accepted value |
| `Sortition.Position` | crates/meshmine-committee/src/lib.rs:697-756 | the cumulative loop returns the winner |
| `Sortition.CandidateLeaf` | crates/meshmine-committee/src/lib.rs:704-717 | every candidate is a leaf listed for the role, not excluded, weighted by its positive finalized work |
| `Sortition.LeafCandidate` | crates/meshmine-committee/src/lib.rs:704-717 | every leaf listed for the role, not excluded and with work, is a candidate weighted by it |
| `Sortition.WithoutIsExcluded` | crates/meshmine-committee/src/lib.rs:751-751 | removing the winner from the candidates is the same as excluding its operator |
| `Sortition.WorkShare` | crates/meshmine-committee/src/lib.rs:697-756 | an eligible operator wins with exactly floor(space / total work) times its work of the accepted values |
| `Sortition.FairDraw` | crates/meshmine-committee/src/lib.rs:697-756 | at every draw each operator still eligible is drawn exactly if the first accepted value is one of its own, and these are exactly floor(space / remaining work) times its finalized work |
| `Sortition.WeightedDraw` | crates/meshmine-committee/src/lib.rs:697-756 | draws the wanted number of distinct eligible operators, each by finalized work among those left; each of the errors for too few operators and too much work happens exactly in its case |
| `Roster.ValidateLeaves` | crates/meshmine-committee/src/lib.rs:779-794 | accepts exactly the bounded, strictly ordered, well-formed leaf lists |
| `Roster.VerifySnapshot` | crates/meshmine-committee/src/lib.rs:309-323 | accepts exactly the snapshots whose leaves are valid and whose root and count match |
| `Roster.ValidateInputs` | crates/meshmine-committee/src/lib.rs:600-655 | accepts exactly the consistent policies, phases, snapshots and entropy |
| `Roster.PhasesFollow` | crates/meshmine-committee/src/lib.rs:327-338 | the phases follow each other, each exactly from its start on |
| `Roster.CanonicalBootstrap` | crates/meshmine-committee/src/lib.rs:411-497 | sorts and deduplicates the bootstrap members |
| `Roster.SelectRoster` | crates/meshmine-committee/src/lib.rs:411-497 | exactly the committee size, distinct; before the hybrid start the bootstrap members, then the lowest of them in the fixed seats and the others drawn by finalized work, finally all drawn; refused as short exactly if too few operators are eligible, so the final check never fires |
| `Publisher.StartKeepsValid` | crates/meshmine-fast-path/src/lib.rs:546-574 | starting an attempt keeps attempts numbered without gap and results final |
| `Publisher.ResultKeepsValid` | crates/meshmine-fast-path/src/lib.rs:576-626 | recording a result keeps the records consistent and writes the result once |
| `Publisher.DurableBlockPublisher.PersistAttemptStart` | crates/meshmine-fast-path/src/lib.rs:546-574 | succeeds exactly if the head is the expected one, and then keeps the records valid and adds exactly one attempt; a failure changes nothing |
| `Publisher.DurableBlockPublisher.PersistAttemptResult` | crates/meshmine-fast-path/src/lib.rs:576-626 | succeeds exactly for the current unfinished attempt, and then keeps the records valid and adds exactly its result; a failure changes nothing |
| `Publisher.DurableBlockPublisher.PrepareTarget` | crates/meshmine-fast-path/src/lib.rs:482-544 | decides between done, resuming the unfinished attempt itself, a next attempt that starts now, and exhaustion |
| `Publisher.DurableBlockPublisher.Publish` | crates/meshmine-fast-path/src/lib.rs:304-418 | for every target with an attempt due, exactly the answer the target gave to that attempt is stored and reported; a finished target repeats its last result; other slots stay |
| `Publisher.FirstAccepted` | crates/meshmine-fast-path/src/lib.rs:397-416 | names the first target that had accepted before, or else the fastest to accept now, and none exactly if none accepted |
| `Publisher.RunKeepsInv` | crates/meshmine-fast-path/src/lib.rs:304-626 | in every run of any number of publishers with crashes, attempts are numbered 1 to n with n at most 16 and only the last result may be final |
| `Publisher.RunKeepsCurrent` | crates/meshmine-fast-path/src/lib.rs:304-626 | when calls do not overlap every submission is the durable current attempt |
| `Publisher.TerminalForever` | crates/meshmine-fast-path/src/lib.rs:304-626 | a terminal result stays |
| `Publisher.NeverResubmitted` | crates/meshmine-fast-path/src/lib.rs:482-544 | when calls do not overlap a terminal target is never submitted again |
| `Publisher.StartedUntilResult` | crates/meshmine-fast-path/src/lib.rs:546-626 | a started attempt stays current until its result is written |
| `Publisher.ResubmittedWithSameNumber` | crates/meshmine-fast-path/src/lib.rs:482-544 | an unfinished attempt is resubmitted with the same number |
| `GatewayStore.WriteKeepsSound` | crates/meshmine-gateway/src/lib.rs:953-1663 | every atomic write of the gateway, in every state in which it makes it, leaves a store that reopens |
| `GatewayRun.RunSound` | crates/meshmine-gateway/src/lib.rs:953-1663 | every store reached by any run of writes, in particular one left by a crash, is sound |
| `GatewayRun.AcceptedOnce` | crates/meshmine-gateway/src/lib.rs:1349-1456 | in a whole run with restarts no work key is accepted twice, also after its tombstone is deleted |
| `GatewayRun.IssuedOnce` | crates/meshmine-gateway/src/lib.rs:953-1094 | in a whole run no job id is issued twice and assignment numbers strictly grow |
| `GatewayRun.SeenWasAccepted` | crates/meshmine-gateway/src/lib.rs:1349-1456 | whatever capture or tombstone a store holds was accepted in the run that led to it |
| `GatewayRun.RunsJoin` | crates/meshmine-gateway/src/lib.rs:582-806 | a run, a restart on the store it left and a further run are one run, so what holds over runs holds across restarts |
| `GatewayRecords.SameKeySameJob` | crates/meshmine-gateway/src/lib.rs:2515-2523 | equal work keys belong to equal job ids although ids vary in length |
| `GatewayRecords.SameKeySameProof` | crates/meshmine-gateway/src/lib.rs:2515-2523 | keys are equal exactly for the same job, extra nonce, nonce, time (in 32 bits) and share hash |
| `GatewayRecords.ValidateJob` | crates/meshmine-gateway/src/lib.rs:2451-2490 | accepts exactly the jobs with a valid id, size, windows, difficulty, capture profile and device target |
| `GatewayRecords.KeysNameJobs` | crates/meshmine-gateway/src/lib.rs:2515-2555 | captures that pass the checks and share a key belong to one job |
| `GatewayMemory.MirrorsUnique` | crates/meshmine-gateway/src/lib.rs:593-806 | a store determines the jobs, current job, seen keys, counts and pending multiset of the memory that mirrors it |
| `GatewayMemory.QueueSwapRemove` | crates/meshmine-gateway/src/lib.rs:1610-1663 | removing by swapping with the last capture keeps queue and index in agreement |
| `GatewaySteps.ConsistentMeans` | crates/meshmine-gateway/src/lib.rs:593-806 | the invariant of the gateway object is a sound store together with its mirror |
| `GatewayOpen.RecoverJobs` | crates/meshmine-gateway/src/lib.rs:610-664 | job and state records are accepted exactly if they agree one to one, are valid and ids differ |
| `GatewayOpen.RecoverCurrent` | crates/meshmine-gateway/src/lib.rs:665-672 | the current job is accepted exactly if it is the one active job |
| `GatewayOpen.RecoverHeads` | crates/meshmine-gateway/src/lib.rs:610-675 | jobs and current job are read exactly if they are sound and a new store is empty |
| `GatewayOpen.MarkHarmless` | crates/meshmine-gateway/src/lib.rs:673-690 | the format mark changes nothing else: a marked store reopens exactly if the unmarked one does |
| `GatewayOpen.RecoverRetiring` | crates/meshmine-gateway/src/lib.rs:696-721 | retirement records are accepted exactly if they name closed jobs |
| `GatewayOpen.RecoverTombstones` | crates/meshmine-gateway/src/lib.rs:723-746 | tombstones are accepted exactly if within bounds and of known assignments |
| `GatewayOpen.RecoverCaptures` | crates/meshmine-gateway/src/lib.rs:748-772 | captures are accepted exactly if valid, keyed by their work and new, within the bound |
| `GatewayOpen.RebuildQueue` | crates/meshmine-gateway/src/lib.rs:779-790 | the queue is sorted and indexed |
| `GatewayOpen.Recover` | crates/meshmine-gateway/src/lib.rs:593-806 | opening succeeds exactly on recoverable stores, and the rebuilt memory mirrors the store; the format mark is written as soon as jobs and current job pass, also when a later check fails |
| `Gateway.Gateway.constructor` | crates/meshmine-gateway/src/lib.rs:593-806 | the gateway over a recovered store; on a sound store the object invariant holds and its run starts with the format mark, if that was missing |
| `Gateway.Open` | crates/meshmine-gateway/src/lib.rs:582-806 | opens exactly the recoverable stores; on every sound store the result is valid; says what is left on disk also when opening fails |
| `Gateway.QueueOrderLexicographic` | crates/meshmine-gateway/src/lib.rs:779-785 | the sort key orders by assignment, arrival and hash |
| `Gateway.CrashRecovers` | crates/meshmine-gateway/src/lib.rs:593-806 | after a crash at any write of any run opening succeeds and rebuilds the memory the gateway had, up to queue order |
| `Gateway.Gateway.Put` | crates/meshmine-gateway/src/lib.rs:953-1663 | one enabled atomic write extends the run |
| `Gateway.Gateway.CheckIssue` | crates/meshmine-gateway/src/lib.rs:953-1024 | decides exactly between a repeated issue, a new issue and an error |
| `Gateway.Gateway.IssueJob` | crates/meshmine-gateway/src/lib.rs:953-1094 | succeeds exactly for a repeat of the current job or an admissible new one, which becomes current in one write in which its predecessor enters exactly the grace period named; no other job changes |
| `Gateway.Gateway.CancelJob` | crates/meshmine-gateway/src/lib.rs:1096-1160 | succeeds exactly within the job windows, moves the job to its grace period, and a repeat changes nothing |
| `Gateway.Gateway.CloseExpired` | crates/meshmine-gateway/src/lib.rs:1162-1221 | closes exactly the expired jobs and then makes one retirement pass over what is idle; writes jobs and tombstones only, never captures |
| `Gateway.Gateway.RetireClosedJobs` | crates/meshmine-gateway/src/lib.rs:1223-1259 | takes up the idle closed jobs with the lowest assignment numbers, exactly as many as fit a pass, one retirement step each; all else stays |
| `Gateway.IdleIsAnswered` | crates/meshmine-gateway/src/lib.rs:1223-1259 | a job is taken up for retirement exactly if it is closed and the store holds none of its captures |
| `Gateway.Gateway.LowestSequence` | crates/meshmine-gateway/src/lib.rs:1236-1239 | the candidate with the smallest assignment number |
| `Gateway.Gateway.AdvanceRetirement` | crates/meshmine-gateway/src/lib.rs:1261-1322 | one write: while tombstones are left a nonempty batch of at most the batch size goes and the job stays; when none is left the job goes; nothing else changes |
| `Gateway.Gateway.CheckSubmission` | crates/meshmine-gateway/src/lib.rs:1349-1424 | accepts exactly shares for a known job in its window with matching time and sufficient work, and fixes credit eligibility; the capture is one the store can be reopened with exactly if its user name is 1 to 100 bytes |
| `Gateway.Gateway.Submit` | crates/meshmine-gateway/src/lib.rs:1349-1456 | accepts exactly an admissible share with a new work key while there is room, in one write; a duplicate has its proof of work in the store; the user name is not examined, and the store reopens afterwards exactly if it is 1 to 100 bytes |
| `Gateway.RepeatWasAccepted` | crates/meshmine-gateway/src/lib.rs:1349-1456 | a share refused as duplicate repeats the job, nonces, time and hash of one accepted earlier in the run |
| `Gateway.AcceptRecovers` | crates/meshmine-gateway/src/lib.rs:1349-1456 | storing a capture leaves a store that reopens exactly if the capture is valid for its job |
| `Gateway.Gateway.SubmitParsed` | crates/meshmine-gateway/src/lib.rs:1349-1456 | with a user name of 1 to 100 bytes, as the wire parser checks, every submission keeps the object invariant |
| `Authorization.AuthorizedFits` | crates/meshmine-core-link/src/spool.rs:591-636 | an admissible share on the job of a bundle passes the checks of the spool exactly if it was authorized: the two sets of checks agree |
| `Authorization.SubmitAuthorized` | crates/meshmine-gateway/src/lib.rs:1460-1491 | refuses exactly what is outside the assignment, and what it accepts can be forwarded |
| `Authorization.StoredCapturesProve` | crates/meshmine-gateway/src/lib.rs:1349-1456 | in every store of every run a capture has the header of its job, its hash, and a hash within the target of the job |
| `Authorization.GraceWithinWindow` | crates/meshmine-gateway/src/lib.rs:1096-1160 | in every store of every run a grace period lies within the window of its job |
| `Authorization.ExpiredIsShut` | crates/meshmine-gateway/src/lib.rs:1162-1221 | a job that is not closed expires exactly when it takes no more shares |
| `Gateway.Gateway.AcknowledgeCapture` | crates/meshmine-gateway/src/lib.rs:1610-1663 | replaces a pending capture by its tombstone once; later calls report it was done, unknown keys fail |
| `DurableRecords.FieldBack` | crates/meshmine-gateway/src/lib.rs:2846-2917 | reading a written field gives it back, whatever follows |
| `DurableRecords.FieldForth` | crates/meshmine-gateway/src/lib.rs:2846-2917 | a field that can be read was written that way |
| `DurableRecords.RecordBack` | crates/meshmine-gateway/src/lib.rs:2621-2838 | decoding an encoded record gives its values, for every record layout |
| `DurableRecords.RecordForth` | crates/meshmine-gateway/src/lib.rs:2621-2838 | bytes that decode are the encoding of the result, for every record layout |
| `DurableRecords.DurableReader.TakeBytes` | crates/meshmine-gateway/src/lib.rs:2850-2861 | returns the next bytes and advances, or fails and stays |
| `DurableRecords.DurableReader.Read` | crates/meshmine-gateway/src/lib.rs:2863-2909 | reads one field as its format says |
| `DurableRecords.DecodeRecord` | crates/meshmine-gateway/src/lib.rs:2654-2704 | reading field by field and checking the end computes the decoding |
| `DurableRecords.JobSurvives` | crates/meshmine-gateway/src/lib.rs:2621-2704 | a stored job is read back unchanged |
| `DurableRecords.JobBytes` | crates/meshmine-gateway/src/lib.rs:2654-2704 | only the encoding of a job decodes to it |
| `DurableRecords.SameJobSameBytes` | crates/meshmine-gateway/src/lib.rs:963-974 | comparing encodings, as a repeated issue does, compares jobs |
| `DurableRecords.StateSurvives` | crates/meshmine-gateway/src/lib.rs:2706-2741 | a stored job state is read back unchanged |
| `DurableRecords.StateBytes` | crates/meshmine-gateway/src/lib.rs:2725-2741 | only the encoding of a state decodes to it |
| `DurableRecords.TombstoneSurvives` | crates/meshmine-gateway/src/lib.rs:2743-2765 | a stored tombstone is read back unchanged |
| `DurableRecords.TombstoneBytes` | crates/meshmine-gateway/src/lib.rs:2751-2765 | only the encoding of a tombstone decodes |
| `DurableRecords.CaptureSurvives` | crates/meshmine-gateway/src/lib.rs:2767-2838 | a stored capture, with its padded miner header, is read back unchanged |
| `DurableRecords.CaptureBytes` | crates/meshmine-gateway/src/lib.rs:2795-2838 | only the encoding of a capture decodes to it; wrong header padding is refused |
| `DurableRecords.JobFits` | crates/meshmine-gateway/src/lib.rs:2621-2652 | every job that passes the checks has a byte form: its lengths and counts are within the limits of the format |
| `DurableRecords.CaptureFits` | crates/meshmine-gateway/src/lib.rs:2767-2793 | every capture that passes the checks has a byte form |
| `DurableRecords.SoundFits` | crates/meshmine-gateway/src/lib.rs:593-806 | every record of a sound store has a byte form, given only the widths of the program's types |
| `DurableRecords.WrittenReads` | crates/meshmine-gateway/src/lib.rs:2621-2838 | the records of a store, written as bytes, decode to the store |
| `DurableRecords.CrashReads` | crates/meshmine-gateway/src/lib.rs:593-806 | after a crash at any write of any run the bytes on disk decode to exactly the store that was written |
| `Spool.TotalWithout` | crates/meshmine-core-link/src/spool.rs:318-402 | the byte total of waiting envelopes falls by exactly the removed one, whichever it is |
| `Spool.NumberUsed` | crates/meshmine-core-link/src/spool.rs:186-316 | every number from 1 to the count of an assignment was given to one of its envelopes |
| `Spool.NumberUnique` | crates/meshmine-core-link/src/spool.rs:186-316 | no number of an assignment is given twice |
| `Spool.EnvelopeKeeps` | crates/meshmine-core-link/src/spool.rs:186-316 | making an envelope keeps the spool sound: capacity exact and bounded, numbers without gap, one envelope per key |
| `Spool.EnvelopeKeepsExactly` | crates/meshmine-core-link/src/spool.rs:186-316 | the spool stays sound exactly if the key has no receipt yet, which the client checks first |
| `Spool.ReceiptKeeps` | crates/meshmine-core-link/src/spool.rs:318-402 | replacing an envelope by its receipt keeps the spool sound |
| `Spool.DrainCovers` | crates/meshmine-core-link/src/spool.rs:470-508 | a drain that finds nothing waiting covers every number of the assignment |
| `Spool.WriteKeepsSpool` | crates/meshmine-core-link/src/spool.rs:186-508 | every write keeps the spool sound |
| `Spool.WriteStable` | crates/meshmine-core-link/src/spool.rs:318-402 | a recorded receipt is never replaced, and an envelope waits until its receipt comes |
| `Spool.DrainedIsAnswered` | crates/meshmine-core-link/src/client.rs:108-166 | in every sound spool each number up to a drain's last has an envelope with a recorded receipt |
| `Spool.NumbersAreHead` | crates/meshmine-core-link/src/spool.rs:423-436 | the numbers given out for an assignment are exactly 1 to its head |
| `Client.OperatorClient.constructor` | crates/meshmine-core-link/src/client.rs:52-66 | a client over a stored spool, for instance after a restart |
| `Client.OperatorClient.PersistBundle` | crates/meshmine-core-link/src/spool.rs:88-137 | installs exactly authentic bundles whose identity and number are free, or repeats |
| `Client.OperatorClient.BundleForSequence` | crates/meshmine-core-link/src/spool.rs:139-184 | finds exactly the installed authentic bundle of an assignment number |
| `Client.OperatorClient.PrepareEnvelope` | crates/meshmine-core-link/src/spool.rs:186-316 | returns the stored envelope of a capture, or a new one that carries it with the manifest and session of its bundle and the next number, exactly if the capture fits its bundle and there is room; the spool stays sound exactly if the capture had no receipt |
| `Client.KeptEnvelope` | crates/meshmine-core-link/src/spool.rs:186-316 | a new envelope keeps the spool sound exactly if its key has no receipt |
| `Client.OperatorClient.BeginSubmit` | crates/meshmine-core-link/src/client.rs:168-184 | a recorded receipt is answered from the spool, otherwise the envelope to send is made or found; together they keep the spool sound |
| `Client.OperatorClient.RecordReceipt` | crates/meshmine-core-link/src/spool.rs:318-402 | succeeds exactly for a signed receipt of the waiting envelope or a repeat of the recorded one |
| `Client.OperatorClient.PendingForAssignment` | crates/meshmine-core-link/src/spool.rs:438-468 | counts the waiting envelopes of an assignment |
| `Client.OperatorClient.HandleUnsolicited` | crates/meshmine-core-link/src/client.rs:218-234 | accepts exactly offers, drain requests and heartbeats, and keeps them |
| `Client.OperatorClient.SubmitCapture` | crates/meshmine-core-link/src/client.rs:168-216 | succeeds exactly if the receipt is recorded; a recorded receipt is answered without sending; writes at most an envelope and its receipt |
| `Client.OperatorClient.AwaitReceipt` | crates/meshmine-core-link/src/client.rs:185-215 | succeeds exactly if, after messages that may come at any time, the valid disposition of this request arrives |
| `Client.OperatorClient.PersistDrain` | crates/meshmine-core-link/src/spool.rs:470-508 | stores a drain with its transition once, and only an equal repeat is accepted; the spool stays sound exactly if every number up to the drain's last is answered |
| `Client.OperatorClient.CompleteDrain` | crates/meshmine-core-link/src/client.rs:108-166 | succeeds exactly if nothing waits and the answer of Core to this drain arrives, and then every number up to its last is answered |
| `Client.OperatorClient.AwaitDrain` | crates/meshmine-core-link/src/client.rs:147-165 | succeeds exactly if, after messages that may come at any time, a signed receipt for this drain arrives, whatever its outcome |
| `Client.RejectedDrainAnswers` | crates/meshmine-core-link/src/client.rs:147-165 | a receipt with outcome "rejected" answers a drain exactly like one with outcome "complete" |
| `Client.CarriedKey` | crates/meshmine-gateway/src/lib.rs:2515-2523 | an envelope that carries a capture has its work key |
| `Client.SameKeySameWork` | crates/meshmine-core-link/src/spool.rs:186-316 | an envelope under the key of a capture is for its work, and conversely, so a stored envelope never conflicts |
| `Pipeline.GatewayKeeps` | crates/meshmine-gateway/src/lib.rs:953-1663 | every gateway write keeps the end-to-end invariant |
| `Pipeline.SpoolKeeps` | crates/meshmine-core-link/src/spool.rs:186-508 | every spool write keeps the end-to-end invariant |
| `Pipeline.CoreKeeps` | crates/meshmine-core-link/src/admission.rs:178-202 | every answer of Core keeps the end-to-end invariant |
| `Pipeline.RunKeepsInv` | crates/meshmine-core-link/src/client.rs:168-216 | the end-to-end invariant holds in every world of every run, with crashes, reconnections and lost, repeated or delayed messages |
| `Pipeline.TombstoneMeansAnswered` | crates/meshmine-gateway/src/lib.rs:1584-1663 | whenever the gateway has tombstoned a capture, exactly one envelope carries it and the spool holds the receipt that Core journaled |
| `Pipeline.ShareAccounted` | crates/meshmine-core-link/src/client.rs:168-216 | no accepted share is lost or altered: at every later moment it is pending as accepted, or answered |
| `Pipeline.EnvelopeOnce` | crates/meshmine-core-link/src/spool.rs:186-316 | a work key gets at most one envelope in a whole run |
| `Pipeline.ReceiptForever` | crates/meshmine-core-link/src/spool.rs:318-402 | a work key has at most one receipt: once recorded it stays |
| `Pipeline.DispositionForever` | crates/meshmine-core-link/src/admission.rs:178-202 | Core never changes a disposition |
| `Pipeline.JournaledWasMade` | crates/meshmine-core-link/src/admission.rs:178-299 | Core disposes only of envelopes that the client made |
| `Pipeline.GatewayTrace` | crates/meshmine-gateway/src/lib.rs:953-1663 | a run of the gateway that acknowledges only answered keys is a run of the whole pipeline |
| `Deployment.Deployment.Share` | crates/meshmine-gateway/src/lib.rs:1349-1456 | a share from the wire is one step of the run; it is refused as duplicate only if a capture with the same proof of work was accepted before |
| `Deployment.Deployment.Begin` | crates/meshmine-core-link/src/client.rs:168-184 | the first half of a submission is a step of the run: the envelope made carries the stored capture |
| `Deployment.Deployment.Await` | crates/meshmine-core-link/src/client.rs:185-215 | whatever messages arrive (signed receipts being ones Core sent), the wait is a step of the run, and it succeeds exactly if the receipt is in the spool |
| `Deployment.Deployment.Deliver` | crates/meshmine-core-link/src/admission.rs:178-299 | Core answers every envelope ever made with the receipt it journaled, now or before; the decision that is due on a new one is journaled and sent |
| `Deployment.Deployment.Admit` | crates/meshmine-core-link/src/client.rs:168-216 | the client as the consumer of the gateway: it succeeds exactly if the receipt is in the spool |
| `Deployment.Deployment.Acknowledge` | crates/meshmine-gateway/src/lib.rs:1610-1663 | once the receipt is in the spool, the acknowledgement is exactly one step of the run |
| `Deployment.Deployment.DrainOne` | crates/meshmine-gateway/src/lib.rs:1590-1603 | one round of the drain acknowledges the first pending capture exactly if its receipt is in the spool |
| `Deployment.Deployment.DrainCaptures` | crates/meshmine-gateway/src/lib.rs:1584-1605 | acknowledges captures one by one after their receipts, in order, and stops at the first that is not answered |
| `Deployment.Deployment.CompleteDrain` | crates/meshmine-core-link/src/client.rs:108-166 | a drain of the operator's spool is a step of the run |
| `Deployment.TombstonesAnswered` | crates/meshmine-gateway/src/lib.rs:1584-1663 | whatever methods ran and wherever they crashed: a tombstoned capture has exactly one envelope, and the spool holds the receipt that Core journaled for it |
| `Deployment.SharesAccounted` | crates/meshmine-core-link/src/client.rs:168-216 | whatever methods ran and wherever they crashed: a share once accepted is pending as accepted, or answered by Core |
| `Deployment.ReceiptsDecided` | crates/meshmine-core-link/src/admission.rs:226-299 | whatever methods ran and wherever they crashed: a receipt in the spool is the verdict on the share of the accepted capture; an invalid share is rejected for its reason, a valid one is credited or its work is credited to another share |
| `Deployment.WorkPaidOnce` | crates/meshmine-share/src/lib.rs:796-866 | two accepted receipts in the spool for the same work are for the same key |
| `Deployment.NothingAfterDrain` | crates/meshmine-handoff/src/lib.rs:1332-1432 | once Core has drained an assignment no receipt in the spool is for a later capture of it |
| `Deployment.DrainCompletes` | crates/meshmine-core-link/src/admission.rs:301-388 | once nothing of the active assignment waits in the spool, the drain the operator makes is exactly what completes the transition at Core |
| `Deployment.Launch` | bins/meshmine-corelink-operatord/src/main.rs:174-217 | the first start, on empty disks, gives a deployment with all guarantees |
| `Deployment.Restart` | bins/meshmine-corelink-operatord/src/main.rs:174-217 | the processes over what they had stored, at any point of any run: everything reopens, and the run continues where it was |
| `Deployment.CrashAndRestart` | bins/meshmine-corelink-operatord/src/main.rs:174-217 | a crash after any write of any method, and a restart on what was stored then, give a deployment with the same guarantees |
| `Handoff.PostKeepsLedger` | crates/meshmine-handoff/src/lib.rs:1031-1203 | every posting keeps the ledger: one open assignment at the head, dispositions numbered without gap in order of arrival, drains at the cursor, accepted dispositions, shares and works one to one |
| `Handoff.PostsKeepLedger` | crates/meshmine-handoff/src/lib.rs:1031-1203 | this holds in every ledger of every run of postings, with crashes between any two |
| `Handoff.CreditedOnce` | crates/meshmine-share/src/lib.rs:796-866 | two accepted dispositions of the same work are the same: work is credited once |
| `Handoff.SealedIsDisposed` | crates/meshmine-handoff/src/lib.rs:526-541 | the captures of a drained assignment that Core disposed of are exactly those up to the last of the drain, which it names |
| `Handoff.SealedForever` | crates/meshmine-handoff/src/lib.rs:1332-1432 | once drained an assignment stays drained, and no further capture of it is ever disposed of |
| `Agreement.HeadsMeet` | crates/meshmine-core-link/src/spool.rs:423-436 | once nothing of an assignment waits, the spool and Core agree on how many captures it had and which was the last |
| `Agreement.DrainMeetsCursor` | crates/meshmine-handoff/src/lib.rs:526-541 | the drain of a spool in which nothing waits is the one Core accepts |
| `Agreement.AnswerIsAccepted` | crates/meshmine-handoff/src/lib.rs:1270-1306 | the receipt by which Core answers a drain is accepted by the operator that sent it, and answers no other drain |
| `Admission.SameWorkSameProof` | crates/meshmine-types/src/objects.rs:997-1006 | shares have the same work exactly if session, body, time, extra nonce, nonce and hash agree |
| `Admission.ReasonsTellApart` | crates/meshmine-core-link/src/admission.rs:580-591 | the reason of a rejection tells the errors apart, but for the two ways to miss the target |
| `Admission.WriteKeepsBook` | crates/meshmine-core-link/src/admission.rs:111-478 | every write of Core keeps pointers on stored bundles, pending the successor of active, the history a chain, the assignment head in step with the pointers, every replaced assignment drained, and every receipt the verdict on its share |
| `Admission.RunKeepsBook` | crates/meshmine-core-link/src/admission.rs:111-478 | this holds in every state of every run, with crashes between any two writes |
| `Admission.HistoryGrows` | crates/meshmine-core-link/src/admission.rs:301-388 | the history of active bundles only grows |
| `Admission.NeverGoesBack` | crates/meshmine-core-link/src/admission.rs:301-388 | the active assignment number never falls, and equals an earlier one only for the same bundle |
| `Admission.ReplacedIsDisposed` | crates/meshmine-core-link/src/admission.rs:301-388 | when an assignment has been replaced, Core has disposed of exactly the captures its drain covers |
| `Admission.CoreEngine.constructor` | crates/meshmine-core-link/src/admission.rs:95-109 | an engine over stored state, for instance after a restart |
| `Admission.CoreEngine.StageBundle` | crates/meshmine-core-link/src/admission.rs:111-151 | succeeds exactly for valid bundles that are storable and fit the pointers and the head; a repeat completes an interrupted call |
| `Admission.CoreEngine.InstallOrMarkPending` | crates/meshmine-core-link/src/admission.rs:413-478 | authorizes and activates the first bundle and makes a successor pending, exactly when it fits |
| `Admission.CoreEngine.CloseActive` | crates/meshmine-handoff/src/lib.rs:1332-1432 | seals the active assignment exactly if the drain ends at the cursor, or repeats the drain that sealed it |
| `Admission.CoreEngine.AnswerClosing` | crates/meshmine-core-link/src/admission.rs:326-349 | journals the answer to a drain once; a repeat succeeds exactly if it is the same, time included |
| `Admission.CoreEngine.SwitchAssignment` | crates/meshmine-handoff/src/lib.rs:1435-1565 | moves the head exactly from a drained assignment to a new one, or repeats the transition that moved it |
| `Admission.CoreEngine.CompletePendingTransition` | crates/meshmine-core-link/src/admission.rs:301-388 | completes exactly if the drain ends the active assignment at its cursor, the answer is new or the same, and the transition fits, also after an interruption at any write |
| `Admission.RetryNeedsSameTime` | crates/meshmine-core-link/src/admission.rs:326-349 | a transition interrupted after its answer was journaled completes only at the time of that answer, because the answer carries its time |
| `Admission.CoreEngine.AdmitCapture` | crates/meshmine-core-link/src/admission.rs:178-299 | a journaled receipt is returned again; otherwise succeeds exactly for the next capture of the current assignment, and the receipt has the outcome, reason, share and time of the verdict: a valid share is credited, unless its work is credited to another one |

## Left out

- Sockets, threads, JSON-RPC and HTTP text, timeouts, credentials, file permissions and the command-line programs.
- The storage engine, and byte limits on recovery scans: a scan returns the whole namespace.
- Decimal and hexadecimal spelling of store keys, and the 64-bit record that holds the next assignment number.
- Nonce prefix allocation, work leases, gateway events and status counters.
- Full consensus headers and the share hash: the header hash is a parameter of the gateway.
- Reed-Solomon arithmetic: the erasure code is a parameter with its contract. Ed25519, SHA-3 and BLAKE2b outside the circuit.
- Writing the circuit as Bristol text.
- Floating point: independent annualised figures, Monte Carlo and the conversion of annual targets to fractions.
- The commitment bytes of risk profiles, and the profile fields that enter no figure: names, lookback, overlaps' role numbers. The number of selections in a year is a parameter.
- Retrieval challenges, body admission quotas, pruning, committee rotation, fault ledgers and selection transcripts.
- Byte forms of publication attempts, spool records, bundles and rosters; their fields are modelled.
- Share validation inside Core: its verdict on an envelope at a time is the parameter `judge` of `Admission.Rulings`.
- Context manifests: their sequence and the signatures on manifests, drains and transitions are parameters of `Admission.Rulings`.
- Termination of rejection sampling: a draw that never accepts a value is a parameter that returns an error.
- Publisher.DurableBlockPublisher.Publish: targets are submitted one after another; interleavings are in the state machine of the same module.
- Sortition.WeightedDraw: the width of the drawn values is a parameter; the program uses 512 bits.
- Gateway.CrashRecovers: the order of the pending queue is not restored, only its contents.
