# LandGuard, verified model

A Dafny model of LandGuard Uganda's tamper-evidence stack and of the
human-in-the-loop workflow that writes into it, with proofs. Five parts:

1. **Merkle trees** (`MerkleTree`, `HexText`, `ShaMerkle`, `EvmMerkle`,
   `TsMerkle`, `TsAgreement`, `ProofLengths`): the index-ordered SHA-256 tree, the sorted-pair Keccak tree
   that is anchored on chain, and the TypeScript copy of the verifiers.
   Completeness for every leaf count, soundness, binding, and the exact limits
   of each.
2. **Hash-chained ledger and paged verifier** (`CanonicalJson`,
   `JsonRoundTrip`, `JsonCanonical`, `JsonText`, `JsonGrammar`, `Ledger`,
   `Verifier`, `ChainEvidence`): JSON as Python's encoder prints it and as
   RFC 8259 has it read, append and anchoring marks, the paged walk, tamper evidence over whole
   histories.
3. **Anchoring protocol** (`AnchorProtocol`, `AnchorEvidence`,
   `AnchorService`, `TitleVerification`, `TitleLookup`): flushes in two atomic halves around one `await`, any
   number of them in flight, over the ledger of part 2 and the trees of part 1,
   and the public check of a title that rests on them.
4. **Parcel workflow** (`Registry`, `RegistryFrames`, `Authority`, `Effects`,
   `Alerts`, `Custody`, `Gate`, `Outbox`, `Ownership`, `Titles`, `TitleNumbers`,
   `Witnesses`, `RegistryService`): every handler and job as one step over the shared tables,
   who may take it and what it does, and safety over all runs.
5. **Resilience pieces** (`Breaker`, `Cache`, `NiraCache`, `LikeEscape`).

Code that computes is modelled as functions. Code that changes state is
modelled twice: as a step function on values, about which everything over runs
is proved, and as a class whose methods follow the source statement by
statement and are proved to take that step. The classes carry the history of
their steps, so what holds of runs holds of their objects. The two hash functions are
parameters, and nothing assumes them injective: soundness results hold unless
two members of one explicit finite set, the inputs hashed by the computations
at hand, collide. Clocks, batch ids, uuids, the scorer's verdict, a failing
append and a failing insert are arguments of the steps.

Verify everything with `dafny verify dfyconfig.toml`.

## Where code and documentation disagree

The model follows the code.

- `backend/app/audit/merkle.py:62-86` suggests that a proof binds its leaf. `pair_hash`
  concatenates without a separator and the verifier ignores the length of the
  leaf, so every cut of the hashed pair is accepted: `ShaMerkle.EveryCutIsAccepted`,
  `ShaMerkle.OnlyCutsAreAccepted`.
- `frontend/src/lib/merkle.ts` is described as a mirror of the Python verifier. It
  is one exactly on hexadecimal text: `TsAgreement.CopiesAgreeIffHex`.
- `backend/app/blockchain/mock_client.py:60-75` verifies proofs without looking at their
  length, so it also attests interior nodes: `ProofLengths.InteriorNodeIsAccepted`,
  `ProofLengths.HalfOfLeafTextIsAccepted`.
- `backend/app/audit/verifier.py:38-44` describes the walk as if a stored payload always
  printed back alike. With certain surrogate keys it does not, and an honest chain
  is reported corrupt (`JsonCanonical.SplitKeyDoesNotRedump`,
  `ChainEvidence.HonestRunVerifiesIff`).
- `backend/app/routers/fraud.py:12` calls affirmation the only path to FROZEN; that is
  proved. That the freeze always comes with a dispute fails on the autocommitting
  connection of `backend/app/database.py:30-39` when the reviewer is not in
  `owners`, which `disputes.claimant_id` references
  (`backend/app/db/migrations/001_init.sql:82`):
  `Custody.UnlistedReviewerFreezesAlone`.
- `backend/app/routers/fraud.py:469` says that the original officer does not decide the
  appeal. The decision does not depend on who reviewed: `Witnesses.DecisionIgnoresReviews`,
  `Witnesses.OfficerDecidesOwnAppeal`.
- `backend/app/routers/transfers.py:149-150` asks to resolve the FRAUD dispute first.
  Resolving it does not unblock the transfer: `Gate.BlockedStaysBlocked`.
- `backend/app/routers/transfers.py:126-172` looks at neither the status of the
  transfer nor that of the parcel, so a frozen parcel can leave FROZEN by an
  approval: `Custody.ReleasedIff`, `Witnesses.FrozenParcelIsSold`.
- `backend/app/resilience.py:43` allows one probe in HALF_OPEN; the code admits any
  number at once: `Breaker.HalfOpenAdmitsAll`.
- `backend/app/util/ids.py:52` gives every district without a code the same one, so
  their title numbers can clash: `Titles.NextNumberTakenIff`,
  `Witnesses.UncodedDistrictIsRefused`.
- `backend/app/routers/verify.py:195-208` shows the batch of the newest matching event next
  to a proof of the first, which need not be about the title that was asked for:
  `TitleVerification.ValidIsAboutTheTitleIff`, `TitleVerification.OtherTitleIsProved`.
- `backend/app/nira/cache.py:112-114` counts the TTL from the hot write, not from the call:
  `NiraCache.AgeWithinTtlIff`.
- `backend/app/util/sql.py:13-15` speaks of literal treatment. The value is literal, up to
  ASCII case; the underscore of the field name around it is not:
  `LikeEscape.TitleLookupFinds`.

## Model

| member | source | states |
|---|---|---|
| `MerkleTree.PadLevel` | backend/app/audit/merkle.py:54-55 | an odd level gets its last node again, and the padded level holds at `idx ^ 1` the node that the tree pairs `idx` with |
| `MerkleTree.LevelUp` | backend/app/audit/merkle.py:53-58 | one turn of the climbing loop gives the next level of the tree, and the level shrinks |
| `MerkleTree.ClimbToRoot` | backend/app/audit/merkle.py:50-59 | the loop ends with the recursively defined root, for every leaf count |
| `MerkleTree.ClimbCollecting` | backend/app/audit/merkle.py:62-76 | the loop collects exactly the siblings on the way up and also reaches the root |
| `MerkleTree.ProofFoldsToRoot` | backend/app/audit/merkle.py:62-86 | for every non-empty list and valid index, replaying the generated siblings from the leaf gives the root |
| `MerkleTree.ProofHasDepth` | backend/app/audit/merkle.py:62-76 | a generated proof is as long as the tree is deep |
| `MerkleTree.DepthIsCeilLog2` | backend/app/audit/merkle.py:50-76 | the depth d of n leaves satisfies 2^(d-1) < n <= 2^d, and is 0 for one leaf |
| `MerkleTree.OriginOfLeaf` | backend/app/audit/merkle.py:54-55 | in the tree completed by duplication, the positions below n still hold their own leaves |
| `HexText.HexRoundTrip` | backend/app/audit/merkle.py:94-108 | `bytes.fromhex` undoes `bytes.hex` for every byte string |
| `HexText.PrefixedParses` | backend/app/audit/merkle.py:94-108 | the printed form of 32 bytes is read back as those 32 bytes |
| `HexText.LeafTextInjective` | backend/app/audit/merkle.py:123-130 | different ledger digests are hashed from different leaf texts |
| `HexText.HighDigitFirst` | backend/app/audit/merkle.py:104-108 | each byte is printed as two of `0123456789abcdef`, the high half first |
| `HexText.NumbersAreRead` | backend/app/audit/merkle.py:94-101 | a number of any length, with or without `0x`, is read as its last 32 bytes, padded with zeros on the left |
| `HexText.LowerIgnoresCase` | backend/app/audit/merkle.py:181-190 | two strings are equal in lower case exactly when they differ at most in the case of letters |
| `HexText.LeafTextIsAscii` | backend/app/audit/merkle.py:123-130 | what is hashed for a ledger digest is its 64 characters, one byte each |
| `ShaMerkle.ComputeMerkleRoot` | backend/app/audit/merkle.py:50-59 | returns the empty string for no leaves and the root of the index-ordered SHA-256 tree otherwise |
| `ShaMerkle.MerkleProof` | backend/app/audit/merkle.py:62-76 | fails exactly for an index out of range, and returns the siblings of the leaf otherwise |
| `ShaMerkle.VerifyMerkleProof` | backend/app/audit/merkle.py:79-86 | accepts exactly when the replay by the parity of the index ends in the root |
| `ShaMerkle.RoundTrip` | backend/app/audit/merkle.py:62-86 | every generated proof is accepted against the separately computed root, and its length is the ceiling of log2 n |
| `ShaMerkle.RootIsCompletedTop` | backend/app/audit/merkle.py:45-59 | the root is the top of the tree completed by duplication, in which every node is SHA-256 of its left child's text followed by its right child's |
| `ShaMerkle.RootOfThree` | backend/app/audit/merkle.py:45-59 | three leaves written out: sha256(sha256(a + b) + sha256(c + c)) |
| `ShaMerkle.AcceptedLeafIsTheLeaf` | backend/app/audit/merkle.py:50-59 | a depth-length proof accepted at index i forces the leaf to be leaf i exactly when the string offered has that leaf's length; else a collision among the strings hashed |
| `ShaMerkle.EveryCutIsAccepted` | backend/app/audit/merkle.py:45-47 | `pair_hash` has no separator: every beginning (even index) or end (odd index) of the concatenated pair is accepted by some depth-length proof |
| `ShaMerkle.OnlyCutsAreAccepted` | backend/app/audit/merkle.py:79-86 | and, short of a collision, no other string is |
| `ShaMerkle.SameRootIffSameCompletion` | backend/app/audit/merkle.py:50-59 | two lists of the same depth share a root exactly when they fill the duplicated tree alike |
| `ShaMerkle.RootAndCountBindLeaves` | backend/app/audit/merkle.py:50-59 | root and leaf count together determine the whole leaf list in order |
| `ShaMerkle.RepeatedLastLeafKeepsRoot` | backend/app/audit/merkle.py:54-55 | the count is needed: an odd list and the list with its last leaf repeated have the same root |
| `EvmMerkle.Keccak256IsLawful` | backend/app/audit/merkle.py:89-130 | the source's text format (`0x` hex, lower-casing, zero filling, last 64 characters, leaf bridge) obeys every law that the Keccak tree is developed from |
| `EvmMerkle.BytesLeTotalOrder` | backend/app/audit/merkle.py:111-120 | the byte order that sorts a pair is total and antisymmetric |
| `EvmMerkle.BytesLeIsLexicographic` | backend/app/audit/merkle.py:118-119 | `a <= b` on bytes: a is a prefix of b, or the first byte in which they differ is smaller in a |
| `EvmMerkle.SmallerIsHashedFirst` | backend/app/audit/merkle.py:111-120 | of two strings read as x and y, in either order of the arguments, the one with the smaller first difference is hashed first: the printed Keccak of x + y |
| `EvmMerkle.RootOfTwo` | backend/app/audit/merkle.py:123-151 | the root of two digests: Keccak of the text of each, the smaller hash first, Keccak of both, whatever the order of the digests |
| `EvmMerkle.ComputeMerkleRootEvm` | backend/app/audit/merkle.py:133-151 | returns the root of the sorted-pair tree over the hashed leaves, empty for no leaves |
| `EvmMerkle.MerkleProofEvm` | backend/app/audit/merkle.py:154-178 | fails exactly for an index out of range; otherwise leaf, siblings and root of the tree |
| `EvmMerkle.VerifyMerkleProofEvm` | backend/app/audit/merkle.py:181-190 | the boolean of the sorted replay compared without case, or the ValueError of an unparsable string |
| `EvmMerkle.VerdictIgnoresCase` | backend/app/audit/merkle.py:181-190 | the verdict is whether the top of the replay and the root are equal but for the case of letters |
| `EvmMerkle.SortedReplayIgnoresSides` | backend/app/audit/merkle.py:111-120 | because pairs are sorted, the replay without sides reaches the root that the indexed tree computes |
| `EvmMerkle.RoundTripEvm` | backend/app/audit/merkle.py:154-190 | every generated proof is accepted against the separately computed root; its length is the ceiling of log2 n |
| `EvmMerkle.AcceptedLeafIsInBatch` | backend/app/audit/merkle.py:133-190 | an accepted proof of full depth starts from a leaf of the batch, or two different hashed inputs collide |
| `EvmMerkle.ForeignDigestIsRejected` | backend/app/audit/merkle.py:123-190 | a ledger digest accepted with a full-depth proof is one of the batch's digests |
| `EvmMerkle.SameRootSameLeaves` | backend/app/audit/merkle.py:133-151 | two batches of equal depth and root hold the same set of digests |
| `ProofLengths.ShortProofStartsInside` | backend/app/audit/merkle.py:181-190 | an accepted proof that is shorter than the tree is deep starts from a node of the level that is as many steps below the root |
| `ProofLengths.LongProofPassesLeaf` | backend/app/audit/merkle.py:181-190 | a longer one hashes a pair into a node that reads like a leaf |
| `ProofLengths.DigestAtAnyLength` | backend/app/blockchain/mock_client.py:60-75 | a ledger digest accepted with a proof of any length: a digest of the batch at full depth; with fewer siblings its text is a pair hashed in the tree; with more, some leaf's text is a pair hashed by the proof |
| `ProofLengths.InteriorNodeIsAccepted` | backend/app/blockchain/mock_client.py:60-75 | every interior node is accepted, with one sibling fewer than the leaves need |
| `ProofLengths.HalfOfLeafTextIsAccepted` | backend/app/blockchain/mock_client.py:60-75 | half of a digest's text is accepted with the other half as an additional sibling, whenever the halves are in order |
| `EvmMerkle.RootIgnoresOrder` | backend/app/audit/merkle.py:111-120 | leaf order is not bound: exchanging two leaves keeps the root |
| `EvmMerkle.RootIgnoresRepetition` | backend/app/audit/merkle.py:146-147 | multiplicity is not bound: repeating the last leaf of an odd batch keeps the root |
| `TsMerkle.ComputeMerkleRoot` | frontend/src/lib/merkle.ts:28-40 | the TypeScript loops compute the same SHA-256 root |
| `TsMerkle.HashPairs` | frontend/src/lib/merkle.ts:32-37 | the inner loop produces the next level of the tree |
| `TsMerkle.VerifyMerkleProof` | frontend/src/lib/merkle.ts:42-55 | accepts exactly what the Python verifier accepts |
| `TsMerkle.HexToBytes32Js` | frontend/src/lib/merkle.ts:65-74 | fills a fresh 32-byte array with the bytes that `parseInt` and `Uint8Array` give, malformed text included |
| `TsMerkle.ByteIsParseInt` | frontend/src/lib/merkle.ts:70-72 | each byte is `parseInt` of its two characters (white space, sign, as many digits as there are), NaN as 0, modulo 256 |
| `TsMerkle.CompareBytes` | frontend/src/lib/merkle.ts:85-91 | negative or positive as the first byte in which the arrays differ is smaller or greater in the first one, and 0 exactly on equal arrays |
| `TsMerkle.KeccakPairSortedJs` | frontend/src/lib/merkle.ts:98-106 | the pairing of the tree, under the TypeScript reading of the two strings |
| `TsMerkle.VerifyMerkleProofEvmJs` | frontend/src/lib/merkle.ts:116-126 | the sorted replay under the TypeScript reading |
| `TsMerkle.ReadingsAgreeIffHex` | frontend/src/lib/merkle.ts:65-74 | the two readings of a string give the same bytes exactly when the characters that count are hexadecimal |
| `TsAgreement.AgreeIffFull` | frontend/src/lib/merkle.ts:116-126 | two readings of which the second never fails give the same verdict for every root exactly when there is no sibling, or leaf and siblings are all read as 32 bytes; or two different hashed inputs collide |
| `TsAgreement.CopiesAgreeIffHex` | scripts/verify_offline.py:59-85 | the Python text and the TypeScript copy return the same verdict for every root exactly when there is no sibling, or leaf and siblings are all hexadecimal text |
| `TsAgreement.EqualTops` | frontend/src/lib/merkle.ts:98-126 | equal tops come from equal hashed pairs all the way down, and from later siblings that Python reads in full |
| `TsAgreement.BadDigitsAreAccepted` | frontend/src/lib/merkle.ts:65-74 | the sibling `zz`: Python raises, TypeScript accepts under a root of its own |
| `TsAgreement.TwoSpacesReadShort` | backend/app/audit/merkle.py:94-101 | two spaces are read as 31 bytes and are not hexadecimal text |
| `TsAgreement.ShortReadingSplitsTheCopies` | frontend/src/lib/merkle.ts:65-74 | so the copies differ for some root when a leaf or any sibling is two spaces |
| `JsonRoundTrip.ParseEmitted` | backend/app/audit/ledger.py:144-145 | the parser reads back any printed value, keys in printed order, surrogate pairs joined |
| `JsonGrammar.JsonTextIsLoaded` | backend/app/audit/verifier.py:54-56 | `json.loads` reads every JSON text (sections 2 to 7 of RFC 8259), as the value of its derivation with repeated keys merged |
| `JsonGrammar.LoadedIsJsonText` | backend/app/audit/verifier.py:54-56 | and whatever it accepts is a JSON text |
| `JsonGrammar.PartsAreNumber` | backend/app/audit/verifier.py:54-56 | a sign, a whole part without leading zeros, a fraction and an exponent make a number, an integer exactly without the last two |
| `JsonGrammar.NumberHasParts` | backend/app/audit/verifier.py:54-56 | and every number has these parts |
| `JsonGrammar.LastMemberCounts` | backend/app/audit/verifier.py:54-56 | of a repeated key the last value counts, and every key is kept once |
| `JsonText.DumpsIsLaidOut` | backend/app/audit/ledger.py:144-145 | the text is printable ASCII; outside of strings, the ledger's text has one space behind every comma and colon and no other white space, and the compact text has none |
| `JsonText.EscapesAreShortest` | backend/app/audit/ledger.py:144-145 | each code point is printed as itself where it can be, else with its two-character escape, else as one or two lower-case `\u` escapes, and read back |
| `JsonText.QuotedAsIsIff` | backend/app/audit/ledger.py:144-145 | a string stands unchanged between its quotes exactly when it is printable ASCII without quote and backslash |
| `JsonText.TextLtIsLexicographic` | backend/app/audit/ledger.py:144-145 | the order of `sort_keys`: a proper prefix first, otherwise the first difference of code points |
| `JsonText.OutlineOfText` | backend/app/audit/ledger.py:144-145 | null, true, false and numbers are printed as such, arrays between brackets, objects between braces, strings between quotes |
| `JsonText.FieldIsQuoted` | backend/app/routers/verify.py:67-73 | a field with a plain name and a plain string stands in the ledger's text as `"name": "value"` |
| `JsonText.RecordedTitleIsFound` | backend/app/routers/verify.py:67-73 | the pattern of the title lookup matches the text that `append` stores for a payload with that title number |
| `JsonCanonical.LoadsOfDumps` | backend/app/audit/ledger.py:144-210 | for every printable value, `loads(dumps(p))` is the value seen through the encoding: keys sorted, pairs joined, default=str applied |
| `JsonCanonical.RedumpRepeatsIffStrict` | backend/app/audit/verifier.py:55-57 | the second dump repeats the first exactly when the keys, after joining surrogate pairs, are still strictly increasing in every object |
| `JsonCanonical.PlainKeysRedump` | backend/app/audit/verifier.py:55-57 | in particular whenever no key contains a surrogate |
| `JsonCanonical.SplitKeyDoesNotRedump` | backend/app/audit/verifier.py:55-57 | a payload with two keys for which it fails |
| `JsonCanonical.SameTextIffSameSeen` | backend/app/util/hashing.py:13-15 | two payloads print the same text exactly when they are the same through the encoding, so different values print differently |
| `JsonCanonical.InsertionOrderIsInvisible` | backend/app/util/hashing.py:13-15 | the order in which keys were inserted, at any depth, never changes the text |
| `Ledger.AuditLedger.LastSeqAndHash` | backend/app/audit/ledger.py:119-130 | the last number and hash of the tenant's chain, or 0 and the genesis hash |
| `Ledger.AuditLedger.Append` | backend/app/audit/ledger.py:132-178 | adds exactly one row, numbered and hashed onto the last one, and leaves the other tenants alone |
| `Ledger.PageIsNext` | backend/app/audit/ledger.py:180-219 | a page starts right behind the last row that is not behind the cursor, skips none, and is shorter than `limit` only at the end of the chain |
| `Ledger.FirstUnanchored` | backend/app/audit/ledger.py:231-241 | what is selected are unanchored rows in order, and an unanchored row is left out only behind a full `limit` |
| `Ledger.AuditLedger.MarkAnchored` | backend/app/audit/ledger.py:243-254 | marks exactly the unmarked rows of the range, counts them, and touches no other tenant |
| `Ledger.MarkTakesItsCount` | backend/app/audit/ledger.py:243-254 | what a mark counts is what it takes from the unanchored rows |
| `Ledger.AuditLedger.AnchorRange` | backend/app/audit/ledger.py:256-276 | count and SHA-256 root of the payload hashes in the range |
| `Ledger.AppendKeepsChain` | backend/app/audit/ledger.py:143-157 | an append extends a well-formed chain to a well-formed chain |
| `Ledger.MarkKeepsChain` | backend/app/audit/ledger.py:243-254 | anchoring marks never disturb the chain |
| `Verifier.VerifyChain` | backend/app/audit/verifier.py:38-83 | the paged nested loops terminate and return the closed-form report: verified with the number of rows seen, the least corrupt row with its reason, or the error of an unparsable payload |
| `ChainEvidence.PagingIsExactIff` | backend/app/audit/verifier.py:45-53 | paging visits exactly the stored rows if and only if the numbers are positive and no two equal numbers meet at a page boundary |
| `ChainEvidence.SameReportAsOnePassIff` | backend/app/audit/verifier.py:45-83 | a batch size gives the report of a single pass exactly when no corrupt row sits on an earlier page than the first unparsable payload |
| `ChainEvidence.AcceptedIffReportedVerified` | backend/app/audit/verifier.py:38-83 | a verified report means that every payload parses and prints to its hash and every row is hashed onto the one before |
| `ChainEvidence.ReportNamesTheFault` | backend/app/audit/verifier.py:54-76 | a report of corruption names the first faulty row: PayloadHashMismatch exactly when its re-dumped payload does not hash to payload_hash, RowHashChainBreak exactly when that agrees and the row_hash before it (64 zeros for the first row) with payload_hash does not hash to row_hash; every earlier row that parses is right in both |
| `ChainEvidence.VerifiedIffColumnsAgree` | backend/app/audit/verifier.py:54-83 | a table is reported verified exactly when every row parses, its re-dumped payload hashes to payload_hash, and the row_hash before it with payload_hash hashes to row_hash |
| `ChainEvidence.SameHeadSameHistory` | backend/app/audit/verifier.py:45-83 | two verified chains with the same last hash have the same length and the same canonical payloads and hashes throughout, up to a collision or a digest equal to the genesis hash |
| `ChainEvidence.SameHeadSamePayloads` | backend/app/audit/verifier.py:55-57 | and a reader of the two histories is told the same values, with the ledger's own JSON |
| `ChainEvidence.TruncationIsInvisible` | backend/app/audit/verifier.py:45-83 | a chain cut off at the end is reported verified too |
| `ChainEvidence.OtherColumnsAreInvisible` | backend/app/audit/verifier.py:54-76 | rows that agree on payload text, payload hash and row hash are judged alike: the stored prev_hash, type, user and batch are not looked at |
| `ChainEvidence.RunIsChained` | backend/app/audit/ledger.py:132-254 | after any interleaving of appends and marks over all tenants, every tenant has a well-formed chain of exactly the payloads it was given |
| `ChainEvidence.AppendedIsReadBack` | backend/app/audit/ledger.py:143-157 | the appended row says who did what, is numbered next, and its text is read back as the payload seen through the encoding |
| `ChainEvidence.HonestRunVerifiesIff` | backend/app/audit/verifier.py:38-83 | such a run is reported verified, with as many events as were appended, exactly when every payload dumps back alike |
| `ChainEvidence.PythonRedumpIff` | backend/app/audit/verifier.py:55-57 | which for the ledger's JSON is the condition on the keys |
| `AnchorProtocol.MarkEvolves` | backend/app/audit/ledger.py:243-254 | a mark whose range starts no later than one past the frontier moves the frontier to its end and keeps the anchored events a prefix |
| `AnchorProtocol.UnanchoredIsTail` | backend/app/audit/ledger.py:231-241 | the snapshot of a flush is gap-free: the tail behind the frontier |
| `AnchorProtocol.PendingIsNext` | backend/app/blockchain/anchor_service.py:105-126 | first, last and leaves of a flush, in terms of the frontier |
| `AnchorProtocol.BeginKeepsInv` | backend/app/blockchain/anchor_service.py:100-163 | the first half keeps the invariant, whether empty, deferred, refused by the breaker or suspended |
| `AnchorProtocol.CompleteKeepsInv` | backend/app/blockchain/anchor_service.py:173-198 | so does the second half after a receipt of any status, with or without its ANCHOR_COMMITTED event |
| `AnchorProtocol.StepKeepsInv` | backend/app/blockchain/anchor_service.py:100-199 | every step keeps the invariant, and only adds events and sets marks that were unset |
| `AnchorProtocol.RunKeepsInv` | backend/app/blockchain/anchor_service.py:100-199 | so does every interleaving |
| `AnchorEvidence.ReachableIsAnchoredInOrder` | backend/app/blockchain/anchor_service.py:100-199 | in every reachable state the anchored events are a prefix; every anchor row has leaf_count = last - first + 1 and the root of its range, the chain agrees with the table, and every anchored event lies in its batch |
| `AnchorEvidence.MarksAreFinal` | backend/app/audit/ledger.py:243-254 | no continuation of a run changes a recorded event or a mark that is set |
| `AnchorEvidence.OnlyCompletionMarks` | backend/app/blockchain/anchor_service.py:155-171 | failed, refused and cancelled flushes lose nothing: the next flush takes the same events |
| `AnchorEvidence.FlushReplyIff` | backend/app/blockchain/anchor_service.py:105-163 | in every reachable state, with n events waiting: EMPTY exactly for n = 0; DEFERRED exactly when not forced, n is below batch_size and less than the interval has passed since the latest anchored_at; otherwise the breaker alone decides |
| `AnchorEvidence.FlushLists` | backend/app/blockchain/anchor_service.py:123-163 | a flush writes nothing, or one PENDING row over the next events, at most four batches, and only one that is let through stays in flight |
| `AnchorEvidence.FullOrLateIsListed` | backend/app/blockchain/anchor_service.py:112-117 | a flush that is not forced lists a batch as soon as batch_size events wait, or any event and the interval has passed |
| `AnchorEvidence.FlushEnds` | backend/app/blockchain/anchor_service.py:155-198 | a completed flush marks exactly the unmarked events of its range, puts the receipt into its row and adds at most one event; a failed one sets FAILED and marks nothing; a cancelled one leaves its row |
| `AnchorEvidence.ProofIsAccepted` | backend/app/blockchain/anchor_service.py:202-233 | in every reachable state a proof is built exactly for the anchored events, never crashes, is about that event, and is accepted by the chain, however batches overlap |
| `AnchorEvidence.AcceptedDigestWasRecorded` | backend/app/blockchain/mock_client.py:60-75 | in every reachable state, what the chain accepts for a batch with a proof of the batch's depth is the payload hash of an event in its range; at any other length, what the proof then shows |
| `AnchorEvidence.FlushAlone` | backend/app/blockchain/anchor_service.py:100-199 | one successful forced flush anchors min(waiting, 4 * batch_size) events and puts exactly one ANCHOR_COMMITTED event back |
| `AnchorEvidence.Drain` | backend/app/blockchain/anchor_service.py:105 | i rounds anchor at least the first min(n, i * 4 * batch_size) of n waiting events whatever arrives in between; without arrivals the frontier is exact, so ceil(n/L) flushes are needed and suffice, and the queue is never empty afterwards |
| `TitleVerification.AnchorIsOfNewest` | backend/app/routers/verify.py:52-98 | with anchored events a prefix, the lookup with its fallback gives the batch of the newest matching event and never an anchor that the title's own event does not have yet |
| `TitleVerification.TitleIsValidOnceAnchored` | backend/app/routers/verify.py:126-208 | in every reachable state the online check answers PENDING_ANCHOR until the newest matching event is anchored, and valid from then on; the batch shown is that of the newest match, the one proved that of the first |
| `TitleVerification.ValidIsAboutTheTitleIff` | backend/app/routers/verify.py:126-208 | a valid answer proves an event of the title itself exactly when its number matches a row, otherwise the first event of the parcel; it shows the batch it proves exactly when first and newest match were anchored together |
| `TitleVerification.OtherTitleIsProved` | backend/app/routers/verify.py:76-91 | a run in which the check of a title that was never recorded is valid, proves the issuance of one other title, and shows the batch of a second other one |
| `TitleLookup.RecordedTitleIsNamed` | backend/app/routers/verify.py:67-73 | however a run goes on, the TITLE_ISSUED row that was recorded in it is found under its title number |
| `TitleLookup.RecordedTitleIsChecked` | backend/app/routers/verify.py:126-208 | the check of a title whose event was recorded is pending or valid, and when valid it proves an event that names this very title |
| `AnchorService.AnchorService.LastAnchorTs` | backend/app/blockchain/anchor_service.py:52-59 | the latest `anchored_at` of any anchor row, 0 when there is none |
| `AnchorService.AnchorService.BeginFlush` | backend/app/blockchain/anchor_service.py:100-163 | the first half takes the protocol's step, refused exactly when the shared breaker refuses, and returns its reply; its two roots are the SHA-256 and the Keccak root of the same leaves |
| `AnchorService.AnchorService.FinishCommitted` | backend/app/blockchain/anchor_service.py:173-198 | the second half keeps the receipt in the anchor row, takes the protocol's step, closes the breaker, and leaves other districts' rows alone |
| `AnchorService.AnchorService.FinishFailed` | backend/app/blockchain/anchor_service.py:164-171 | the failing half marks the row FAILED and counts against the breaker, and changes nothing else |
| `AnchorService.AnchorService.BuildProofForEvent` | backend/app/blockchain/anchor_service.py:202-233 | the proof of the specification, absent for an unanchored event |
| `AnchorService.ServiceProofsAreAccepted` | backend/app/blockchain/anchor_service.py:202-233 | whatever a service has been through, its history is a run, so the proofs it builds are accepted by its chain |
| `AnchorService.MockBlockchainClient.CommitBatch` | backend/app/blockchain/mock_client.py:27-58 | stores the root under the batch id, counts the block, and derives the transaction hash from the inputs |
| `AnchorService.MockBlockchainClient.VerifyProof` | backend/app/blockchain/mock_client.py:60-75 | false for an unknown batch, otherwise the sorted-pair verdict against the stored root |
| `Authority.ForbiddenIff` | backend/app/auth/dependencies.py:102-115 | a request is refused, and then changes nothing, exactly for the roles that do not have it, listed role by role |
| `Effects.AppealsAreCaused` | backend/app/routers/fraud.py:394-518 | an appeal is entered as its appellant filed it, and changes once: an OPEN one, by an AUDITOR, REGISTRAR or ADMIN, to UPHELD or DENIED as that user said |
| `Effects.DisputesAreCaused` | backend/app/routers/disputes.py:40-185 | a dispute is entered as its claimant filed it or by an affirmation that freezes; only its state changes, to UNDER_REVIEW by a LAND_OFFICER, REGISTRAR or ADMIN, otherwise as a REGISTRAR or ADMIN decided |
| `Effects.ReviewsAreCaused` | backend/app/routers/fraud.py:226-343 | a review is entered by scoring, waiting; it is affirmed or dismissed once, in the name of the LAND_OFFICER, REGISTRAR or ADMIN who does it, and escalated once, after more than a day |
| `Effects.TransfersAreCaused` | backend/app/routers/transfers.py:38-194 | a transfer is entered as requested, from the named seller or else the current owner to the named buyer, and never on a FROZEN or DISPUTED parcel; it is only completed or rejected, by a LAND_OFFICER, REGISTRAR or ADMIN |
| `Effects.ParcelsAreCaused` | backend/app/routers/fraud.py:244-292 | whatever happens to a parcel is a registration, a title, a completed transfer, a freeze, a custodial dispute, an upheld appeal or the end of a dispute, each by its roles, on its condition, with its result |
| `Effects.TitlesAndOwnersAreCaused` | backend/app/routers/titles.py:79-149 | titles are only added, by a REGISTRAR or ADMIN, for a parcel that is not held and under a number that is free; owners are entered unverified, and KYC is what the check said |
| `Effects.OkMeansDone` | backend/app/routers/fraud.py:226-518 | every Ok has had its effect on the tables, and any other reply none, but for the score of an approval and what a failing affirmation has committed |
| `Effects.GoesThroughIff` | backend/app/routers/transfers.py:38-99 | a request other than an approval goes through exactly when its role has it, the rows it names are there and in a state it starts from, and its inserts break no key; a refusal names one of these reasons |
| `Effects.HeldParcelsStartNothing` | backend/app/routers/transfers.py:46-60 | no transfer is entered and no title issued on a FROZEN or DISPUTED parcel |
| `Effects.OkIsTold` | backend/app/routers/fraud.py:290-307 | a request that goes through adds exactly one event, its own, to its district's ledger, if the append does not fail; any other adds none |
| `Effects.ActingIsTold` | backend/app/fraud/worker.py:133-196 | acting on a score logs FRAUD_REVIEW_QUEUED once for the transfer's district, and raises exactly when the review id is taken and no review of this version waits |
| `Effects.EscalatedIff` | backend/app/jobs/escalation.py:28-90 | an escalation run stamps a review exactly when it waits, was not stamped before and is more than a day old |
| `Alerts.ReviewsSayWhatScoresSay` | backend/app/fraud/worker.py:93-130 | in every reachable state a review recommends what a score of its transfer and version recommends, and no two of them wait for the same transfer and version |
| `Alerts.FrozenWasScoredBlock` | backend/app/routers/fraud.py:244-292 | in every reachable state a frozen parcel has a transfer with a score of BLOCK: a FLAG never leads to a freeze |
| `RegistryFrames.StepIsFramed` | backend/app/routers/fraud.py:226-307 | which tables each kind of request or job may write |
| `RegistryFrames.StepKeeps` | backend/app/routers/fraud.py:226-343 | no step undoes a decision about a review, or moves a transfer to another parcel, seller or buyer |
| `RegistryFrames.MachineNeverDecides` | backend/app/jobs/escalation.py:28-90 | scoring, outbox sweeps, escalation and scorer upgrades change no parcel, title, transfer, dispute or appeal and no review's state; reviews they add wait for a human |
| `Custody.OnlyAffirmingFreezes` | backend/app/routers/fraud.py:226-292 | a parcel becomes FROZEN exactly when a LAND_OFFICER, REGISTRAR or ADMIN affirms a pending BLOCK review of a transfer of it, and the step is not rolled back |
| `Custody.FrozenWasAffirmed` | backend/app/routers/fraud.py:226-292 | in every reachable state a frozen parcel has an affirmed BLOCK review that names its reviewer |
| `Custody.ReleasedIff` | backend/app/routers/fraud.py:480-500 | in every reachable state a frozen parcel is released exactly by the end of any dispute about it, an upheld open appeal about a transfer of it, a further custodial dispute, or the approval of a transfer of it for which the gate opens |
| `Custody.FileStaysContestable` | backend/app/routers/disputes.py:71-75 | a filed custodial dispute is itself the open dispute that its DISPUTED parcel needs |
| `Custody.DecisionIsContestable` | backend/app/routers/disputes.py:134-183 | a dispute is closed only together with the release of its parcel, and reopened at will |
| `Witnesses.FrozenParcelIsSold` | backend/app/routers/transfers.py:137-164 | a run in which a parcel with an affirmed BLOCK and an open FRAUD dispute is FROZEN and is then sold through a second transfer |
| `Witnesses.DecisionGoesThroughIff` | backend/app/routers/fraud.py:463-518 | an appeal is decided exactly when the role allows it, the appeal exists and is OPEN |
| `Witnesses.DecisionIgnoresReviews` | backend/app/routers/fraud.py:474-505 | with any other reviews, reviewers included, the decision does the same |
| `Witnesses.OfficerDecidesOwnAppeal` | backend/app/routers/fraud.py:463-500 | a run in which one registrar affirms a review and upholds the appeal that names it |
| `Witnesses.UncodedDistrictIsRefused` | backend/app/routers/titles.py:111-131 | a run after which district 6 cannot issue its first title of the year because district 5 has issued one |
| `Custody.StepContestableIff` | backend/app/routers/disputes.py:71-75 | a step keeps "FROZEN has an open FRAUD dispute, DISPUTED an open FRAUD, OVERLAP or OWNERSHIP one" exactly when it is not a freeze whose dispute cannot be inserted |
| `Custody.RunContestableIff` | backend/app/routers/fraud.py:244-292 | over whole runs every state has that property exactly when no step freezes alone |
| `Custody.TransactionsAreContestable` | backend/app/database.py:42-75 | with transactions that roll back it is unconditional |
| `Custody.UnlistedReviewerFreezesAlone` | backend/app/database.py:30-39 | on the autocommitting SQLite connection, a run in which a reviewer who is no registered owner leaves a parcel FROZEN and no dispute at all |
| `Gate.PersistAppends` | backend/app/fraud/scorer.py:118-143 | scores of a transfer are only ever added, in version order: the REPLACE never replaces, and the latest score is the new one |
| `Gate.GateReply` | backend/app/routers/transfers.py:126-152 | every reply of the gate: cleared at the current version passes, blocked conflicts and changes nothing, a scorer that raises raises, 404 only for an unknown transfer, 503 never |
| `Gate.ApprovedIffGateOpens` | backend/app/routers/transfers.py:137-152 | an approval goes through exactly for a known transfer with a current score that does not block, or with none and a scorer that now gives one and can act on it |
| `Gate.OnlyTheGateCompletes` | backend/app/routers/transfers.py:137-164 | a transfer becomes COMPLETED only in `approve_transfer`, by a permitted role, with a current-version score that is not BLOCK |
| `Gate.NothingCompletesBlind` | backend/app/routers/transfers.py:137-164 | in every reachable state a completed transfer carries a score that does not block it |
| `Gate.CompletedWasCleared` | backend/app/routers/transfers.py:137-164 | and in the state its completion left, that score was of the version then in force |
| `Gate.VerdictIsFinal` | backend/app/fraud/worker.py:210-229 | at one scorer version the scores of a transfer never change again |
| `Gate.BlockedStaysBlocked` | backend/app/routers/transfers.py:145-152 | a transfer scored BLOCK is completed by no later review, dispute, appeal, approval or job until the scorer is upgraded |
| `Outbox.AttemptEffect` | backend/app/fraud/worker.py:249-286 | one attempt: DONE means a current-version score, a raise uses up an attempt, the fifth fails the job, an earlier one waits min(300, 2^attempts) seconds |
| `Outbox.RetryTimes` | backend/app/fraud/worker.py:269-285 | a job that raises is due again 2, 4, 8 and 16 seconds later, the fifth time it has FAILED, and one that returns is never due again |
| `Outbox.BackoffIsCapped` | backend/app/fraud/worker.py:278 | the delay doubles with every attempt and stays at 300 seconds once it gets there |
| `Outbox.PicksAreFirstDue` | backend/app/fraud/worker.py:257-263 | a sweep takes the first `limit` jobs that are pending and not waiting for a later attempt, and leaves none of these out before the last one it takes |
| `Outbox.StreamScoresBehindLock` | backend/app/fraud/worker.py:168-207 | the stream consumer scores behind its lock and does nothing without it |
| `Outbox.AttemptsProgress` | backend/app/fraud/worker.py:249-286 | the sweep keeps the outbox in order, touches only the jobs it picked, and uses up at least one attempt per pick |
| `Outbox.StepKeepsOutbox` | backend/app/routers/transfers.py:90-99 | every step keeps one job per transfer; only new transfers add attempts, and a productive sweep removes some |
| `Outbox.SweepsSettle` | backend/app/fraud/worker.py:249-286 | in any run, productive sweeps are at most the attempts left at the start plus five per new transfer |
| `Outbox.ReachableOutbox` | backend/app/fraud/worker.py:232-286 | every transfer has exactly one job, PENDING has fewer than five attempts, FAILED exactly five, DONE a score that is kept; at most five productive sweeps per job |
| `Outbox.DoneWasCurrent` | backend/app/fraud/worker.py:265-267 | a DONE job belongs to a transfer scored at the version in force when the job was finished; the score is kept, and is the current one until an upgrade |
| `Outbox.DoneIsCurrent` | backend/app/fraud/worker.py:265-267 | so without an upgrade DONE means a current score |
| `Outbox.TransferKeepsOutbox` | backend/app/routers/transfers.py:73-98 | a transfer request adds exactly one job with five attempts, or nothing |
| `Outbox.WorkIsBounded` | backend/app/fraud/worker.py:249-286 | attempts left are at most five per pending job, and none are left exactly when none is pending |
| `Outbox.IdleSweepIff` | backend/app/fraud/worker.py:257-263 | a sweep picks nothing exactly when it may not or nothing is due; once every backoff has passed that means that no job is pending |
| `Ownership.StepMovesOrNot` | backend/app/routers/transfers.py:153-171 | every step either moves one parcel's ownership together with its ledger event, or moves none and logs no ownership event |
| `Ownership.StepRebuiltIff` | backend/app/routers/transfers.py:153-171 | a step keeps "owner = replay of the district's ledger" exactly when it does not drop the event of an ownership change |
| `Ownership.RegisteredIsRebuilt` | backend/app/routers/parcels.py:39-90 | a newly registered parcel has no past in any ledger: the replay gives the owner it was registered with |
| `Ownership.OwnerIsReplayIff` | backend/app/routers/titles.py:131-149 | over whole runs the current owner is the fold of TITLE_ISSUED and TRANSFER_COMPLETED events from the registered owner, exactly when no such append was lost |
| `Ownership.LoggedRunsReplay` | backend/app/routers/titles.py:131-149 | in particular whenever every append succeeds |
| `Titles.NextNumberTakenIff` | backend/app/util/ids.py:50-54 | in every reachable state the next title number is free unless the district has no code of its own and another such district has used that number that year |
| `Titles.NumberInParts` | backend/app/util/ids.py:50-54 | a title number is the district's code, one more than the number of its titles, and the year |
| `TitleNumbers.PrintedApart` | backend/app/util/ids.py:50-54 | two title numbers with codes of the same length print alike only if they are the same |
| `TitleNumbers.PrintedIsPlain` | backend/app/util/ids.py:50-54 | a printed title number is plain text, so that the lookup of a title finds its event |
| `TitleNumbers.NoTwoPrintAlike` | backend/app/routers/titles.py:111-131 | in every reachable state different titles have different printed numbers |
| `RegistryService.Database.Serve` | backend/app/auth/models.py:63-66 | checks the role, runs the handler or job and records the call: the tables stay those that the history of calls makes of empty ones |
| `RegistryService.DatabaseCustody` | backend/app/routers/fraud.py:226-307 | of every database: a frozen parcel was affirmed by a named reviewer, and can be contested unless a freeze stood alone |
| `RegistryService.DatabaseScoring` | backend/app/fraud/worker.py:232-286 | of every database: nothing was completed without a score that does not block, and every transfer has one job in order |
| `RegistryService.DatabaseOwnership` | backend/app/routers/titles.py:131-149 | of every database: the owner is the replay of the ledger unless the append of an ownership change was lost |
| `RegistryService.Database.ApproveTransfer` | backend/app/routers/transfers.py:126-172 | the gate with its nested calls, then transfer, owner and status with TRANSFER_COMPLETED |
| `RegistryService.Database.LatestScore` | backend/app/fraud/scorer.py:146-162 | the loop finds the row with the greatest time, the later one on a tie |
| `RegistryService.Database.ScoreNow` | backend/app/fraud/worker.py:210-229 | a current score is returned unchanged; otherwise score, persist, act, with a raise possible at each point |
| `RegistryService.Database.AttemptJob` | backend/app/fraud/worker.py:265-285 | one turn of the sweep, every branch of the outcome; the other jobs stay |
| `RegistryService.Database.SweepScoringOutbox` | backend/app/fraud/worker.py:249-286 | the loop over the due jobs picked at its start; the count returned is that of the picked jobs that ended DONE |
| `RegistryService.Database.EscalatePending` | backend/app/jobs/escalation.py:28-90 | stamps exactly the listed overdue reviews and counts them |
| `RegistryService.Database.AffirmReview` | backend/app/routers/fraud.py:226-307 | the review, the freeze and the FRAUD dispute, including what a failing insert leaves behind |
| `Breaker.ClosedIffFewFailures` | backend/app/resilience.py:80-110 | in every reachable state CLOSED holds exactly when failures < threshold, for every threshold of at least one and only for those |
| `Breaker.TimeoutIsBackoff` | backend/app/resilience.py:89-98 | the current timeout is initial for no failed probe since the last close and min(initial * 2^k, max) for k of them |
| `Breaker.CapHoldsIff` | backend/app/resilience.py:47-58 | that formula also covers k = 0 exactly when initial <= max |
| `Breaker.ProbesAreSpaced` | backend/app/resilience.py:70-133 | the n-th probe of an always failing sequential caller comes no earlier than the sum of the first n timeouts after the opening, however often it tries |
| `Breaker.HalfOpenAdmitsAll` | backend/app/resilience.py:112-116 | once half-open, any number of calls is admitted, at whatever clock readings, until the first outcome is recorded |
| `Breaker.OpensForItsTimeout` | backend/app/resilience.py:70-116 | from a failure that opens it the breaker refuses for exactly its timeout, doubled up to the cap by a failed probe; a forced opening likewise; a success ends it |
| `Breaker.ThresholdOpens` | backend/app/resilience.py:87-110 | a fresh breaker opens with exactly the failure that reaches the threshold and refuses from then on until the initial timeout is over |
| `Breaker.CircuitBreaker.Preflight` | backend/app/resilience.py:112-116 | the half-open transition, and a refusal exactly when the breaker is still OPEN |
| `Breaker.CircuitBreaker.RecordSuccess` | backend/app/resilience.py:80-85 | closes from any state and resets count and timeout |
| `Breaker.CircuitBreaker.RecordFailure` | backend/app/resilience.py:87-110 | counts, re-opens with a doubled capped timeout from HALF_OPEN, opens at the threshold |
| `Breaker.CircuitBreaker.CallSync` | backend/app/resilience.py:135-145 | preflight, then exactly one recorded outcome |
| `Breaker.CircuitBreaker.ForceOpen` | backend/app/resilience.py:147-153 | opens with the count at the threshold and keeps the timeout |
| `Breaker.CircuitBreaker.ForceClose` | backend/app/resilience.py:155-160 | closes and resets |
| `Cache.FallbackCache.Get` | backend/app/util/cache.py:51-64 | the value up to and including its expiry time; later the entry is removed |
| `Cache.FallbackCache.SetNx` | backend/app/util/cache.py:67-78 | sets exactly when there is no live entry, and says so |
| `Cache.LockIsExclusive` | backend/app/util/cache.py:67-78 | two grants of the same lock are more than its duration apart |
| `Cache.GrantedIff` | backend/app/util/cache.py:67-78 | a lock is granted exactly when no grant of it is younger than its duration |
| `Cache.SweepIsInvisible` | backend/app/util/cache.py:51-64 | removing an expired entry is seen by no later read |
| `NiraCache.AnswersAgreeWithNira` | backend/app/nira/cache.py:70-115 | in every reachable state of caches and breaker, an answer carries exactly what NIRA says about that NIN, or says that NIRA is unavailable; matched is never true unless NIRA said so |
| `NiraCache.FreshAnswersAreBacked` | backend/app/nira/cache.py:79-115 | an answer not marked stale comes from a live call for that very NIN, older than the TTL by at most the time between its return and the hot write |
| `NiraCache.AgeWithinTtlIff` | backend/app/nira/cache.py:112-114 | the TTL bounds the age of the call behind every hot answer exactly when the result was stored the moment it came |
| `NiraCache.FreshButOlderThanTtl` | backend/app/nira/cache.py:112-114 | a run with 5 seconds between the two, and a fresh answer that is 5 seconds too old |
| `NiraCache.ServiceAgreesWithNira` | backend/app/nira/cache.py:70-115 | whatever a service has been through, its next answer agrees with NIRA |
| `NiraCache.HotUntilTtl` | backend/app/nira/cache.py:114 | a stored result answers from the hot cache exactly until its TTL is over |
| `NiraCache.SourcesInOrder` | backend/app/nira/cache.py:76-101 | the hot cache answers first, then a live call unless the breaker refuses, then the warm row whatever its age, then the unavailable answer |
| `NiraCache.ReturnedInOrder` | backend/app/nira/cache.py:90-112 | an answer is kept in the warm table and closes the breaker; an error counts against it and falls back on the warm row, or raises without one |
| `NiraCache.NiraService.VerifyLookup` | backend/app/nira/cache.py:76-101 | hot cache, then the breaker, then the warm table or the unavailable answer |
| `NiraCache.NiraService.VerifyReturned` | backend/app/nira/cache.py:102-112 | records the outcome; an answer goes to the warm table, an error falls back on it or raises |
| `NiraCache.NiraService.VerifyStore` | backend/app/nira/cache.py:113-115 | the hot write and the live answer |
| `LikeEscape.EscapeLikeValue` | backend/app/util/sql.py:22-37 | the three sequential replaces compute the per-character escape |
| `LikeEscape.ReplacesAreEscape` | backend/app/util/sql.py:34-37 | backslash first, so that no inserted backslash is escaped again |
| `LikeEscape.EscapeInjective` | backend/app/util/sql.py:25-37 | different values have different patterns |
| `LikeEscape.EscapedMatchesItself` | backend/app/util/sql.py:25-37 | as a whole pattern, an escaped value matches exactly that value, up to ASCII case |
| `LikeEscape.EscapedMatchesSubstring` | backend/app/util/sql.py:25-37 | between two `%` it matches exactly the texts the value occurs in, up to ASCII case |
| `LikeEscape.TitleLookupFinds` | backend/app/routers/verify.py:67-73 | the title lookup finds exactly the payloads with the quoted number after the field name, up to ASCII case, where the unescaped underscore of `title_no` stands for any character |

## Left out

- Solidity contracts, multi-signature execution, web3 clients, the co-sign daemon and deploy scripts: the chain is the mock client plus failures at any point.
- HTTP, JWT, Redis itself, metrics, tracing, idempotency middleware, rate limits, USSD, all user interface: I/O or library behaviour.
- The scorer's rules, features and model: it is an oracle that answers NONE, FLAG or BLOCK or raises.
- Seeding, parity report, erasure tombstones, title revocation, rescoring requests, list endpoints: no further state of the modelled kind.
- Geometry checks, tenure types, consideration, evidence and notes: carried along by the source without influencing a branch.
- Owner onboarding and KYC: two steps that add an owner and set the KYC flag; personal data and their two ledger events are not kept.
- HexText.Lower is ASCII lower-casing: other letters never occur in hexadecimal text, and a string with them is unparsable either way.
- JSON values outside the encoder's normal range: keys that are not strings, NaN and infinities, the integer digit limit; a float keeps the text that `repr` gave it.
- JsonCanonical.LoadsOfDumps: the whole of `default=str` is the text that it produced; what the text says about the object is not modelled.
- Verifier.VerifyChain: rows do not change while the walk is under way; appends between two pages are not modelled.
- Ledger.AuditLedger.Append: the lock and the event id and time stamp are not modelled; an append is one step.
- AnchorService.AnchorService.FinishCommitted: the ANCHOR_COMMITTED payload is an argument and not built from the batch and its receipt.
- AnchorProtocol.RunKeepsInv: one district; others touch other rows, other batch ids, and the same chain map under those ids.
- AnchorProtocol.BeginKeepsInv: in the runs of one district a refusal is an argument, since other districts drive the same breaker.
- TitleVerification.TitleIsValidOnceAnchored: the two patterns are predicates on the district's rows, and where the query has no order the (tenant_id, seq) index gives one; the bundle mode is the chain's verdict alone.
- TsMerkle.HexToBytes32Js: strings are code points, while `padStart` and `slice` count UTF-16 units; a string that this distinguishes has a character beyond U+FFFF among those that count, so it is not hexadecimal text for either copy.
- RegistryService.Database.SweepScoringOutbox: one clock reading for the whole sweep, and one ledger outcome for all its events; jobs are ordered by insertion where `created_at` ties.
- Gate.PersistAppends: of two scores with the same time stamp the later row counts as the latest.
- Gate.BlockedStaysBlocked: scorer versions only grow and the clock never goes back; several processes that interleave inside one handler are not modelled.
- NiraCache.AnswersAgreeWithNira: cache entries hold the result, not its JSON text; NIRA is a function of the NIN while it is reachable.
- Breaker.CircuitBreaker.CallSync: the asynchronous variant differs only in that other calls run before the outcome, which the event runs of `Breaker.Run` cover.
- LikeEscape.EscapedMatchesItself: SQLite's default LIKE; a database with case-sensitive LIKE would need equality instead.
- The offline script: its verifier is the Python text again, so `EvmMerkle` stands for it.
