# Verification of the knowledge fabric's integrity core

A Dafny model of the parts of the repository that its guarantees rest on, and proofs about them.
`dafny verify dfyconfig.toml` checks the whole project.

## What is modelled

| area | files | what is proved |
|---|---|---|
| Canonical bytes | `Canonical`, `CanonicalParser`, `CanonicalFaithful`, `CanonicalRefusals`, `Utf8`, `Digests` | The printer is faithful: a reference parser undoes it, and reads no shorter spelling of a text, so two accepted values share bytes exactly when they are one JSON value. What is refused, and where, is what comes first. Tagged digests separate tags, fields and untagged values. |
| Audit chain | `AuditChain`, `HashedText` | `verifyChain` accepts exactly the linked chains whose format moves from v1 to v2 at most once, and names the first fault of any other; the last digest pins the whole history and its length. What is hashed is written out byte for byte. |
| Checkpoint tree | `Merkle`, `MerkleBinding`, `Checkpoint`, `HashedRecords` | The level-by-level root and proofs are those of sections 2.1 and 2.1.1 of RFC 6962; roots pin entry lists; an accepted proof of an entry is that entry's own audit path; a checkpoint pins its events and, over verified chains, their formats. |
| Urgent pushes | `UrgentState`, `InstantText`, `UrgentNumbers`, `UrgentPush`, `UrgentPushSafety`, `UrgentPushRuns`, `UrgentPushAccount` | The state file reads back what was saved; comparing its instants as text is comparing them in time exactly under a stated condition; at most one push per person and item over any sequence of completed runs, from any state; no item is passed over; over sequences of runs and crashes, exactly which told items can be told again; the query's start hides nothing, and an item still returned is settled within twelve runs. |
| Master-record currency | `MemberDigests`, `CorpusDigests`, `HashedRecords`, `MasterRecordCurrency`, `Neighbourhood` | Digests pin members and corpora; exactly the members of records the reader may be shown are permitted; the answer from the record of writes refines the whole comparison, stale digest included; the bounded walk reaches exactly the relations within its distance. |
| Embedding queue | `EmbeddingPass`, `EmbeddingLease` | The shared variables are what the events so far say; conservation and a bound on failures over every interleaving of a pass, reached for every number of consumers and limit; leases keep one waiting client per record exactly when they cover the wait and the request; they keep one request per record at the engine, and the vectors of records that left the queue up to date, exactly when, besides, the engine stops with its client. |
| Outbox | `Outbox` | Effects and delivery marks stay in step under parallel drains, failures and crashes; repeated drains deliver a deliverable row exactly when fewer than a batch of undeliverable ones stand before it. |
| Byte storage | `CompiledViewSweep`, `EvidenceSweep`, `Replication` | No interleaving of sweeps and runs leaves a recorded view without its bytes exactly when every deletion is over before its transaction can end under it; their locks cannot deadlock; an evidence sweep names every deletion it asks for exactly when it returns or left none unrecorded; replication never replaces bytes and serves only bytes of the recorded digest. |
| Conversation egress | `Egress`, `TurnOutcomes`, `TurnContext` | Whatever a browser edits, drops or relabels, a provider is sent only what may leave, through any chain of earlier answers; the router and the guard make one comparison; what one turn sends and seals is stated by the names of labels alone. |

Loops and objects keep the source's form: a method or a class, proved against a function that says
what it computes, about which the properties are then proved. Protocols are state machines whose runs
are sequences of steps; the proofs are an invariant every step keeps.

### Hashes and seals

SHA-256 is an arbitrary function to 32 bytes. It cannot be injective, so a theorem says instead that
the inputs agree or that two different byte strings, out of a stated finite set of strings the
computation really hashes, share a digest (`Hashes.CollisionAmong`). A seal is the message it was
computed over: a browser may present any seal it was given, or one that verifies against nothing.

### Contracts of the database taken as stated

- `core.urgent_pushes` returns the rows it admits after the start it is given (`UrgentPushAccount.Query`),
  in order, one per item and person (`UrgentPush.InOrder`); an item's instant is a fact about the item
  (`UrgentPushRuns.Dated`).
- `content.master_record_currency_delta` names every record the unseen writes could have moved
  (`MasterRecordCurrency.OnlyNamedMoved`); item rows are what the claim was compiled from
  (`CompiledFrom`). Where digests must tell corpora apart, identifiers, digests and labels are ASCII without
  separators (`AllPlain`).
- `content.lock_stored_key` is one exclusive lock per key. It is held to the end of the transaction, which the
  server may bring about while the program goes on (`CompiledViewSweep.Strand`), and
  `content.claim_unreferenced_compiled_view` answers under it.
- Each query of a transaction sees what is committed when it starts (packages/database/src/index.ts:263). What
  `Neighbourhood` and `MasterRecordCurrency` say of a walk, an enumeration or a look at the record of writes is
  about one state of the database, the same for all of its queries.
- The store lists no key twice in one sweep (`EvidenceSweep.ListedOnce`).
- The functions of `retrieval.embed_pending` and `for update skip locked` act atomically.

### Where the code and its comments differ

- apps/notify/src/run.ts:342 says a crash part-way repeats nobody already told. The save writes the old
  head and, for a person served in full, no cursor, so the next query owes that person again what arose
  after the old head (`OwedAgainExactly`, `CrashRepeatsWitness`). Where a cursor was kept the item may be
  told again by a later run, once a completed run has dropped the entry with the head still before the item
  (`CrashRepeatsLater`). `ToldAgainExactly` decides both: runs to come can tell an item again exactly when the
  run that told it crashed, and either had not saved its person or began with the head before the item. What a
  completed run tells is never told again, whatever state the run started from (`AtMostOnce`).
- apps/notify/src/run.ts:179 takes instants to be of one width, where text order is time order
  (`OneWidthAgrees`); apps/notify/src/run.ts:138 admits others. Text order is time order exactly unless two
  instants agree up to the seconds and one shows the other's fraction and goes on (`TextOrderExact`); half a
  second after a whole one sorts before it (`MixedWidthsMisorder`).
- apps/checkpoint/src/merkle.ts:89-95 reads neither `index` nor `treeSize`, and accepts any digest that
  is a node of the tree (`InteriorNodeAccepted`). Binding lists of any lengths needs the 0x00 prefix, so it
  is stated of entries, whose leaf hashes the callers compute. Lists of raw digests with one root can differ
  (`RawListsShareRoot`), and do exactly when their lengths do, collisions aside (`RawListsExact`).
- packages/agent/src/seal.ts:36-39 does not delimit label from text, so a seal also verifies under a
  label that swallows part of the text. Such a label is unknown and never leaves
  (`ResplitSealStaysOnHost`).
- apps/worker/src/embedding.ts:178-185 refuses a lease below twice the engine timeout. That is enough
  only while a request starts within one timeout of its claim, which nothing bounds (`LeaseExact`), and only for
  one waiting client per record. Giving up closes the client's socket and does not stop the engine, which stores
  whichever vector arrives last. So a record has two requests at the engine, and the vector of a replaced text
  can stay behind, both where a lease lapses during a request (`SlowAnswerOverwrites`) and, whatever the lease,
  where the engine stores after its client gave up (`LateStoreOverwrites`); in no other case (`EngineExact`,
  `VectorExact`).
- apps/worker/src/outbox.ts:149-151 says one bad row must not strand the batch behind it. A full batch of
  undeliverable rows does, for ever (`DeliveredExactly`).
- apps/kf-storage/src/orphans.ts:234-243 says that whichever of a sweep and a run takes a key's lock second sees
  what the first did. The sweep awaits its deletion with its transaction idle (apps/kf-storage/src/orphans.ts:284-305),
  which the server ends after 60 seconds (packages/database/src/index.ts:120), which ends with its connection or its
  process, and which ends when the call fails while a request goes on; the lock goes with it. Nothing bounds the
  deletion (packages/artifacts/src/sweep-store.ts:151-184). A run may then record a view whose bytes are deleted
  afterwards (`StrayDeletionDangles`). No interleaving does so exactly when a deletion always lands before its
  transaction's session limit and no transaction ends before that under a deletion (`DanglesExactly`); short of
  that, every interleaving in which no deletion lands after its transaction is safe (`NoDanglingReference`).
- apps/kf-storage/src/orphans.ts:197 sees references committed before it; one committed later leaves a key
  reported as collected and a reference without bytes (`LateReference`). A key whose bytes an ingest put back
  meanwhile is reported all the same (`PutBackIsReported`).
- apps/kf-storage/src/orphans.ts:206-208 throws away the report on an error other than access, and with it
  the refusals so far: a deletion that failed or went unrecorded is then named nowhere
  (`UnrecordedNamedNowhere`). Every deletion asked for is in the ledger or in a returned report exactly when
  the run returns or met no such deletion first (`NamedExactly`).

## Model

| member | source | states |
|---|---|---|
| Canonical.AssertUnicodeScalarString | packages/canonicalization/src/index.ts:57-70 | One pass accepts exactly text without an unpaired surrogate, and otherwise names the kind of the first one at the given path |
| Canonical.Serialize | packages/canonicalization/src/index.ts:72-137 | Every value kind prints the specified text or raises the specified error at the specified path, the first one met |
| Canonical.SerializeArray | packages/canonicalization/src/index.ts:108-117 | Items in order, joined by commas; an undefined item is refused at its index |
| Canonical.SerializeObject | packages/canonicalization/src/index.ts:119-136 | Keys in code-unit order, undefined values dropped, every key checked even when its value is dropped |
| CanonicalRefusals.ScalarExactly | packages/canonicalization/src/index.ts:57-70 | Text passes the check exactly when every high surrogate is followed by a low one and every low one follows a high one |
| CanonicalRefusals.RefusalExactly | packages/canonicalization/src/index.ts:72-137 | An error is raised exactly for what is refused first, items in order and properties in the order of their keys, with its own reason and path |
| HashedText.ListOfEach | packages/canonicalization/src/index.ts:72-117 | The text of a list of every kind of plain value, for any number and text: the literals, the number as written, the text quoted |
| HashedText.LetterEscapes | packages/canonicalization/src/index.ts:88-90 | The seven escapes of section 3.2.2.2 of RFC 8785 that have a letter or sign of their own |
| HashedText.OtherEscapes | packages/canonicalization/src/index.ts:88-90 | Any other control character is escaped by number, in lower-case hexadecimal, and nothing else is escaped |
| CanonicalParser.ParsePrinted | packages/canonicalization/src/index.ts:72-137 | Whatever follows a printed value, the reference parser reads back its normal form and stops where it ends |
| CanonicalParser.RoundTrip | packages/canonicalization/src/index.ts:139-142 | For every accepted value, parsing its canonical text gives the value with keys sorted and undefined properties removed |
| CanonicalParser.ShortestString | packages/canonicalization/src/index.ts:88-90 | No spelling of a text that the reference parser reads is shorter than the one printed, and one of the same length is the one printed |
| CanonicalFaithful.AcceptsExactly | packages/canonicalization/src/index.ts:72-137 | A value is accepted exactly when it is built of finite numbers, scalar strings and keys, booleans, null, arrays without undefined and objects, independently of the printer |
| CanonicalFaithful.EquivalentPrintsAlike | packages/canonicalization/src/index.ts:127-136 | Property order and dropped undefined properties never show in the text |
| CanonicalFaithful.SameNormalIsEquivalent | packages/canonicalization/src/index.ts:127-136 | The normal form loses nothing but property order and undefined properties |
| CanonicalFaithful.CanonicalTextFaithful | packages/canonicalization/src/index.ts:139-142 | Two accepted values have one canonical text exactly when they are the same JSON value |
| Texts.SortCanonical | packages/canonicalization/src/index.ts:48-51 | Sorting by code unit identifies exactly the rearrangements of one list |
| Utf8.EncodeInjective | packages/canonicalization/src/index.ts:145-147 | UTF-8 encoding is injective on text without unpaired surrogates |
| Utf8.EncodeByCharacters | packages/canonicalization/src/index.ts:144-147 | Character by character: each becomes the fewest bytes that stand for its code point under RFC 3629, an unpaired surrogate those of U+FFFD |
| Utf8.UnpairedSurrogateLost | packages/canonicalization/src/index.ts:57-70 | Without the surrogate check two texts share their bytes |
| Digests.CanonicalBytesFaithful | packages/canonicalization/src/index.ts:144-147 | Two accepted values have the same bytes exactly when they are the same JSON value |
| Digests.DigestFaithful | packages/canonicalization/src/index.ts:149-152 | Two accepted values have one digest exactly when they are one value, or their bytes collide |
| Digests.FormatTagExact | packages/canonicalization/src/index.ts:154-159 | The tags accepted are `kf`, one or more words of digits and lower-case letters, and a version, with dashes between them |
| Digests.TagVersionExact | packages/canonicalization/src/index.ts:154-159 | A version is `v` and a positive integer in decimal |
| Digests.TagWordByUnit | packages/canonicalization/src/index.ts:154-155 | A word is not empty and each of its units is one of the 36 digits and lower-case letters |
| Digests.TaggedAccepted | packages/canonicalization/src/index.ts:172-191 | There is a tagged digest exactly for an accepted tag and a canonicalizable object without a format of its own; otherwise which refusal comes first |
| Digests.TaggedDigestSeparates | packages/canonicalization/src/index.ts:172-191 | Two tagged digests agree exactly when tag and fields agree, or the preimages collide |
| Digests.TaggedNeverBare | packages/canonicalization/src/index.ts:172-191 | A tagged digest never equals that of a value without a format of its own, unless the preimages collide |
| AuditChain.LinkPreimageExact | packages/canonicalization/src/index.ts:268-287 | Two links share a preimage exactly when predecessor, format and act agree, object identifiers as a multiset; so a v1 and a v2 link never do |
| HashedText.LinkPreimageText | packages/canonicalization/src/index.ts:268-287 | Byte for byte what is hashed for a link, for every act: the predecessor, then the record with its names in order; and when an unknown format, a malformed predecessor or text is refused |
| AuditChain.SameLink | packages/canonicalization/src/index.ts:207-212 | Two links with one digest are one link or their preimages collide |
| AuditChain.VerifyChain | apps/checkpoint/src/sign/chain.ts:77-130 | The walk reports the first break in the order checked: predecessor, known format, format order, digest |
| AuditChain.VerifyChainExact | apps/checkpoint/src/sign/chain.ts:77-130 | A chain is accepted exactly when every link names its predecessor and recomputes and the formats are v1 links then v2 links |
| AuditChain.VerdictExact | apps/checkpoint/src/sign/chain.ts:77-130 | A chain is refused exactly at the first entry that fails, with that entry's sequence number, for the first of the four checks it fails |
| AuditChain.ChainPinsHistory | packages/canonicalization/src/index.ts:197-212 | Two linked chains of one length with one last digest have the same start, acts, formats and digests, or something hashed to recompute them collides |
| AuditChain.GenesisChainPinsHistory | packages/canonicalization/src/index.ts:205-212 | From genesis the length is pinned too, unless something hashed collides or hashes to 64 zeros |
| Merkle.PairUpPreservesMth | apps/checkpoint/src/merkle.ts:42-52 | One pairing pass with odd promotion preserves the recursive tree hash of RFC 6962 |
| Merkle.NextLevel | apps/checkpoint/src/merkle.ts:43-51 | The inner loop computes one pairing pass |
| Merkle.MerkleRoot | apps/checkpoint/src/merkle.ts:39-54 | The level-by-level root equals MTH of section 2.1 of RFC 6962 for every list, the empty one included |
| Merkle.PathClimbs | apps/checkpoint/src/merkle.ts:70-85 | PATH of section 2.1.1 is the sibling at the bottom followed by the parent's path one level up |
| Merkle.ProveInclusion | apps/checkpoint/src/merkle.ts:63-87 | A proof exists exactly for indices in range and is the RFC 6962 audit path with its sides |
| Merkle.PathLength | apps/checkpoint/src/merkle.ts:63-87 | A proof has at most ceil(log2 n) steps |
| Merkle.VerifyInclusion | apps/checkpoint/src/merkle.ts:89-95 | Accepts exactly when the leaf and path lead to the root |
| Merkle.PathLeadsToRoot | apps/checkpoint/src/merkle.ts:63-95 | Every proof of every leaf is accepted against the root of its tree |
| MerkleBinding.RootPinsEntries | apps/checkpoint/src/merkle.ts:25-54 | Two entry lists of any lengths with one root are one list, or something hashed collides |
| MerkleBinding.SmallRoots | apps/checkpoint/src/merkle.ts:20-54 | The roots of no entry, of one and of three written out in hashes of bytes, prefixes and promotion included |
| MerkleBinding.RawListsShareRoot | apps/checkpoint/src/merkle.ts:39-54 | Two different lists of raw digests can share a root, so binding lists of any lengths needs the leaf prefix |
| MerkleBinding.RawListsExact | apps/checkpoint/src/merkle.ts:39-54 | Two lists of raw digests with one root are one list exactly when they have one length, or two node inputs collide |
| MerkleBinding.NodesAreAccepted | apps/checkpoint/src/merkle.ts:89-95 | Every node of the tree is accepted with its own path |
| MerkleBinding.InteriorNodeAccepted | apps/checkpoint/src/merkle.ts:89-95 | A digest that is no leaf is accepted: an interior node |
| MerkleBinding.AcceptedIsNode | apps/checkpoint/src/merkle.ts:89-95 | Whatever is accepted is a node of the tree with the tree's siblings, or something collides |
| MerkleBinding.LeafNodeIsEntry | apps/checkpoint/src/merkle.ts:25-27 | A node that is an entry's leaf hash is that entry's leaf, or something collides |
| MerkleBinding.AcceptedProofIsAuditPath | apps/checkpoint/src/merkle.ts:89-95 | An accepted proof of an entry is the audit path of a place that holds it, or something collides |
| MerkleBinding.AuditPathAccepted | apps/checkpoint/src/merkle.ts:63-95 | Every entry's audit path is accepted against the root over the entries |
| Checkpoint.LeafBytesInjective | apps/checkpoint/src/sign/chain.ts:50-68 | Version 3 leaf bytes determine the event in every field but the recorded link format |
| HashedRecords.LeafBytesText | apps/checkpoint/src/sign/chain.ts:50-68 | Byte for byte what a version 3 leaf commits to, and exactly which events have one |
| Checkpoint.CheckpointPinsEvents | apps/checkpoint/src/sign/checkpoint.ts:24-64 | One root means the same events in the same order, or something hashed collides |
| Checkpoint.RelabelledLinkDetected | apps/checkpoint/src/sign/chain.ts:105-125 | A row relabelled with another link format no longer recomputes, unless the preimages collide |
| Checkpoint.CheckpointPinsFormats | apps/checkpoint/src/sign/chain.ts:71-130 | Over verified chains one root pins the recorded formats as well |
| InstantText.TextOrderExact | apps/notify/src/run.ts:138-183 | Of two accepted instants that name times, comparing the texts is comparing the times exactly unless they agree up to the seconds and one shows the other's fraction and goes on |
| InstantText.OneWidthAgrees | apps/notify/src/run.ts:179-194 | At one width, that of the database's own texts included, comparing texts is comparing times |
| InstantText.MicrosExactly | apps/notify/src/run.ts:138-138 | The time an accepted text names is its whole seconds and its fraction at the place of its digits |
| InstantText.DaysBeforeEachYear | apps/notify/src/run.ts:178-194 | The days before a year are those of the Gregorian calendar, by how many earlier years divide by 4, 100 and 400 |
| InstantText.DaysBeforeEachMonth | apps/notify/src/run.ts:178-194 | The days of a year before each of its months |
| InstantText.RealDates | apps/notify/src/run.ts:178-194 | The dates and clocks that name a time: the length of each month, February by leap year, and the hours, minutes and seconds of a day |
| InstantText.UnixEpoch | apps/notify/src/run.ts:178-194 | Seconds are counted so that Unix time begins where the calendar puts it |
| InstantText.UnixLeapDay | apps/notify/src/run.ts:178-194 | A leap day in this century falls where Unix time has it |
| InstantText.MixedWidthsMisorder | apps/notify/src/run.ts:138-138 | Two accepted instants half a second apart, the later one sorted first |
| UrgentState.ParseLagging | apps/notify/src/run.ts:162-171 | Every entry is read, or the whole map is refused |
| UrgentState.AtomsByUnit | apps/notify/src/run.ts:138-140 | The three classes of the patterns unit by unit: digits, the letters a to f, the dash |
| UrgentState.ParseUrgentState | apps/notify/src/run.ts:154-177 | Accepts a bare instant, else a JSON value with a well-formed head and lagging map, and nothing else |
| UrgentState.SavedReadsBack | apps/notify/src/run.ts:213-218 | A saved state reads back as it was |
| UrgentState.ReadIsValid | apps/notify/src/run.ts:138-177 | Whatever is read has well-formed instants, identifiers and keys |
| UrgentState.ReadExactly | apps/notify/src/run.ts:142-177 | Exactly which files give which state, by the names of their fields; anything else is refused |
| UrgentState.SavedFields | apps/notify/src/run.ts:213-218 | Exactly what is written: the head's fields by name, and the lagging map unless nobody lags |
| UrgentState.InstantForm | apps/notify/src/run.ts:138-138 | The instants accepted, unit by unit: to seconds, then nothing or a point and one to six digits, then `Z` |
| UrgentState.UuidForm | apps/notify/src/run.ts:139-139 | The identifiers accepted, unit by unit |
| UrgentState.LaggingKeyForm | apps/notify/src/run.ts:140-140 | The keys of the lagging map accepted, unit by unit |
| UrgentNumbers.OwedAgrees | apps/notify/src/run.ts:179-183 | A row is after its person's cursor by the texts compared exactly when it is by the numbers they name, unless one instant goes on where the other ends |
| UrgentNumbers.EarlierAgrees | apps/notify/src/run.ts:185-189 | The earliest boundary by texts is the earliest by numbers, a missing identifier first |
| UrgentPush.Notifier.constructor | apps/notify/src/run.ts:219-227 | The first run starts from now and nobody lags |
| UrgentPush.Notifier.Since | apps/notify/src/run.ts:185-230 | The query starts at the head or a lagging cursor, at or before everybody's effective cursor |
| UrgentPush.Notifier.CollectOwed | apps/notify/src/run.ts:263-270 | Each person is owed exactly the rows after their own cursor, people in the order first met |
| UrgentPush.ServePerson | apps/notify/src/run.ts:279-341 | One person's turn: a prefix of the owed items told, and the cursor and failure count kept, on every path |
| UrgentPush.Notifier.ServeAll | apps/notify/src/run.ts:278-344 | After each person the saved state is the old head and the lagging map so far |
| UrgentPush.Notifier.RunUrgent | apps/notify/src/run.ts:263-350 | A completed run leaves the specified next state and tells the specified rows; `HeadIsLatest`, `NothingPassedOver`, `TurnExact`, `OrderFirstMet` and `FailedCounts` say what those are |
| UrgentPushSafety.HeadIsLatest | apps/notify/src/run.ts:347-350 | The new head is at or after the old one and every row fetched, and is one of them |
| UrgentPushSafety.TurnExact | apps/notify/src/run.ts:279-340 | Which of a person's items a turn tells, whether it fails and whether anything is kept of them, by whether their last row's destination opens, a sender is set, and who the alert path reaches |
| UrgentPushSafety.OrderFirstMet | apps/notify/src/run.ts:265-278 | People are served in the order in which the first row owed to each was fetched |
| UrgentPushSafety.FailedCounts | apps/notify/src/run.ts:303-306 | The failures reported count the people whose turn failed |
| UrgentPushSafety.ToldIsBehind | apps/notify/src/run.ts:288-315 | What is told is at or before its person's cursor afterwards |
| UrgentPushSafety.CursorPastHead | apps/notify/src/run.ts:304-350 | From any state, a completed run leaves a lagging cursor past the head exactly when it was past the new head before and the run told that person nothing; from a state without such cursors it leaves none |
| UrgentPushRuns.CursorMovesBackExactly | apps/notify/src/run.ts:265-350 | Over any run or crash, from any state, a person's effective cursor moves back exactly when nothing is kept for them and the head saved is before where they were |
| UrgentPushRuns.RepeatableExactly | apps/notify/src/run.ts:179-183 | Some runs to come can tell an item exactly when it is after the head or after its person's cursor |
| UrgentPushRuns.ToldAgainExactly | apps/notify/src/run.ts:342-350 | What a step told can be told again by runs to come exactly when the step crashed, and either had not saved the person or began with the head before the item |
| UrgentPushRuns.OwedAgainExactly | apps/notify/src/run.ts:342-343 | The next query owes again what an interrupted turn had sent, and what the save kept no cursor for and is after the old head, and nothing else |
| UrgentPushRuns.CrashRepeatsWitness | apps/notify/src/run.ts:342-343 | A run and a crash point after which the next query owes a delivered item again |
| UrgentPushRuns.CrashRepeatsLater | apps/notify/src/run.ts:342-350 | A crash after which the next query does not owe a delivered item, and two completed runs that then tell it again |
| UrgentPushRuns.TwiceNeedsUnsettled | apps/notify/src/run.ts:127-136 | Over any sequence of runs and crashes an item is told twice only after a crash that had not saved the person, or of a run that began with the head before the item |
| UrgentPushRuns.AtMostOnce | apps/notify/src/run.ts:127-136 | Over any sequence of completed runs from any state, with arbitrary rows, failures and destinations, nobody is told of one item twice |
| UrgentPushRuns.NothingPassedOver | apps/notify/src/run.ts:265-350 | Over any sequence of runs and crashes no item is passed over: what came after everything fetched is still ahead of its person, and a run that fetches it owes it |
| UrgentPushRuns.DuplicateRowToldTwice | apps/notify/src/run.ts:263-270 | One row per item and person is needed: a repeated row is told twice in one run |
| UrgentPushAccount.EveryRowAccounted | apps/notify/src/run.ts:265-350 | Each fetched row is settled, told, kept after its person's cursor below twelve failures, given up at twelve, or without a push path |
| UrgentPushAccount.SinceReaches | apps/notify/src/run.ts:228-230 | The query's start lets through exactly what is after the head or after a lagging cursor |
| UrgentPushAccount.QueryHidesNothing | apps/notify/src/run.ts:228-262 | A run that queries from that start tells and leaves what it would after reading everything the database admits |
| UrgentPushAccount.SettledWithinTwelve | apps/notify/src/run.ts:265-350 | An owed item that run after run fetches is told, given up or found without a push path within twelve runs less the failures recorded, and is owed until then |
| UrgentPushAccount.FailuresAreStreak | apps/notify/src/run.ts:304-313 | Over runs and crashes the recorded failures of a person are their failed saved turns in a row, and stay below twelve |
| UrgentPushAccount.GivenUpOnTwelfth | apps/notify/src/run.ts:110-116 | Items are given up only on the twelfth failed turn in a row |
| MemberDigests.MemberDigestExact | packages/documents/src/master-record.ts:151-173 | Two member digests agree exactly when format, every envelope field, row version and payload agree, or the preimages collide |
| MemberDigests.FormatsSeparate | packages/documents/src/master-record.ts:165-172 | The two formats never share a digest, unless the preimages collide |
| MemberDigests.FormatsByName | packages/documents/src/master-record.ts:98-112 | Which manifest formats digest members under which member format, by name; any other is refused |
| HashedRecords.MemberPreimageText | packages/documents/src/master-record.ts:151-173 | Byte for byte what is hashed for a member under each format, and exactly which envelopes are accepted |
| CorpusDigests.SheetExact | packages/documents/src/master-record.ts:264-283 | The digested text determines the multiset of members and states, and is determined by it |
| CorpusDigests.CorpusDigestOrderFree | packages/documents/src/master-record.ts:269-283 | The corpus digest does not depend on member order |
| CorpusDigests.CorpusDigestExact | packages/documents/src/master-record.ts:269-283 | Two corpora agree on it exactly when their members and states agree as multisets, or their texts collide |
| CorpusDigests.LineText | packages/documents/src/master-record.ts:276-278 | A member's line, unit by unit |
| CorpusDigests.SheetText | packages/documents/src/master-record.ts:264-283 | What is digested: the lines of all members in ascending order, with line feeds between them |
| MasterRecordCurrency.RestrictedIsAmong | packages/documents/src/master-record-repository.ts:193-219 | Enumerating only some records gives exactly those of the whole enumeration |
| MasterRecordCurrency.PermittedExactly | packages/documents/src/master-record-repository.ts:193-219 | The enumeration holds a member exactly when it is that of a record the reader sees, a grant covers and nothing excludes or holds, of those asked for |
| MasterRecordCurrency.EnumerateFails | packages/documents/src/master-record-repository.ts:193-219 | The enumeration fails exactly when a record the reader sees, of those asked for, cannot be digested |
| MasterRecordCurrency.InvariantExact | packages/documents/src/master-record.ts:335-356 | The invariant passes exactly for the permitted members, classification included, or the corpus texts collide |
| MasterRecordCurrency.ViolationExactly | packages/documents/src/master-record.ts:297-356 | What is thrown: over-disclosure with exactly the keys that are not permitted, before under-disclosure with exactly those left out, before a digest that moved |
| MasterRecordCurrency.KeyText | packages/documents/src/master-record.ts:233-234 | A member key, unit by unit |
| MasterRecordCurrency.KeysAgreeAmong | packages/documents/src/master-record-reading.ts:242-252 | When every member key agrees, the named records are as the claim holds them |
| MasterRecordCurrency.AmongRearranged | packages/documents/src/master-record-reading.ts:248-252 | Named records whose digests the claim holds, as many as it holds, are its members, or digests collide |
| MasterRecordCurrency.FastAnswer | packages/documents/src/master-record-reading.ts:108-217 | What is answered when there is a record of writes, in terms of the permitted set and the item rows, whether they reproduce the claim or not |
| MasterRecordCurrency.OtherAnswers | packages/documents/src/master-record-reading.ts:108-143 | Without a record of writes the whole comparison answers; a manifest format nobody knows is refused |
| MasterRecordCurrency.CompareExactly | packages/documents/src/master-record-reading.ts:131-173 | The whole comparison, by the item rows or by the manifest: current exactly when no key is on one side alone and the digest is the recorded one; otherwise stale with the digest of the permitted set |
| MasterRecordCurrency.RecordRefinesComparison | packages/documents/src/master-record-reading.ts:95-173 | When only named records moved and the item rows reproduce the claim: current by comparison implies current by record; stale by record is stale by comparison with the same digest; current by record is current by comparison, or member digests collide |
| MasterRecordCurrency.CurrentIsPermitted | packages/documents/src/master-record-reading.ts:131-173 | No answer of the whole comparison holds as current a member whose key no record the reader may be shown has |
| Neighbourhood.Level | packages/documents/src/master-record-reading.ts:441-470 | One level records each row the frontier touches and collects each new end once |
| Neighbourhood.EnumerateNeighbourhoodGraph | packages/documents/src/master-record-reading.ts:429-473 | Exactly the live relations with an end closer than maxDepth, each under its id; every such node expanded, none twice |
| Neighbourhood.BallIsDistance | packages/documents/src/master-record-reading.ts:422-428 | The levels of the walk are undirected distances |
| Neighbourhood.BallSettles | packages/documents/src/master-record-reading.ts:440-440 | Stopping at an empty frontier loses nothing |
| Neighbourhood.CrossedByWalks | packages/documents/src/master-record-reading.ts:422-428 | A relation is returned exactly when a walk of fewer than maxDepth hops reaches one of its ends |
| EmbeddingPass.Pass.constructor | apps/worker/src/embedding.ts:207-211 | A pass starts with nothing claimed |
| EmbeddingPass.Pass.Consume | apps/worker/src/embedding.ts:232-241 | The head of the loop: ended, asked to stop, too many failures, else claim |
| EmbeddingPass.Pass.AfterClaim | apps/worker/src/embedding.ts:242-250 | A claimed record, nothing claimable, or a claim that threw and ends the pass |
| EmbeddingPass.Pass.AfterWrite | apps/worker/src/embedding.ts:251-267 | The engine's answer completes or counts a failure |
| EmbeddingPass.Pass.AfterCompletion | apps/worker/src/embedding.ts:268-277 | A completion resets the failures and counts; one that throws is a failure |
| EmbeddingPass.Pass.AfterFail | apps/worker/src/embedding.ts:213-229 | A counted failure is listed with its outcome, `retry` when it could not be counted |
| EmbeddingPass.PassAccounts | apps/worker/src/embedding.ts:207-293 | Under every interleaving claimed is embedded plus failed plus in flight, at most N in flight, and a pass that ends as empty found nothing claimable at every consumer |
| EmbeddingPass.TraceExact | apps/worker/src/embedding.ts:207-293 | At every point of every interleaving the shared variables are what the events so far say: claims, embeddings, failures since the last success, what ended the pass, each failed attempt with its record, reason and outcome, and where each consumer is |
| EmbeddingPass.EndedClaimsNoMore | apps/worker/src/embedding.ts:232-241 | Once a pass has ended, it stays ended as it was and only claims already asked for are still answered |
| EmbeddingPass.FailureRunsBounded | apps/worker/src/embedding.ts:238-241 | No run of failures without a success exceeds failureLimit + N − 1 |
| EmbeddingPass.Pump.AfterPass | apps/worker/src/embedding.ts:356-391 | After n failing passes in a row the wait is the first one doubled n times, up to the most; a pass that did not fail resets it |
| EmbeddingPass.BackoffDoubles | apps/worker/src/embedding.ts:362-366 | Doubling a wait already cut off is cutting off the doubled one |
| EmbeddingPass.BackoffIs | apps/worker/src/embedding.ts:356-391 | The wait is the first one as given, then 2^n times it or the most, whichever is less |
| EmbeddingPass.BoundReached | apps/worker/src/embedding.ts:238-241 | For every number of consumers and every limit some run has failureLimit + N − 1 failures in a row, each on a record of its own |
| EmbeddingLease.NoTwoInFlight | apps/worker/src/embedding.ts:178-185 | While leases cover waits and requests, no record has two clients waiting for the engine |
| EmbeddingLease.SlowConsumerOvertaken | apps/worker/src/embedding.ts:17-22 | When they do not, a slow consumer and a second one embed one record at once |
| EmbeddingLease.LeaseExact | apps/worker/src/embedding.ts:178-185 | No interleaving has two clients waiting for the engine on one record exactly when the wait before a request plus its timeout is within the lease |
| EmbeddingLease.ClaimTakes | database/migrations/20261007500000_the_embedding_pump_retries_and_records.sql:105-131 | Who may claim what, exactly, and what a claim leaves: a lease from now, of the text as last re-indexed, and nothing marked |
| EmbeddingLease.FailureLeaves | database/migrations/20261007500000_the_embedding_pump_retries_and_records.sql:202-229 | A failure gives the record up for good at the last attempt allowed, and otherwise makes it claimable exactly once its wait is over; a text that moved meanwhile is not counted and claimable at once |
| EmbeddingLease.BackoffDoubles | database/migrations/20261007500000_the_embedding_pump_retries_and_records.sql:223-227 | The wait is the base after the first failure and doubles with each one after it, up to an hour |
| EmbeddingLease.GivenUpExactly | database/migrations/20261007500000_the_embedding_pump_retries_and_records.sql:215-222 | However its failures are spaced, a record is given up exactly at the last attempt allowed |
| EmbeddingLease.EnqueuedAgain | database/migrations/20261007500000_the_embedding_pump_retries_and_records.sql:70-85 | Enqueued again, a live claim is kept and marked, anything else claimable at once, and the attempts start over |
| EmbeddingLease.CompletionLeaves | database/migrations/20261007500000_the_embedding_pump_retries_and_records.sql:149-163 | A completed record leaves the queue, unless its text moved meanwhile |
| EmbeddingLease.AcceptedLeaseIsSafe | apps/worker/src/embedding.ts:178-185 | While requests start within one timeout of their claim, a lease the pump accepts is enough for one waiting client per record, and for one request at the engine and current vectors exactly when the engine stops with its client |
| EmbeddingLease.AcceptedExactly | apps/worker/src/embedding.ts:178-185 | The leases accepted are exactly those under which no record has two waiting clients for any wait of at most one engine timeout |
| EmbeddingLease.EngineExact | apps/worker/src/embedding.ts:178-185 | No interleaving has the engine at two requests for one record exactly when leases cover waits and requests and the engine stops with its client |
| EmbeddingLease.VectorExact | database/migrations/20261007500000_the_embedding_pump_retries_and_records.sql:16-24 | Every interleaving leaves a record out of the queue, with no edit still to be queued, only with the vector of its present text, exactly when leases cover waits and requests and the engine stores nothing after its client gave up |
| EmbeddingLease.LateStoreOverwrites | packages/retrieval/src/client.ts:182-187 | Whatever the lease, an engine that stores after its client gave up leaves the old text's vector |
| EmbeddingLease.SlowAnswerOverwrites | apps/worker/src/embedding.ts:251-277 | Where they do not, an answer that comes after the lease lapsed and the text was replaced leaves the old text's vector |
| Outbox.DrainRows | apps/worker/src/outbox.ts:120-157 | The row loop leaves exactly the work of whole rows, with its counters and failures, and the unhandled topics sorted |
| Outbox.UnhandledTopics | apps/worker/src/outbox.ts:130-136 | A topic is reported as unhandled exactly when a claimed row has it and no handler |
| Outbox.Transaction.Handle | apps/worker/src/outbox.ts:137-139 | A handler leaves all its writes, or those before the one it throws at |
| Outbox.Transaction.RollbackToSavepoint | apps/worker/src/outbox.ts:146-148 | Rolling back restores what the savepoint saw |
| Outbox.WorkIsWholeRows | apps/worker/src/outbox.ts:125-155 | Of each row, all writes once and the mark, or none; every row not marked is reported as failed or unhandled |
| Outbox.WorkInOrder | apps/worker/src/outbox.ts:125-155 | Rows are marked, and reported as failed, in the order claimed, and their writes applied in that order |
| Outbox.EffectsMatchMarks | apps/worker/src/outbox.ts:98-158 | Under every interleaving of drains, failures and crashes a row's writes are applied, once, exactly when it is marked delivered, and no two drains hold one row |
| Outbox.PickTakesFirst | apps/worker/src/outbox.ts:109-118 | Beside other drains, a drain claims the first rows neither delivered nor locked |
| Outbox.BeginClaims | apps/worker/src/outbox.ts:106-118 | A drain may begin beside any others, with nothing marked and exactly those rows claimed |
| Outbox.InsertAdds | apps/worker/src/outbox.ts:109-118 | A new row may be written at any place of the order at any time, and is then free to claim |
| Outbox.CrashFrees | apps/worker/src/outbox.ts:98-158 | A crash leaves the committed state as it was and frees every row the drain had claimed |
| Outbox.CommitFrees | apps/worker/src/outbox.ts:98-158 | A commit applies and marks exactly the drain's delivered rows and frees the others |
| Outbox.EmptySound | apps/worker/src/outbox.ts:98-158 | An outbox nobody has drained is in step, so every state reached from it is |
| Outbox.AloneTakesFirst | apps/worker/src/outbox.ts:109-118 | A drain alone claims the first pending rows |
| Outbox.RemainingIsUnmarked | apps/worker/src/outbox.ts:125-155 | What is pending after a drain is, in order, the undeliverable rows it claimed and everything it did not claim |
| Outbox.DrainAlonePlayed | apps/worker/src/outbox.ts:98-158 | The row loop's work is what the steps of a drain alone reach |
| Outbox.DeliveredExactly | apps/worker/src/outbox.ts:91-118 | Drains repeated one after the other mark a deliverable row exactly when fewer undeliverable rows are pending before it than a batch holds: 100, or the size asked for within 1 and 1000 |
| CompiledViewSweep.StepKeepsLocks | apps/kf-storage/src/orphans.ts:282-305 | Every step of sweeps and runs, a transaction that ends under its deletion included, keeps locks exclusive and keys claimed in a transaction unreferenced |
| CompiledViewSweep.StepKeeps | apps/kf-storage/src/orphans.ts:282-305 | Every step, but a deletion that lands after its transaction, keeps confirmed views and references stored |
| CompiledViewSweep.VersionDeleted | apps/kf-storage/src/orphans.ts:291-297 | A deletion within its transaction touches no recorded view and none a run has read back under its locks |
| CompiledViewSweep.ReferencesAdded | apps/worker/src/compiler-runtime/postgres-repository.ts:69-82 | A run records only views it read back under locks no sweep can hold |
| CompiledViewSweep.NoDanglingReference | apps/kf-storage/src/orphans.ts:234-243 | Under every interleaving of sweeps, runs, failures and rollbacks in which no deletion lands after its transaction, every recorded view is in the store at its version, with its digest and length |
| CompiledViewSweep.DanglesExactly | apps/kf-storage/src/orphans.ts:234-305 | No interleaving leaves a recorded view without its bytes exactly when deletions land before the session limit and no transaction ends earlier under one |
| CompiledViewSweep.StrayDeletionDangles | apps/kf-storage/src/orphans.ts:284-305 | Otherwise a sweep's transaction ends, a run records the view it read back, and the deletion then lands |
| CompiledViewSweep.NoDeadlock | apps/worker/src/compiler-runtime/postgres-repository.ts:72-73 | While a run waits for a lock, some lock holder can go on |
| CompiledViewSweep.LocksKept | apps/worker/src/compiler-runtime/postgres-repository.ts:69-76 | Whole interleavings keep the locks so, stray deletions included |
| CompiledViewSweep.DeleteSurvivesRollback | apps/kf-storage/src/orphans.ts:242-243 | A rolled-back sweep leaves the bytes gone, the ledger silent, no lock held and nothing dangling |
| CompiledViewSweep.RunRecords | apps/worker/src/compiler-runtime/postgres-repository.ts:60-90 | A run that finds its view under its lock records it and releases the lock |
| CompiledViewSweep.SweepCollects | apps/kf-storage/src/orphans.ts:282-305 | A sweep left alone deletes unreferenced bytes, records the collection and releases its lock |
| EvidenceSweep.Examine | apps/kf-storage/src/orphans.ts:163-204 | One key's turn, whatever others commit or put before each call and whichever calls fail |
| EvidenceSweep.StepMeans | apps/kf-storage/src/orphans.ts:163-204 | What each verdict means of the bytes, the ledger and the last look at the references |
| EvidenceSweep.AnswersExactly | apps/kf-storage/src/orphans.ts:163-204 | When each verdict and each error is given, by the calls that fail, and what a failed deletion leaves of the bytes |
| EvidenceSweep.SweepOrphanedEvidence | apps/kf-storage/src/orphans.ts:160-213 | The loops leave the specified state and answer: a report of what was examined, or the error thrown |
| EvidenceSweep.AnswerOfEnd | apps/kf-storage/src/orphans.ts:205-213 | An error thrown is the answer; a report names a namespace exactly when its listing or a check in it was denied |
| EvidenceSweep.NamedExactly | apps/kf-storage/src/orphans.ts:175-208 | Every deletion asked for is in the ledger or in a returned report exactly when the run returns or had met no deletion that failed or went unrecorded |
| EvidenceSweep.UnrecordedNamedNowhere | apps/kf-storage/src/orphans.ts:182-208 | A run that deletes a key, fails to record it, and throws at a later one: the deletion is named nowhere |
| EvidenceSweep.RunAccounts | apps/kf-storage/src/orphans.ts:160-213 | Bytes are lost only under keys asked to be deleted; at most limit collected; of the deletions recorded, those referenced at the last look are reported and those collected were not; nothing follows a deletion that was denied; the run throws, or names a namespace, as the listings and checks that failed say; a run nothing cut short examined every key listed |
| EvidenceSweep.LateReference | apps/kf-storage/src/orphans.ts:197-204 | A reference committed after the last look dangles unreported |
| EvidenceSweep.PutBackIsReported | apps/kf-storage/src/orphans.ts:197-203 | Bytes an ingest put back and referenced meanwhile are reported though nothing is lost |
| EvidenceSweep.ReportsPartition | apps/kf-storage/src/orphans.ts:63-67 | The three parts of a report add up to what was examined |
| Replication.Accumulate | packages/artifacts/src/store.ts:99-117 | Reads the whole body, or refuses exactly when the announced or the actual size exceeds the limit |
| Replication.ConcatenatedFirst | packages/artifacts/src/store.ts:104-116 | The body is the chunks read, one after the other |
| Replication.Stores.PutIfAbsent | packages/artifacts/src/store.ts:132-165 | Answers what is stored under the key, whoever created it, replaces nothing, and fails only when a call failed or three creates were refused with nothing there |
| Replication.HashLocation | packages/artifacts/src/locations.ts:350-377 | Passes only on bytes of the expected size and digest, answers that it did not only when they were not there, and fails only when a call did |
| Replication.Artifacts.VerifyLocation | packages/artifacts/src/locations.ts:405-436 | Refuses a missing row or version, and else records the outcome on its row and no other; a recorded digest is one bytes in the store have, and a failure is recorded only where the store is not configured or they were not there |
| Replication.Artifacts.SourceOf | packages/artifacts/src/locations.ts:454-477 | Answers the one working copy exactly when the role is replicable, the version visible, its working copy one and configured, and the target configured and declared writable; otherwise the first of these that does not hold |
| Replication.Artifacts.ReplicateVersion | packages/artifacts/src/locations.ts:443-513 | Refuses, leaving stores and rows as they were, unless `SourceOf` finds a source; otherwise creates at most one object, of the version's digest, in the target, keeps an existing row, records what it verified, leaves no row when it fails, and fails only when a call did or the working copy does not hold the version's bytes |
| Replication.Artifacts.ReadVersionBytes | packages/artifacts/src/locations.ts:577-609 | Serves only bytes of the version's digest, from a working copy, or where no configured one holds them from a copy of a replicable role verified at that digest; nothing only when none of these holds them; and fails only when a call did |
| Egress.HighestOf | packages/agent/src/classification.ts:40-49 | The loop computes the highest label, unknown ones counted as restricted; `HighestByName` says which that is |
| Egress.HighestIsMaximum | packages/agent/src/classification.ts:39-49 | Nothing for no labels, else the level of one of them that none exceeds |
| TurnOutcomes.HighestByName | packages/agent/src/classification.ts:39-49 | By name, without ranks: the highest label is the lowest classification that covers every label |
| Egress.MayLeaveExactly | packages/agent/src/classification.ts:61-65 | By name: nothing leaves under `none`, `public` under `public`, `public` and `internal` under `internal`, and no other label |
| Egress.RouterAndGuardAgree | packages/agent/src/router.ts:46-90 | At one ceiling a provider is chosen exactly when one is configured and preferred and the guard accepts; a turn is refused as controlled exactly when the guard would refuse it and no model runs on the host |
| Egress.GuardedLabels | packages/agent/src/backends.ts:135-156 | A request the guard accepts carries only labels released by name under the ceiling |
| Egress.SealPins | packages/agent/src/seal.ts:36-39 | Under known labels a seal pins the label and the encoded text |
| TurnOutcomes.VerifiedExactly | packages/agent/src/seal.ts:36-70 | An earlier answer is given to the model under the label it carries exactly when its seal is the one over that label and its text, written out; otherwise under `restricted` |
| Egress.ResplitSealStaysOnHost | packages/agent/src/seal.ts:36-58 | A seal that verifies under a label swallowing text is under an unknown label, which leaves under no ceiling |
| Egress.TurnCovered | packages/agent/src/seal.ts:45-70 | Everything an earlier turn derives from is at or below the label it is trusted with |
| Egress.AnswerCovered | packages/agent/src/turn.ts:280-309 | Everything an answer derives from is at or below the label it is sealed with |
| Egress.NothingControlledLeaves | packages/agent/src/turn.ts:320-378 | Over a whole conversation each thing sent to a provider carries only items, agent turns and transitive sources whose labels, by name, the ceiling the guard read lets out |
| TurnOutcomes.TurnSendsExactly | packages/agent/src/turn.ts:320-378 | A provider is sent a turn exactly when something was found, a provider answers first, and every item and every agent turn of the newest twelve may leave under both readings of the ceiling; it is then sent exactly the context read and those twelve turns |
| TurnOutcomes.TurnAnswersExactly | packages/agent/src/turn.ts:280-400 | Every turn seals one answer: the reply of a model that was given the turn, or no text, under the lowest classification that covers all it carries, deriving from everything read and everything repeated answers derive from |
| TurnOutcomes.ConversationGrows | packages/agent/src/turn.ts:160-400 | A conversation is its turns one after the other |
| TurnContext.ReadAll | packages/agent/src/turn.ts:227-253 | References are read in order until one is stale, served ones numbered and labelled, missed ones counted |
| TurnContext.Gather | packages/agent/src/turn.ts:199-256 | Two attempts at most; the master record is compiled exactly when the first was stale; the context kept is the second attempt's exactly when, besides, compiling succeeded |
| TurnContext.ItemsExactly | packages/agent/src/turn.ts:227-253 | Every record served is cited by how many were served before it, under the label it was served with or `restricted`; the unreadable ones are counted |
| TurnContext.NumberedInOrder | packages/agent/src/turn.ts:233-246 | Source [n] is the nth item, with the record and label it was served under |

## Left out

- Number formatting, `toJSON`, prototypes and sparse arrays: a number is its numeral text, an array is dense, an object has one property per key.
- JSON escapes for lone surrogates: the surrogate check refuses such strings first.
- Checkpoint formats v1 and v2, signatures and the strictly increasing sequence check: v3 leaves carry every field.
- `JSON.parse`, `JSON.stringify` and the rename of the state file: `UrgentState` reads and writes JSON values.
- UrgentPushRuns.AtMostOnce: a send either succeeds or does not, because the program cannot tell; a push that is delivered and then reported as failed is told again.
- What pushes say, digests by mail, and which people `core.urgent_pushes` admits.
- `localeCompare` order and the text of the disclosure errors: which keys are over- or under-disclosed is modelled, not their listing.
- Claim payloads, sections, withheld ledgers, permission digests and relation policies: easy members beside the currency check.
- The validity of a classification in the database and verification metadata of members: neither enters a digest's comparison.
- EvidenceSweep.NamedExactly: a ledger entry that fails is rolled back; one that commits and loses its answer would be in the ledger and refused both.
- UrgentNumbers.OwedAgrees: an accepted text whose date or clock does not exist names no time, and no row of the database has one.
- How the write log decides which records a write names (database triggers): taken as `OnlyNamedMoved`.
- Option range checks and aborting a wait: single-branch checks and timers.
- EmbeddingLease.VectorExact: a claim reads the text as last re-indexed; a record without a search document, whose present title is read instead, is not modelled.
- Outbox.DeliveredExactly: drains follow one another with no rows inserted between, and a row that fails always fails, because a handler that may recover has no fixed outcome.
- Locations recorded by replication as references of a compiled view: they exist only where a version already references the key.
- The non-conditional `putIfAbsent` fallback, public copies and the deferred registry: not create-only by its own comment, a second act, and wiring.
- Replication.Artifacts.ReplicateVersion: other transactions create objects during it but change no location rows, because each row is written by one act under its unique key.
- Mail, HTTP, sockets, object-store and database plumbing, configuration and command lines.
- Egress.NothingControlledLeaves: what a person types, and agent text re-sent in the person role, is unlabelled by design and not covered.
- `checkCitations`, prompts and the guide's text: a reply either cites only the turn's sources or is not shown.
- Reading the ceiling over the API: any answer that is not a known ceiling is `none`.
