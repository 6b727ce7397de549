# Identity platform: a model and its proofs

This project models seven parts of the identity platform in Dafny and proves what each of them keeps
on every input or over every run. `dafny verify dfyconfig.toml` checks all of it.

- **Record tag queries** (`TagQuery`, `SqlCondition`, `TagQuerySql`, `TagQueryAgreement`,
  `TagQuerySmallRecords`, `TagQueryMeaning`). The compiler from tag queries to a SQL condition with positional parameters, as
  a class that pushes parameters and emits text. The text is read back with AND binding tighter than OR
  and evaluated under SQL's three-valued logic, with Error for a missing or ill-typed parameter. Its
  meaning is compared with the in-memory matcher that the source calls the same semantics.
- **Listing records** (`Sorting`, `Pagination`, `RecordListing`). Page arithmetic and the SELECT around
  the condition, up to: reading all pages lists every matching record once and in order.
- **Status lists** (`StatusList`, `StatusListRuns`, `StatusListOffers`). Allocation and revocation, each split into the read
  of the list and the transaction that writes the whole list back, under every interleaving.
- **BBS proof header** (`AscendingSet`, `ProofHeader`). The reversed bit vector behind a 16-bit count,
  both loops, and the pairing of messages with indices by rank.
- **Pending DIDComm stores and their driver** (`InvitationIndex`, `PendingProofStore`,
  `PendingProofRuns`, `PendingOfferStore`, `PendingOfferRuns`, `DidcommDriver`, `DidcommReports`). Two maps
  with lazy purging, proved to answer like a history in which nothing is deleted.
- **Billing** (`Accounts`, `FixedWindow`, `Metering`, `MeteringOverlaps`, `Tables`, `Products`,
  `ProductTables`, `ProductRuns`, `ProductQuota`, `ProductKeys`, `ProductOwners`, `ProductStages`,
  `ProductOverlaps`). Rate windows, metering, products with their resources and API keys, plan changes and failed creations. Calls
  are also split where the code awaits the database, with anything in between: a metered call, a creation,
  a rotation, the use of a key, a change of an account, the enforcement of a quota, an archiving and a
  patch. Saving a row writes it back as it was read but for what the call changes.
- **ECDSA signatures** (`DerSignature`). DER to the 64-byte form.

Clock readings, random identifiers, the answers of remote services and the database's text order are
parameters. What the code does differently from its own comments is modelled as the code does it:

- The SQL filter is announced to have the matcher's semantics. It always selects every record the
  matcher accepts, and selects more for a boolean that meets an array tag, for an empty `$or` and for a
  non-textual `id`; `Agreement` says on which records the two agree, `AgreementExact` for which queries
  they agree on all, and `Disagreements` shows instances.
- A product whose creation fails is announced to be rolled back. A malformed or taken wallet id is
  detected outside the rollback and leaves an active product without a resource, which counts against
  the quota; `CreateExact` says exactly when. Requests with a malformed id are turned away earlier, so the
  taken id is the case that arises (`TakenReachable`).
- An allocation is announced to take a free index. Its cursor path does not look at the entry:
  without a credential id it can overwrite a revoked one (`AllocationKeepsRevokedExactly`), and with one
  it fails from then on if the index was revoked before it was handed out (`StuckForever`).
- A revocation is announced to be permanent. Whatever read the list before it and commits after it
  undoes it, another revocation included (`CommitExact`, `RevocationsOverlap`).
- Archiving suspends a product's resources, but a creation that is still going on can leave the product
  with a pending or active one, and so can the enforcement of a quota that read the product before it had
  its resource; a patch that read it before can even reopen it (`StepArchivedExact`, `ShutForever`).
- A resource is meant to have one live key. A rotation during its creation, another rotation, or a use of
  an old key that writes its row back leaves it with two (`StepOneLiveExact`); such a use also brings a
  revoked key back to life, and nothing else does (`StepDeadExact`, `RevokedForever`).
- Creations that overlap can pass the product quota, and so can a patch or a stale write of the account
  (`StepQuotaExact`); metered calls that overlap can lose counts and pass the monthly quota
  (`StepCountsExact`). `ProductOverlaps` and `LostCountReachable` hold such runs.

## Model

| member | source | states |
|---|---|---|
| SqlCondition.ParsePrintDisj | packages/identity-core/src/record/record-query.sql.ts:39-58 | Whatever follows it (but AND or OR), an emitted text reads back as the tree it was written from: AND inside OR branches, OR only inside parentheses. |
| SqlCondition.ParsePrint | packages/identity-core/src/record/record-query.sql.ts:39-58 | A complete emitted condition parses to exactly the tree it was written from. |
| SqlCondition.ParseExactly | packages/identity-core/src/record/record-query.sql.ts:39-58 | A text reads as a tree if and only if it is what the tree is written as. |
| SqlCondition.LesserAndGreater | packages/identity-core/src/record/record-query.sql.ts:39-58 | AND gives the lesser and OR the greater of two truth values, an error spoiling both. |
| TagQuerySql.SqlBuildContext.PushParam | packages/identity-core/src/record/record-query.sql.ts:92-97 | Returns the next index, appends the value, moves the counter by one. |
| TagQuerySql.SqlBuildContext.BuildTagCondition | packages/identity-core/src/record/record-query.sql.ts:61-90 | The emitted text of one condition is that of its tree, and its parameters land at the indices the tree names. |
| TagQuerySql.SqlBuildContext.BuildEntries | packages/identity-core/src/record/record-query.sql.ts:30-33 | The loop over an object's entries emits the conditions of exactly the entries it does not skip, in order, with parameters numbered consecutively. |
| TagQuerySql.SqlBuildContext.BuildBranch | packages/identity-core/src/record/record-query.sql.ts:50-55 | A `$or` branch prints as the conjunction of its conditions, TRUE when there are none. |
| TagQuerySql.SqlBuildContext.BuildOrClause | packages/identity-core/src/record/record-query.sql.ts:45-59 | The branches print as one parenthesised disjunction, their parameters consecutive across branches. |
| TagQuerySql.SqlBuildContext.BuildConditions | packages/identity-core/src/record/record-query.sql.ts:22-37 | Id, tag and `$or` conditions in that order, sharing one parameter list and counter. |
| TagQuerySql.BuildTagQuerySql | packages/identity-core/src/record/record-query.sql.ts:18-43 | The emitted flat text parses to the intended tree, a conjunction of conditions one of which is a disjunction of conjunctions, and the parameters are those the tree refers to. |
| TagQuerySql.ArrayMeaning | packages/identity-core/src/record/record-query.sql.ts:71-79 | An array condition is True or False on every row, never Unknown, and tests all-of or any-of on array tags only. |
| TagQuerySql.ScalarMeaning | packages/identity-core/src/record/record-query.sql.ts:81-89 | A scalar condition is True or False on every row, and tests membership of its spelling on array tags, equality on others. |
| TagQuerySql.EntriesMeaning | packages/identity-core/src/record/record-query.sql.ts:30-33 | All conditions of an object are two-valued, and all true exactly when every entry holds. |
| TagQuerySql.BranchesMeaning | packages/identity-core/src/record/record-query.sql.ts:45-59 | All branches are two-valued, and one is true exactly when some branch holds. |
| TagQuerySql.ClauseMeaning | packages/identity-core/src/record/record-query.sql.ts:18-90 | For every query and row, the clause with its parameters bound at `start` among any others is True or False, never Unknown or ill-typed, and tests the query. |
| TagQueryAgreement.ConditionExact | packages/identity-core/src/record/record-query.matcher.ts:42-64 | One SQL condition agrees with the matcher on all records if and only if its value holds no boolean that an array tag could spell out. |
| TagQueryAgreement.Agreement | packages/identity-core/src/record/record-query.matcher.ts:12-40 | For every query and record: what the matcher accepts is selected; and the two agree whenever the id filter is a text or does not spell the record's id, `$or` is not empty, and no boolean of the query meets an array tag of the record. |
| TagQueryAgreement.TranslationCorrect | packages/identity-core/src/record/record-query.sql.ts:14-43 | The emitted text, parsed and evaluated under three-valued logic with its parameters after any start-1 others and before any more, is True or False on every row, True wherever the matcher accepts, and the matcher's answer on every row on which the two agree by that condition, boolean filters on boolean tags included. |
| TagQueryAgreement.AgreementExact | packages/identity-core/src/record/record-query.matcher.ts:12-40 | With textual arrays, and not several `$or` branches with a boolean in one of them beside faithful entries: SQL and matcher agree on all records if and only if the query is faithful (a textual id, a `$or` that is not empty, no boolean that an array tag could spell out), or every branch asks for any of no values. |
| TagQuerySmallRecords.AgreementDecided | packages/identity-core/src/record/record-query.matcher.ts:12-40 | For every query without exception: SQL and matcher agree on all records if and only if they agree on the records of a finite set computed from the query. |
| TagQuerySmallRecords.SmallRecordsExact | packages/identity-core/src/record/record-query.matcher.ts:12-40 | That set holds exactly the records whose tags are among those the query names and hold null, a scalar of the query or a sublist of its texts. |
| TagQuerySmallRecords.CutKeeps | packages/identity-core/src/record/record-query.matcher.ts:42-64 | Neither side can tell a tag from what is left of it when everything the query does not mention is cut away. |
| TagQueryAgreement.BarrenSelectsNothing | packages/identity-core/src/record/record-query.matcher.ts:29-36 | When every branch asks for any of no values, neither side selects anything. |
| TagQueryAgreement.Disagreements | packages/identity-core/src/record/record-query.matcher.ts:29-36 | Concrete records that SQL selects and the matcher rejects: a boolean against an array tag, an empty `$or`. |
| TagQueryAgreement.ClauseInRange | packages/identity-core/src/record/record-query.sql.ts:92-97 | Every `$n` of the clause lies in [start, start + number of parameters). |
| TagQueryMeaning.MatcherOnTag | packages/identity-core/src/record/record-query.matcher.ts:42-64 | A text matches the tag that is that text or an array with it, a boolean only that boolean, an array of values only an array tag with all of them, or inside `$or` with one of them. |
| TagQueryMeaning.MatcherOnQuery | packages/identity-core/src/record/record-query.matcher.ts:12-40 | With distinct keys, the matcher accepts a record if and only if its id is the one asked for, every other entry but `$or` that is not null matches, and with a `$or` all entries of some branch that are not null match. |
| TagQueryMeaning.TextOnTag | packages/identity-core/src/record/record-query.sql.ts:61-90 | What a condition tests on one tag, in the same terms: a boolean is also found in an array of texts that spells it. |
| TagQueryMeaning.TextOnQuery | packages/identity-core/src/record/record-query.sql.ts:18-59 | With distinct keys, the emitted text is True exactly on the rows with the id asked for on which every other entry but `$or` that is not null tests true, and with a `$or` that is not empty one of its branches; False on all others. |
| TagQueryMeaning.IdAlone | packages/identity-core/src/record/record-query.sql.ts:23-28 | For a query with a textual id alone, matcher and emitted text both say whether it is the record's id. |
| TagQueryMeaning.ReservedTagIgnored | packages/identity-core/src/record/record-query.sql.ts:30-33 | Unless a branch names it, adding, changing or removing a tag called "id" or "$or" changes neither the matcher's answer nor the value of the text. |
| TagQuerySql.ArrayAsText | packages/identity-core/src/record/record-query.sql.ts:23-28 | An array sent as a text parameter is in braces, its elements quoted and separated by commas, quotes and backslashes escaped. |
| TagQuerySql.EscapedBy | packages/identity-core/src/record/record-query.sql.ts:23-28 | A backslash stands before each quote and backslash of such an element, and nowhere else. |
| Pagination.NormalizeRecordsPageOptions | packages/identity-core/src/record/record-storage.types.ts:41-49 | For every JavaScript number: in-range values are rounded down and kept, smaller ones become 1, larger limits 100, a missing limit 20; there is no page exactly for NaN or an infinite page. |
| Pagination.PagesArePrefix | packages/identity-core/src/record/askar-record.storage.ts:99-100 | Pages 1..n one after the other are the first n * limit records. |
| Pagination.PageEmpty | packages/identity-core/src/record/record-storage.types.ts:59-65 | A page is empty exactly when its number is above the number of pages. |
| Pagination.PagesPartition | packages/identity-core/src/record/record-storage.types.ts:54-68 | Pages 1..totalPages concatenate to the list, later pages are empty, `hasNextPage` holds iff the next page has records, `hasPreviousPage` iff there is a non-empty earlier one; page, limit and total are handed on. |
| Sorting.SortProperties | packages/identity-core/src/record/postgres-record.storage.ts:341-342 | ORDER BY gives a sorted permutation of the rows. |
| Sorting.SortedUnique | packages/identity-core/src/record/postgres-record.storage.ts:341-342 | Two strictly sorted lists of the same rows are the same list. |
| RecordListing.WhereMeaning | packages/identity-core/src/record/postgres-record.storage.ts:316-322 | The full WHERE text, parsed with the clause inside it and any parameters after it, is true exactly on the rows of that type and wallet that the query selects. |
| RecordListing.FilterIsScope | packages/identity-core/src/record/postgres-record.storage.ts:324-328 | COUNT and SELECT see exactly those rows, with or without LIMIT and OFFSET parameters behind them. |
| RecordListing.SelectStoredByTagQuery | packages/identity-core/src/record/postgres-record.storage.ts:309-348 | The total is the number of rows in scope, and the items are the requested page of them in order (all of them without pagination). |
| RecordListing.ListingProperties | packages/identity-core/src/record/postgres-record.storage.ts:340-346 | The ordered result holds exactly the rows in scope, newest first: no row is older than one after it, rows without a time of creation come last, and rows of one time stand in the order of their ids. |
| RecordListing.OrderIndependent | packages/identity-core/src/record/postgres-record.storage.ts:340-344 | It does not depend on the physical order of the table. |
| RecordListing.ListingComplete | packages/identity-core/src/record/postgres-record.storage.ts:422-448 | Reading pages 1..totalPages one request at a time lists exactly the selected rows of the type and wallet, each once and newest first in the same sense, whatever physical order the table has at each request; no record the matcher accepts is missed, and every listed record on which the two agree is one it accepts. |
| StatusList.FirstFree | packages/identity-core/src/revocation/status-list.service.ts:123-131 | The first VALID entry from an index on, None exactly when there is none. |
| StatusList.ChooseIndex | packages/identity-core/src/revocation/revocation.service.ts:161-181 | With a preferred index in range, the first VALID one from there on; otherwise the cursor's, whatever stands there; when the cursor has run out, the first VALID one of the list. |
| StatusList.StatusListStorage.Create | packages/identity-core/src/revocation/revocation.service.ts:80-104 | Adds an all-VALID list unless there is one for that wallet and credential type. |
| StatusList.StatusListStorage.UpdateCompressedBitstring | packages/identity-core/src/revocation/postgres-status-list.storage.ts:165-180 | Replaces the whole list and the cursor, nothing else. |
| StatusList.StatusListStorage.IncrementRevokedCount | packages/identity-core/src/revocation/postgres-status-list.storage.ts:187-193 | Adds one to the counter, nothing else. |
| StatusList.StatusListStorage.SaveRevocation | packages/identity-core/src/revocation/postgres-status-list.storage.ts:206-228 | Inserts an audit row or fails on the unique (list, index) and changes nothing. |
| StatusList.StatusListStorage.UpdateRevocation | packages/identity-core/src/revocation/postgres-status-list.storage.ts:280-295 | Completes an audit row, keeping old values where no new one is given. |
| StatusList.StatusListStorage.RunTransaction | packages/identity-core/src/revocation/postgres-status-list.storage.ts:307-321 | Either all statements take effect or the store is as before. |
| StatusList.StatusListStorage.FindFreeIndex | packages/identity-core/src/revocation/status-list.service.ts:123-131 | The loop finds the first VALID entry. |
| StatusList.StatusListStorage.AllocateIndex | packages/identity-core/src/revocation/revocation.service.ts:140-216 | The service method is the read half followed by the transaction half of the protocol model. |
| StatusList.StatusListStorage.RevokeIndex | packages/identity-core/src/revocation/revocation.service.ts:236-296 | Likewise for a revocation, with the store unchanged on every error. |
| StatusList.StatusListStorage.GetStatus | packages/identity-core/src/revocation/revocation.service.ts:313-338 | The entry at the index, or which of the two errors. |
| StatusListRuns.StepKeepsInv | packages/identity-core/src/revocation/revocation.service.ts:192-202 | Every read, commit or abandonment keeps the invariant, which also covers every write still in flight. |
| StatusListRuns.RevocationsAccounted | packages/identity-core/src/revocation/revocation.service.ts:255-281 | Under every interleaving, each INVALID entry has an audit row and the INVALID entries never outnumber `revokedCount`, stale whole-list writes included. |
| StatusListRuns.GrantsDistinct | packages/identity-core/src/revocation/revocation.service.ts:192-202 | Under every interleaving, successful allocations with a credential id on a list return pairwise distinct indices below its capacity, so at most `capacity` of them succeed. |
| StatusListRuns.RevokedForever | packages/identity-core/src/revocation/revocation.service.ts:255-281 | When operations on a list do not overlap and allocations carry a credential id, an index once INVALID stays INVALID at every later moment. |
| StatusListRuns.CommitExact | packages/identity-core/src/revocation/revocation.service.ts:146-202 | After every run, overlapping or not, a commit keeps every revocation if and only if it fails or every index INVALID now was INVALID when its operation read the list, but for the one it revokes itself; allocations and revocations alike. |
| StatusListRuns.CommitKeepsRevokedExactly | packages/identity-core/src/revocation/revocation.service.ts:192-202 | The same for any store and any plan derived from what it read. |
| StatusListRuns.RevocationsOverlap | packages/identity-core/src/revocation/revocation.service.ts:241-281 | A run of five steps in which a revocation undoes another: both read the list before either commits. |
| StatusListRuns.OverlapUndoesRevocation | packages/identity-core/src/revocation/revocation.service.ts:146-193 | For every state with an allocation in flight, with a credential id or without: a revocation of another index that commits first is undone, although its audit row stays, if and only if the allocation commits, that is unless it carries a credential id for an index that has an audit row. |
| StatusListRuns.AllocationKeepsRevokedExactly | packages/identity-core/src/revocation/revocation.service.ts:172-202 | A lone allocation keeps all revocations if and only if it has a credential id, or a preferred index, or a cursor that is past the end or not on a revoked entry. |
| StatusListRuns.RevokeThenAllocateWithoutCredential | packages/identity-core/src/revocation/revocation.service.ts:172-202 | A reachable instance: revoking index 0 of a new list and then allocating without a credential id loses the revocation. |
| StatusListRuns.AllocateExactly | packages/identity-core/src/revocation/revocation.service.ts:140-216 | A lone allocation succeeds if and only if there is an index to choose and, with a credential id, no audit row for it yet; a failed one changes nothing but the creation of the list. |
| StatusListRuns.StuckForever | packages/identity-core/src/revocation/revocation.service.ts:172-202 | Once the cursor stands on an index with an audit row, no allocation with a credential id that follows the cursor ever succeeds again, whatever else is offered and revoked. |
| StatusListRuns.RevocationSticksExactly | packages/identity-core/src/revocation/revocation.service.ts:255-281 | A revocation leads there if and only if it revokes the index the cursor stands on, as revoking index 0 of a new list does. |
| StatusListOffers.AllocationEffect | packages/identity-core/src/revocation/revocation.service.ts:140-216 | What an allocation by itself leaves: the entry reads 0, the cursor stands behind it, an audit row exactly for a credential id, and nothing else changed; which index it gets; and which of the two errors. |
| StatusListOffers.RevocationEffect | packages/identity-core/src/revocation/revocation.service.ts:236-296 | What a revocation by itself leaves: the entry reads 1, the counter one more, the cursor as it was, the audit row completed; or which of the two errors, with nothing changed. |
| StatusListOffers.NextFollows | packages/identity-core/src/revocation/revocation.service.ts:172-202 | After a successful allocation the next one that follows the cursor gets the next index, if there is one and it has no audit row. |
| StatusListOffers.OffersCountUp | packages/identity-core/src/revocation/revocation.service.ts:140-216 | From a list just created, offers with a credential id get 0, 1, 2 and so on up to the capacity, and every later one fails. |
| StatusListOffers.FirstOfferCreates | packages/identity-core/src/revocation/revocation.service.ts:80-104 | The first offer creates the list, with room for 16384. |
| StatusListOffers.AllocationNeedsList | packages/identity-core/src/revocation/revocation.service.ts:146-160 | Reading a list that is not there is refused as such. |
| AscendingSet.AscendingMembers | packages/identity-core-dart/native/bbs/src/lib.rs:321 | Iterating an ordered set visits exactly its members. |
| AscendingSet.AscendingIncreases | packages/identity-core-dart/native/bbs/src/lib.rs:321 | It visits them in strictly ascending order. |
| ProofHeader.RevealedToBitvector | packages/identity-core-dart/native/bbs/src/lib.rs:57-66 | The loop stays in range and fills the bit vector of the set, reversed. |
| ProofHeader.BitvectorToRevealed | packages/identity-core-dart/native/bbs/src/lib.rs:68-85 | The shifting loop terminates, never counts below zero, and collects exactly the set bits, for every byte string. |
| ProofHeader.DecodeEncode | packages/identity-core-dart/native/bbs/src/lib.rs:57-85 | Decoding the encoding of a set gives the set back. |
| ProofHeader.EncodeDecode | packages/identity-core-dart/native/bbs/src/lib.rs:57-85 | Encoding the decoding of any byte string of length total/8+1 gives the same bytes. |
| ProofHeader.MembersInjective | packages/identity-core-dart/native/bbs/src/lib.rs:68-85 | Different byte strings of one length decode to different sets. |
| ProofHeader.U16RoundTrip | packages/identity-core-dart/native/bbs/src/lib.rs:20-35 | The two count bytes read back as the count modulo 65536. |
| ProofHeader.HeaderRoundTrip | packages/identity-core-dart/native/bbs/src/lib.rs:19-54 | For at most 65535 messages and any tail, reading splits the bytes where they were joined and gives back the count, the set and the parsed proof, or the proof parser's error. |
| ProofHeader.HeaderByBytes | packages/identity-core-dart/native/bbs/src/lib.rs:19-66 | The header by its bytes: the count with its high byte first, then index i as bit i mod 8 of the byte that is i/8 from the end. |
| ProofHeader.ByteValues | packages/identity-core-dart/native/bbs/src/lib.rs:36 | The number of a byte by its bits. |
| ProofHeader.BytesRefused | packages/identity-core-dart/native/bbs/src/lib.rs:32-47 | Which bytes are refused as too short for the count, too short for the bit vector, or for the proof behind it. |
| ProofHeader.SplitExact | packages/identity-core-dart/native/bbs/src/lib.rs:20-37 | The split falls at the end of the header if and only if there are at most 65535 messages. |
| ProofHeader.CreateProof | packages/identity-core-dart/native/bbs/src/lib.rs:219-251 | Refuses an index out of range before anything else and hands on the errors of key, signature and proof generation; otherwise reveals exactly the listed messages and frames their set, whatever their order or repetitions. |
| ProofHeader.ReadDisclosure | packages/identity-core-dart/native/bbs/src/lib.rs:292-325 | From any bytes: the errors of the bytes, of the public key for the count read from them, and of a message count that is not the number of revealed indices, in this order; otherwise the key, the map from index to message and the proof. |
| ProofHeader.PairMessages | packages/identity-core-dart/native/bbs/src/lib.rs:321-325 | The loop pairs each message with the index of the same rank. |
| ProofHeader.PairingCorrect | packages/identity-core-dart/native/bbs/src/lib.rs:219-325 | End to end: from the framed bytes and the revealed messages in ascending order, the verifier rebuilds exactly the map from revealed index to message, in whatever order and how often the prover listed the indices. |
| DerSignature.StripZeros | packages/identity-core-dart/ios/Classes/IdentityCorePlugin.swift:152-153 | Drops all leading zero bytes and keeps the number. |
| DerSignature.CopyInt | packages/identity-core-dart/ios/Classes/IdentityCorePlugin.swift:151-157 | Writes the 32-byte big-endian form of the number modulo 2^256 at the offset, and touches no other byte. |
| DerSignature.DerToP1363 | packages/identity-core-dart/ios/Classes/IdentityCorePlugin.swift:136-149 | For every byte string: a trap exactly when a header or content would be read out of range, otherwise the two fixed-width numbers concatenated. |
| DerSignature.FixedOfValue | packages/identity-core-dart/ios/Classes/IdentityCorePlugin.swift:151-157 | Right-aligning the last bytes of a string is writing its number in fixed width. |
| DerSignature.ConversionCorrect | packages/identity-core-dart/ios/Classes/IdentityCorePlugin.swift:136-157 | Reading the DER form of any (r, s) with a short-form length stays in range and gives the fixed-width forms; a half stands for its number if and only if the number is below 2^256. |
| DerSignature.DerByBytes | packages/identity-core-dart/ios/Classes/IdentityCorePlugin.swift:136-157 | The signature (1, 128) byte by byte, and what is read from it. |
| DerSignature.HighBytesFirst | packages/identity-core-dart/ios/Classes/IdentityCorePlugin.swift:151-157 | Numbers are read with their high bytes first. |
| DerSignature.ConvertSignature | packages/identity-core-dart/ios/Classes/IdentityCorePlugin.swift:136-157 | For all r, s below 2^256 the 64 bytes are the big-endian forms of r and s, zero and sign padding included. |
| InvitationIndex.FoundOnce | identity-verifier-service/source/src/didcomm/pending-didcomm-proof.store.ts:86-87 | In every run of an index that is only added to under fresh identifiers, no entry is found by two uses. |
| PendingProofStore.PendingDidCommProofStore.PurgeMaps | identity-verifier-service/source/src/didcomm/pending-didcomm-proof.store.ts:182-198 | The deleting loop, in any order of visiting, leaves exactly the entries and index entries a purge keeps, with expired ones marked. |
| PendingProofStore.PendingDidCommProofStore.PurgeExpired | identity-verifier-service/source/src/didcomm/pending-didcomm-proof.store.ts:182-198 | A purge changes nothing the history can tell. |
| PendingProofStore.PendingDidCommProofStore.Add | identity-verifier-service/source/src/didcomm/pending-didcomm-proof.store.ts:62-89 | The new pending request, the new maps and the history with it added. |
| PendingProofStore.PendingDidCommProofStore.FindByPendingRequestId | identity-verifier-service/source/src/didcomm/pending-didcomm-proof.store.ts:97-100 | For all calls, what the purged map holds; in orderly use, found if and only if a proof exchange is attached or now < expiresAt + 300000. |
| PendingProofStore.PendingDidCommProofStore.FindInvitationMessage | identity-verifier-service/source/src/didcomm/pending-didcomm-proof.store.ts:110-118 | In orderly use, served if and only if now < expiresAt, taken or not. |
| PendingProofStore.PendingDidCommProofStore.Take | identity-verifier-service/source/src/didcomm/pending-didcomm-proof.store.ts:129-143 | In orderly use, hands a request out if and only if its invitation was not used, nothing was reported for it and it has not expired; the new maps for all calls. |
| PendingProofStore.PendingDidCommProofStore.AttachProofExchange | identity-verifier-service/source/src/didcomm/pending-didcomm-proof.store.ts:151-160 | Attaches to an entry still present, else changes nothing. |
| PendingProofStore.PendingDidCommProofStore.MarkError | identity-verifier-service/source/src/didcomm/pending-didcomm-proof.store.ts:168-174 | Marks an entry still present, else changes nothing. |
| PendingProofStore.PurgeAgrees | identity-verifier-service/source/src/didcomm/pending-didcomm-proof.store.ts:182-198 | Maps that tell the history's story still tell it after a purge at any later time. |
| PendingProofStore.TakeCallAgrees | identity-verifier-service/source/src/didcomm/pending-didcomm-proof.store.ts:129-143 | A take keeps maps and history in step, and the maps hand out exactly what the history says is waiting. |
| PendingProofStore.LookupAgrees | identity-verifier-service/source/src/didcomm/pending-didcomm-proof.store.ts:97-100 | A lookup of the maps answers what the history says is to be found. |
| PendingProofRuns.RunAgrees | identity-verifier-service/source/src/didcomm/pending-didcomm-proof.store.ts:62-198 | At every moment of every run under a non-decreasing clock with fresh identifiers and invitations, the two maps tell the story of a history in which nothing is deleted. |
| PendingProofRuns.LookupExact | identity-verifier-service/source/src/didcomm/pending-didcomm-proof.store.ts:97-118 | So at every moment of every such run the maps find a request if and only if an exchange is attached or the grace period is not over, and serve an invitation if and only if it is not expired. |
| PendingProofRuns.HandedOutOnce | identity-verifier-service/source/src/didcomm/pending-didcomm-proof.store.ts:129-143 | Over every sequence of calls, with any clock and shared invitations, no request is handed out twice. |
| PendingProofRuns.AttachedForever | identity-verifier-service/source/src/didcomm/pending-didcomm-proof.store.ts:184-186 | Once an exchange is attached to a stored request, every later lookup of the maps finds the request with an exchange, over every sequence of calls and any clock. |
| PendingProofRuns.FirstTake | identity-verifier-service/source/src/didcomm/pending-didcomm-proof.store.ts:129-143 | In every run with fresh invitations and an ordered clock, the first use of an invitation makes the maps hand its request out if and only if it has not expired. |
| PendingProofRuns.InvitationKeptExactly | identity-verifier-service/source/src/didcomm/pending-didcomm-proof.store.ts:86-196 | For any maps: a call leaves an invitation leading to the request it leads to if and only if it neither uses it, nor adds another request under it, nor purges while a due request is stored under it. |
| PendingOfferStore.PendingDidCommOfferStore.PurgeMaps | identity-issuer-service/source/src/didcomm/pending-didcomm-offer.store.ts:116-123 | The deleting loop leaves exactly the unexpired offers, and drops the invitations of the others. |
| PendingOfferStore.PendingDidCommOfferStore.PurgeExpired | identity-issuer-service/source/src/didcomm/pending-didcomm-offer.store.ts:116-123 | A purge changes nothing the history can tell. |
| PendingOfferStore.PendingDidCommOfferStore.Add | identity-issuer-service/source/src/didcomm/pending-didcomm-offer.store.ts:46-72 | The new pending offer, the new maps and the history with it added. |
| PendingOfferStore.PendingDidCommOfferStore.FindInvitationMessage | identity-issuer-service/source/src/didcomm/pending-didcomm-offer.store.ts:82-90 | Served if and only if now < expiresAt, handed out or not. |
| PendingOfferStore.PendingDidCommOfferStore.Take | identity-issuer-service/source/src/didcomm/pending-didcomm-offer.store.ts:101-113 | Hands an offer out if and only if its invitation was not used before and it has not expired; with the new maps. |
| PendingOfferStore.PurgeAgrees | identity-issuer-service/source/src/didcomm/pending-didcomm-offer.store.ts:116-123 | Maps that tell the history's story still tell it after a purge at any later time. |
| PendingOfferStore.TakeCallAgrees | identity-issuer-service/source/src/didcomm/pending-didcomm-offer.store.ts:101-113 | A take keeps maps and history in step, and the maps hand out exactly what the history says is unused and unexpired. |
| PendingOfferRuns.RunAgrees | identity-issuer-service/source/src/didcomm/pending-didcomm-offer.store.ts:46-123 | At every moment of every run under a non-decreasing clock with fresh identifiers and invitations, the two maps tell the history's story. |
| PendingOfferRuns.ServedExact | identity-issuer-service/source/src/didcomm/pending-didcomm-offer.store.ts:82-90 | So an invitation message is served if and only if it is not expired. |
| PendingOfferRuns.FirstTake | identity-issuer-service/source/src/didcomm/pending-didcomm-offer.store.ts:101-113 | In every such run the first use of an invitation makes the maps hand its offer out if and only if it has not expired. |
| PendingOfferRuns.HandedOutOnce | identity-issuer-service/source/src/didcomm/pending-didcomm-offer.store.ts:101-113 | Over every sequence of calls, with any clock and shared invitations, no offer is handed out twice. |
| DidcommDriver.DidCommService.OnConnectionReady | identity-verifier-service/source/src/didcomm/didcomm.service.ts:138-179 | Requests a proof exactly when `take` should hand one out, and records the exchange or the failure of that same request; a thrown request records nothing. |
| DidcommDriver.DidCommService.GetRequestByPendingId | identity-verifier-service/source/src/didcomm/didcomm.service.ts:192-247 | Answers exactly for a request that the maps hold and that belongs to the wallet; the status, expiry, exchange, error text and proof of the answer are tied to the record and the exchange's state. |
| DidcommDriver.ReportedOnce | identity-verifier-service/source/src/didcomm/didcomm.service.ts:147-178 | When every report follows a handing out of its request and no two follow the same one, a request is reported on once. |
| DidcommDriver.ExchangeStable | identity-verifier-service/source/src/didcomm/didcomm.service.ts:159-178 | In every run of the service, with any calls in between and any clock: once an exchange is recorded, every later query of the maps finds the request with that exchange, and reports `request-sent` or what the agent knows of it, never pending. |
| DidcommReports.UnreportedReads | identity-verifier-service/source/src/didcomm/didcomm.service.ts:192-215 | In every run with an ordered clock: a request that nothing was reported on reads "pending" until it expires, then for 300 seconds "error" with the message that it has expired, and after that it is not found. |
| DidcommReports.FailedReads | identity-verifier-service/source/src/didcomm/didcomm.service.ts:192-215 | In every run of the service, with any clock: a request marked as failed reads "error" with the message it was marked with, as long as it is found. |
| FixedWindow.AccountRateLimiter.AssertRateLimit | identity-billing-service/source/src/billing/billing.service.ts:933-952 | Admits a request exactly as the window machine does and leaves its windows. |
| FixedWindow.PublicRateLimiter.Handle | packages/identity-core/src/http/public-rate-limit.ts:74-100 | Though it also counts refused requests, it admits exactly what a limiter counting only admitted ones does after the same requests. |
| FixedWindow.PublicRateLimiter.AddressBound | packages/identity-core/src/http/public-rate-limit.ts:74-100 | Whatever requests the middleware has handled under a non-decreasing clock, an interval of one window length lets through at most 2 * max - 1 requests of an address (none when max is 0). |
| FixedWindow.SlidingBound | identity-billing-service/source/src/billing/billing.service.ts:933-952 | Over every request sequence under a non-decreasing clock: a window's counter is what was let through since it opened, at most the limit, and every half-open interval of one window length lets through at most twice the limit per key, one unit less when no request asks for more than its limit. |
| FixedWindow.BoundsReached | identity-billing-service/source/src/billing/billing.service.ts:937-951 | Both bounds are reached, for every limit of at least one and window length of at least two. |
| FixedWindow.RefusedOnlyWhenFull | identity-billing-service/source/src/billing/billing.service.ts:941-949 | A request is refused if and only if it does not fit beside what its current window let through; one that fits beside the last window length is never refused. |
| Metering.Meter.Meter | identity-billing-service/source/src/billing/billing.service.ts:649-702 | The service method takes the books from state to state as the metering machine does, with its answer. |
| Metering.UsageIsAccepted | identity-billing-service/source/src/billing/billing.service.ts:669-694 | In every run each (account, period) counter is the sum of the counts accepted into it. |
| Metering.PassedIsAdmitted | identity-billing-service/source/src/billing/billing.service.ts:666-691 | What the rate window let through in any interval is what was accepted or refused by the quota then. |
| Metering.MeteringConserves | identity-billing-service/source/src/billing/billing.service.ts:649-702 | Over every serial run with account changes in between: usage counters are sums of accepted counts, a rate window's counter is the accepted plus quota-refused counts since it opened, and any interval of one window length passes at most twice the largest limit in force. |
| Metering.AcceptedExactly | identity-billing-service/source/src/billing/billing.service.ts:658-701 | Whether a call is accepted is decided by the history alone, if and only if its count is positive, the account active, and the count fits the window and the month under the limits in force; the answer is the new monthly total, at most the quota. |
| Metering.AnswerExactly | identity-billing-service/source/src/billing/billing.service.ts:649-702 | Which answer a call gets, by the history and the limits in force: a count below one (one if none is given), an unknown account, one that is not active, the rate limit, the monthly quota with the total so far, or the new total. |
| MeteringOverlaps.StepKeepsInv | identity-billing-service/source/src/billing/billing.service.ts:649-702 | Every part of a call, whatever overlaps, keeps: a counter never exceeds what was booked on it, a pending save read no more than that, and the rate windows are those of a limiter that saw the calls one by one. |
| MeteringOverlaps.RateBound | identity-billing-service/source/src/billing/billing.service.ts:933-952 | So under any overlap, given an ordered clock, an interval of one window length lets through at most twice the limit. |
| MeteringOverlaps.SaveExact | identity-billing-service/source/src/billing/billing.service.ts:669-694 | A save that updates a row loses exactly what was added to the row since it was read (and gives back what was lost from it); one that inserts a row loses nothing, and fails if the row is there by then. |
| MeteringOverlaps.StepCountsExact | identity-billing-service/source/src/billing/billing.service.ts:669-694 | A counter that is the sum of what was booked on it stays so through a step if and only if the step is not the save of a row that has changed since it was read. |
| MeteringOverlaps.RunCounts | identity-billing-service/source/src/billing/billing.service.ts:669-694 | Over every run without such a save each counter is the sum of what was booked on it. |
| MeteringOverlaps.BookedWithinQuota | identity-billing-service/source/src/billing/billing.service.ts:680-694 | And no save of it books past the quota that the call read. |
| MeteringOverlaps.StagedMetering | identity-billing-service/source/src/billing/billing.service.ts:649-702 | With nothing in between, the parts of a call do what the whole call does. |
| MeteringOverlaps.LostCountReachable | identity-billing-service/source/src/billing/billing.service.ts:669-694 | A run in which two overlapping calls book three on a quota of two and leave a counter of two. |
| Products.BillingService.SetPlan | identity-billing-service/source/src/billing/billing.service.ts:275-299 | Copies the plan's quotas and archives the surplus of active products. |
| Products.BillingService.EnforceProductQuota | identity-billing-service/source/src/billing/billing.service.ts:905-920 | The loop over the surplus products is their archiving one after the other. |
| Products.BillingService.SuspendResources | identity-billing-service/source/src/billing/billing.service.ts:448-452 | The loop suspends the resources of the product and no others. |
| Products.BillingService.ArchiveProduct | identity-billing-service/source/src/billing/billing.service.ts:443-453 | Archives an owned active product and suspends its resources; otherwise changes nothing. |
| Products.BillingService.CreateProduct | identity-billing-service/source/src/billing/billing.service.ts:352-399 | The service method is the part before provisioning followed by the part after it. |
| Products.BillingService.CreateResourceInternal | identity-billing-service/source/src/billing/billing.service.ts:823-862 | The resource and its first key, or one of two errors and nothing changed. |
| Products.BillingService.RotateApiKey | identity-billing-service/source/src/billing/billing.service.ts:491-517 | Revokes the keys of the resource in a loop and adds a new one; nothing for an unknown resource. |
| Products.BillingService.ValidateApiKey | identity-billing-service/source/src/billing/billing.service.ts:549-612 | Serves a key if and only if there is an unrevoked row for it with a resource that is not suspended, for the service and wallet asked for, of a product that is not archived, of an active account; and the answer names those rows. |
| Products.ValidExactly | identity-billing-service/source/src/billing/billing.service.ts:549-612 | The same for any tables with primary keys. |
| ProductTables.OpKeeps | identity-billing-service/source/src/billing/billing.service.ts:275-542 | Every operation that runs by itself keeps the invariant of the tables, archived products suspended, and one live key a resource. |
| ProductOwners.ArchiveExactly | identity-billing-service/source/src/billing/billing.service.ts:443-453 | An archiving changes the tables if and only if the product is the account's own and active; then the product is archived, its resources are suspended, and nothing else changes. |
| ProductOwners.StartsIfOwned | identity-billing-service/source/src/billing/billing.service.ts:872-878 | An archiving or a patch split at its reads and writes begins in exactly that case. |
| ProductOwners.CreationAnswer | identity-billing-service/source/src/billing/billing.service.ts:352-399 | What a creation by itself is answered: the first of unknown account, inactive account, as many active products as the quota, malformed wallet id, taken wallet id, failed provisioning; otherwise the product, its resource and its key. |
| ProductOwners.KeyAnswer | identity-billing-service/source/src/billing/billing.service.ts:549-612 | What the use of a key is answered: the first of no key, no unrevoked row, inactive account, archived product, suspended resource, other service, other wallet id; otherwise the account, product and resource. |
| ProductOwners.RotationEffect | identity-billing-service/source/src/billing/billing.service.ts:491-517 | A rotation revokes the keys of its resource and no others and adds one live key; without the resource it does nothing. |
| ProductOwners.RevocationEffect | identity-billing-service/source/src/billing/billing.service.ts:537-542 | A revocation by id revokes that key and no other. |
| ProductOwners.ChangeEffect | identity-billing-service/source/src/billing/billing.service.ts:275-325 | A change of status, quota or plan changes just that. |
| Accounts.Catalogue | identity-billing-service/source/src/billing/plans.ts:15-52 | The limits that each plan brings, and nothing else. |
| Accounts.PlanNames | identity-billing-service/source/src/billing/plans.ts:79-87 | Which plan a name stands for; an unknown one is the free plan. |
| ProductRuns.StepKeepsInv | identity-billing-service/source/src/billing/billing.service.ts:275-517 | Every step keeps the invariant of the tables and of all calls in flight, a creation being split into the read of its account, its count, its product row, its resource row, its key row and the outcome of the provisioning, and the other calls at their reads and writes. |
| ProductRuns.RunKeepsInv | identity-billing-service/source/src/billing/billing.service.ts:834-859 | In every reachable database, with calls split like that and overlapping, (service, walletId) is unique, a product has at most one resource, references resolve and identifiers are not reused. |
| ProductRuns.StepArchivedExact | identity-billing-service/source/src/billing/billing.service.ts:365-453 | A step keeps every resource of an archived product suspended, or awaited by a call under way that will suspend it, if and only if it is none of these: a creation writing its resource row, or a provisioning that succeeds, behind the archiving; an archiving by the enforcement of a quota that read the product before it had its resource. |
| ProductRuns.StepOneLiveExact | identity-billing-service/source/src/billing/billing.service.ts:491-517 | A step keeps at most one unrevoked key a resource if and only if it is none of these, while the resource has a live key: the first key written by its creation, the new key written by a rotation, the row of a revoked key written back by a use that read it before. |
| ProductRuns.RunArchivedSuspended | identity-billing-service/source/src/billing/billing.service.ts:443-517 | So every run without such steps has both, and every serial run ends with archived products suspended and one live key a resource. |
| ProductStages.StagedCreation | identity-billing-service/source/src/billing/billing.service.ts:352-399 | With nothing in between, the stages of a creation do what the whole operation does, refusals and rollback included. |
| ProductStages.StagedRotation | identity-billing-service/source/src/billing/billing.service.ts:491-517 | Likewise the stages of a rotation: reading the live keys, revoking them one by one, writing the new one. |
| ProductStages.StagedPlan | identity-billing-service/source/src/billing/billing.service.ts:275-290 | Likewise a change of plan: reading the account, writing it, reading the surplus products with their resources, saving these one by one. |
| ProductStages.StagedChange | identity-billing-service/source/src/billing/billing.service.ts:302-325 | Likewise a change of status or quota: reading the account and writing it. |
| ProductStages.StagedArchiving | identity-billing-service/source/src/billing/billing.service.ts:443-453 | Likewise an archiving: reading the product, saving it, reading its resources, saving these one by one. |
| ProductStages.StagedUse | identity-billing-service/source/src/billing/billing.service.ts:559-593 | A use of a key that nothing overlaps leaves the tables as they are. |
| ProductOverlaps.LateFinishReachable | identity-billing-service/source/src/billing/billing.service.ts:381-393 | A run that ends with an archived product and an active resource. |
| ProductOverlaps.LateResourceReachable | identity-billing-service/source/src/billing/billing.service.ts:365-379 | A run that ends with an archived product and a pending resource. |
| ProductOverlaps.LateArchivingReachable | identity-billing-service/source/src/billing/billing.service.ts:905-920 | A run in which a change of plan reads a surplus product before its resource is written and archives it after, leaving the resource pending. |
| ProductOverlaps.LateKeyReachable | identity-billing-service/source/src/billing/billing.service.ts:841-859 | A run of a creation and a rotation that ends with two live keys of one resource. |
| ProductOverlaps.TwoRotationsReachable | identity-billing-service/source/src/billing/billing.service.ts:498-516 | A run of two overlapping rotations that ends with two live keys: the key of the first is served after the second has returned. |
| ProductOverlaps.RevivedReachable | identity-billing-service/source/src/billing/billing.service.ts:559-593 | A run of a use and a revocation of one key after which the revoked key is served. |
| ProductOverlaps.RevivedBesideReachable | identity-billing-service/source/src/billing/billing.service.ts:559-593 | A run of a use and a rotation after which the old key is live and served beside the new one. |
| ProductOverlaps.ReopenedReachable | identity-billing-service/source/src/billing/billing.service.ts:427-453 | A run of a creation, a patch and an archiving of one product after which the product is served. |
| ProductOverlaps.LostPlanReachable | identity-billing-service/source/src/billing/billing.service.ts:275-309 | A run in which a change of status undoes a change of plan. |
| ProductOverlaps.QuotaOverlapReachable | identity-billing-service/source/src/billing/billing.service.ts:363-372 | A run of three creations that ends with three active products on a quota of two. |
| ProductOverlaps.TakenReachable | identity-billing-service/source/src/billing/billing.service.ts:374-379 | A reachable database in which the next creation is admitted, refused for its taken wallet id, and leaves a product behind. |
| ProductQuota.PlanKeepsOldest | identity-billing-service/source/src/billing/billing.service.ts:275-299 | A plan change keeps exactly the oldest min(n, max) active products of the account in order, suspends the resources of the others and of nothing else, and leaves other accounts alone. |
| ProductQuota.EnforceKeepsOldest | identity-billing-service/source/src/billing/billing.service.ts:905-920 | The same for enforcing any quota, with none kept for one that is not positive. |
| ProductQuota.ArchiveStretch | identity-billing-service/source/src/billing/billing.service.ts:905-920 | Archiving a stretch of the active products one by one leaves the rest in order, for every stretch. |
| ProductQuota.StepQuotaExact | identity-billing-service/source/src/billing/billing.service.ts:275-325 | A step keeps the active products within the quota if and only if it is none of these: a write of the account, by an override or as read earlier, below their number; a creation that counted before the quota was filled and writes its product row now; a patch that writes a product back as active after it was archived and others filled the quota. |
| ProductQuota.RunWithinQuota | identity-billing-service/source/src/billing/billing.service.ts:275-325 | Over every run without such steps, so over every serial run without such an override, the bound holds, and a plan change by itself restores it after any run. |
| ProductQuota.RollbackRestores | identity-billing-service/source/src/billing/billing.service.ts:394-398 | Deleting the product row with its cascades undoes exactly what the creation added. |
| ProductQuota.CreateExact | identity-billing-service/source/src/billing/billing.service.ts:352-399 | A creation succeeds if and only if the account may create, the wallet id is well formed and free, and the remote service answers; a failed one leaves the tables as they were if and only if the account may not create, or the wallet id is well formed and free, and otherwise leaves one more active product. |
| ProductKeys.ValidateExact | identity-billing-service/source/src/billing/billing.service.ts:549-612 | A key is served if and only if it is unrevoked, its account active, its product not archived, its resource not suspended, and service and wallet id are the resource's own. |
| ProductKeys.StepDeadExact | identity-billing-service/source/src/billing/billing.service.ts:549-593 | A revoked or deleted key stays so through a step if and only if the step is not a use of the key writing back the row it read before. |
| ProductKeys.DeadForeverExactly | identity-billing-service/source/src/billing/billing.service.ts:549-593 | It is refused after every further run if and only if no such use is in flight with the row still there. |
| ProductKeys.RevokedForever | identity-billing-service/source/src/billing/billing.service.ts:537-542 | So a key revoked by id is refused after every further run if and only if no use of it is in flight or its row is gone. |
| ProductKeys.RotatedForever | identity-billing-service/source/src/billing/billing.service.ts:491-517 | After a rotation by itself every earlier key of the resource is refused after every further run if and only if no use of it is in flight. |
| ProductKeys.RotationRevokes | identity-billing-service/source/src/billing/billing.service.ts:498-504 | A key the resource has when a rotation begins is refused at every later moment at which the rotation no longer has it to revoke, whatever overlaps, unless a use of it writes its row back. |
| ProductKeys.RotationSpares | identity-billing-service/source/src/billing/billing.service.ts:498-504 | A rotation leaves every key it did not read as it is, so one written since it began survives. |
| ProductKeys.RotationEnds | identity-billing-service/source/src/billing/billing.service.ts:506-516 | At its end the live keys of the resource are those it left and its own. |
| ProductKeys.RotatedKeyServed | identity-billing-service/source/src/billing/billing.service.ts:506-516 | The new key is served under exactly the conditions of any key of the resource. |
| ProductKeys.ShutForever | identity-billing-service/source/src/billing/billing.service.ts:427-453 | After any further run no key reaches a product that is archived while no patch of it is in flight, or whose resources are suspended while its creation is over. |
| ProductKeys.ArchivedForever | identity-billing-service/source/src/billing/billing.service.ts:443-453 | So no key ever reaches a product once it is archived by itself, unless a patch and its own creation are both in flight. |
| ProductKeys.CreatedIsUsable | identity-billing-service/source/src/billing/billing.service.ts:381-393 | A created product is served at once with the key that was returned. |

## Left out

- TagQueryAgreement.AgreementExact: arrays are textual, and it leaves out several `$or` branches with a boolean in one of them beside faithful entries. There one branch may accept the records on which another differs, so whether the two agree on all records is whether one disjunction of conjunctions of any-of conditions implies another; `TagQuerySmallRecords.AgreementDecided` decides these queries by their small records, and `Agreement` says on which records the two agree.
- Query values other than texts, booleans and arrays of them: numbers and nested objects are not modelled.
- The deduplication of out-of-band records by recipient, where the two storages differ by design: listings are of other record types.
- Compression of status lists is taken to be invertible, with list length equal to capacity; the capacity is a parameter of a new list.
- Status list identifiers are identified with (wallet id, credential type), which is unique; two concurrent creations of one list are one creation.
- PendingProofStore.PendingDidCommProofStore.FindByPendingRequestId: the answers are stated while the clock never ran back, invitations were distinct and no empty exchange id was attached, as the service's own calls are; the new maps are stated for all calls.
- DidcommDriver.ExchangeStable: for the calls the service makes, where every report follows a handing out of its own.
- DidcommDriver.DidCommService.GetRequestByPendingId: the wallet and presentation calls behind the exchange's state are uninterpreted, and the time of creation and of the last update are left out.
- Timestamps `createdAt` and `updatedAt` of pending entries and challenge, domain and proof type fields, which nothing decides on.
- ProofHeader.CreateProof: reading the raw pointers is left out; the proof itself, signatures and hashing are uninterpreted, their outcome a parameter; machine integers are unbounded except the 16-bit count.
- DerSignature.ConversionCorrect: encodings whose total length needs the long form; signatures of the 256-bit curve never do.
- FixedWindow.PublicRateLimiter.Handle: one bucket; the keys of different buckets start with the bucket's name. Headers and the choice of the bucket are not modelled.
- Limits of several processes: the rate windows are those of one.
- MeteringOverlaps.BookedWithinQuota: for runs without an outdated save; the others can pass the quota.
- ProductRuns.StepKeepsInv: saving a row is taken to write back every column as it was read, and a save of a row that was deleted in the meantime to change nothing, though the storage layer would insert a product again. The check of a wallet id with the insertion of its resource is one step, which the unique constraint makes it; so are a revocation by id and the activation of a resource, which write one row whatever it held.
- ProductKeys.ShutForever: not stated the other way round; that a patch and a creation together can reopen a product is shown by a run.
- Products.BillingService.ValidateApiKey: usage figures and the time of last use in its answer; a raw key, its hash and its row's identifier are one number.
- Rows created within one clock tick: the order by creation time is the order of insertion.
- Ownership checks of the account-scoped rotation and revocation, product names, subscriptions and payment events: they add only easy members.
- Controllers, validation, logging, messaging, retries, schema creation and the user interface.
