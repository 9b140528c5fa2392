# WhatsApp import, routing and file formats: a verified model

This project models the parts of the server where a mistake loses or duplicates
customer data, and proves what they keep. To check it with Dafny 4.11:
`dafny verify dfyconfig.toml`.

**Import batches** (`Import*.dfy`). A batch of conversations is applied by any number
of workers that claim the batch row by compare-and-set, renew a lease, and commit one
conversation per transaction together with snapshots of what it found and what it
left. The database is a record of finite maps with its unique and foreign keys as a
predicate (`ImportTables`). `ImportApply` follows the transaction of one conversation;
`ImportEffect`, `ImportStored`, `ImportWritten`, `ImportContents` and `ImportAccepts`
say what a commit may change, what it must have written, and when it succeeds;
`ImportRollback`, `ImportInverse`, `ImportBlockers`, `ImportForeign` and
`ImportUnblocked` are the rollback, its blockers, and what becomes of the writes of
others;
`ImportProtocol` is the state machine of all workers, with a clock reading in every
event; `ImportSafety` and `ImportGuarantees` prove what holds in every run.
`ImportStore` has the loops that change the tables, and `ConcurrentMap` the bounded
pool that runs the rows. `ImportedState` joins the importer with the conversation
matrix.

**History import** (`ChunkedUpload`, `HistoryStream`, `HistoryChunks`, `HistoryPhones`,
`HistoryPreview`, `MessageIdentity`, `MediaMatching`, `MediaGuarantees`,
`MediaPreview`). Resumable uploads that may die between the append and the metadata,
the segmentation of one stream of messages into chunks, the identity of messages across
exports, and the matching of media files to messages.

**Formats** (`Bytes`, `Layout`, `Text`, `DirectoryWalk`, `ZipPreflight`, `ZipWriter`,
`PdfText`, `PdfWriter`, `PdfReader`, `Doubles`, `Protobuf`, `Crypt15`, `ByteScan`,
`JpegImage`, `WebpImage`, `ProfileImage`). Readers are proved against writers that are
written independently of them, and the PDF writer against a reader.

**Routes** (`RouteTimes`, `RouteOrder`, `RoutePlan`, `RouteConservation`), the
**conversation matrix and its driver** (`ConversationMatrix`, `AutomationFlow`), and the
**metrics buffer** (`UsageRecorder`).

Eight results are about inputs for which the code does not do what its form suggests.
Each has its exact condition beside it: `ImportTables.NullStructuredDataIsLost`
(`RestoreQuoteExact`), `ImportForeign.ForeignQuoteUnseen` (an iff itself),
`ImportUnblocked.WrittenBackUnseen` (`TwiceMeansLowered`, `UnblockedMeansDistinct`),
`ChunkedUpload.TornIsStuck` (`TornByCrash`), `HistoryPhones.SpellingsMeet`
(`RowsSeparateIff`), `MediaGuarantees.ShortcutMisses` (`AlwaysAttachedIff`),
`JpegImage.TrailingFillRunsOut` (`InspectJpeg`) and `AutomationFlow.MenuTextAgreesIff`.

Where a program loops over variables there is a method with that loop, proved equal to
a function of its inputs; the lemmas are about those functions. A row of such a method
therefore says which function that is, and the rows below it say what is proved of the
function.

## Model

| member | source | states |
|---|---|---|
| ImportTables.RestoreConversationExact | src/infra/imports/whatsapp-import.service.ts:4266-4303 | Restoring a conversation from its snapshot gives back exactly the earlier row, whatever the snapshot columns hold now, if and only if channel and contact are still those of the earlier row |
| ImportTables.RestoreQuoteExact | src/infra/imports/whatsapp-import.service.ts:4306-4381 | Restoring a quote is exact if and only if the earlier row has non-null structured data and date-only values at UTC midnight |
| ImportTables.NullStructuredDataIsLost | src/infra/imports/whatsapp-import.service.ts:4354 | A quote whose structured data was null comes back with an empty object instead |
| ImportEffect.ApplyEffect | src/infra/imports/whatsapp-import.service.ts:2687-3348 | Every committed conversation keeps all unique and foreign keys, appends one record, and changes only the contact, the conversation, the quote, the messages, documents and references that this record names; the snapshots are the rows found and the rows left |
| ImportAccepts.NewRowIsApplied | src/infra/imports/whatsapp-import.service.ts:2687-3348 | A row whose phone, references, messages and documents are all new is committed, with the contact and the conversation recorded as created: none of the transaction's checks and unique keys stands in its way |
| ImportStored.ApplyStores | src/infra/imports/whatsapp-import.service.ts:3047-3190 | After a commit each message row has a reference with its payload that points to a message of the conversation; a message that had no reference before has the content of its row |
| ImportWritten.LastOccurredIs | src/infra/imports/whatsapp-import.service.ts:2837-2846 | The last inbound or outbound time is that of the last such message of the row, or the one known before when there is none |
| ImportWritten.ApplyWrites | src/infra/imports/whatsapp-import.service.ts:2840-3290 | After a commit the conversation has the state, step, status and times of its row, a higher version and nothing to resume; the quote the row addresses has the row's columns and days, keeps the JSON keys the importer does not own, and a confirmed one has its own version and a summary that repeats its columns; each document is stored with its quote, also when a row repeats an earlier one |
| ImportContents.ApplySays | src/infra/imports/whatsapp-import.service.ts:3160-3290 | Every reference that a commit adds leads to a message or a document with the content of the payload it was made for |
| ImportedState.ImportedConversationsGoOn | src/infra/imports/whatsapp-import.service.ts:138-162 | A row whose state is one of the accepted combinations leaves a database row with exactly that state, and every run of the matrix from it stays consistent and never makes the driver plan a refused transition |
| ImportStore.Transaction.PlanCreation | src/infra/imports/whatsapp-import.service.ts:3041-3160 | The loop over message rows plans, skips or stops as `PlanMessages` does, with the first error of the rows in their order |
| ImportStore.Transaction.Rollback | src/infra/imports/whatsapp-import.service.ts:4142-4218 | The rollback transaction undoes all records or leaves the tables as they were with the first error |
| ImportStore.UndoAll | src/infra/imports/whatsapp-import.service.ts:4194-4196 | Undoing records one after the other succeeds with the tables after all of them, or reports the first record that cannot be undone |
| ImportRollback.LaterCommitChangesSnapshot | src/infra/imports/whatsapp-import.service.ts:3790-3889 | When two records of a batch are about one conversation, the after-snapshot of the earlier one no longer matches |
| ImportRollback.NoBlockersMeansDistinct | src/infra/imports/whatsapp-import.service.ts:3790-3889 | When nothing blocks the rollback, all records of the batch are about different conversations |
| ImportInverse.RollbackMixture | src/infra/imports/whatsapp-import.service.ts:3948-4058 | After any number of undone records, in any order, each row is either that of before the batch or that of after it, according to the records undone |
| ImportInverse.RollbackInvertsApply | src/infra/imports/whatsapp-import.service.ts:3948-4058 | If the blockers of an applied batch are empty, undoing all its records in any order succeeds and gives back exactly the contacts, conversations, quotes, messages, documents and references of before |
| ImportBlockers.UnblockedIff | src/infra/imports/whatsapp-import.service.ts:3790-3889 | While only the importer writes, there are no blockers if and only if the records are about different conversations and none of those had activity after the cutoff |
| ImportForeign.UndoesWhateverHappened | src/infra/imports/whatsapp-import.service.ts:3948-4058 | Whatever anyone wrote since: undoing a record either fails, or takes away exactly the rows it created and what hangs on a created quote or conversation, and keeps every other contact, conversation, quote, message, document, transition and reference unchanged; restored conversations, contacts and quotes have their before-snapshot, a quote if and only if its structured data was not null and its sequence is the same |
| ImportForeign.RollsBackWhateverHappened | src/infra/imports/whatsapp-import.service.ts:4142-4218 | The same for a whole batch in any order: a row is gone if and only if some record takes it away, is unchanged unless a record names it, and what a record restores and no later one names has its before-snapshot |
| ImportForeign.CommitsAreTaken | src/infra/imports/whatsapp-import.service.ts:415-531 | Every record that a commit writes has snapshots of the form that the results about the writes of others ask for, and a created conversation is its own |
| ImportForeign.UnblockedLosesOldOnly | src/infra/imports/whatsapp-import.service.ts:3790-3889 | When nothing blocks, the messages, transitions and documents that a rollback takes from others with a created conversation are not newer than the cutoff |
| ImportForeign.ForeignQuoteUnseen | src/infra/imports/whatsapp-import.service.ts:3828-3853 | A quote that someone adds under a sequence no record read changes no blocker, and is taken away if and only if the batch created its conversation (or named the quote as created) |
| ImportUnblocked.UnblockedMeansDistinct | src/infra/imports/whatsapp-import.service.ts:3790-3889 | With others writing between the commits and the rollback: as long as they lower no version of a conversation and give no identifier to another row, empty blockers mean that all records are about different conversations |
| ImportUnblocked.TwiceMeansLowered | src/infra/imports/whatsapp-import.service.ts:3833-3853 | Two records of one conversation both pass the snapshot comparison only if someone lowered its version, to one less than the first commit had left |
| ImportUnblocked.WrittenBackUnseen | src/infra/imports/whatsapp-import.service.ts:3833-3853 | That can happen: when everything is put back between two commits, the second may leave the same rows, and is then blocked by nothing more than the first |
| ImportUnblocked.UnblockedRestoresAll | src/infra/imports/whatsapp-import.service.ts:4142-4218 | Under the same fairness of others, an unblocked rollback that succeeds takes away exactly the rows of its records with what hangs on them, and every row that any record restores has its before-snapshot |
| ImportSafety.StatusMoves | src/infra/imports/whatsapp-import.service.ts:2238-2342 | No step of any worker takes a batch from APPLIED to APPLYING, and none changes a batch that is ROLLED_BACK |
| ImportSafety.OnlyTheHolderMoves | src/infra/imports/whatsapp-import.service.ts:2496-2543 | Only the worker whose claim is stored takes a batch out of APPLYING or APPLIED |
| ImportSafety.SupersededIsHarmless | src/infra/imports/whatsapp-import.service.ts:2373-2398 | A worker whose claim was taken over cannot change the batch row any more, by no step |
| ImportSafety.LeaseExcludes | src/infra/imports/whatsapp-import.service.ts:2286-2342 | While a lease has not run out by the clock of the claimant, no claim succeeds |
| ImportSafety.ClaimStep | src/infra/imports/whatsapp-import.service.ts:2286-2342 | Every step keeps that claims are drawn before they are used, that no two workers own one claim, and that a failed or rolled-back batch is unclaimed |
| ImportSafety.StepInv | src/infra/imports/whatsapp-import.service.ts:2184-2545 | Every step of every worker keeps that the tables are explained by the commits of the batch, one per record, or equal the tables of before after a rollback |
| ImportSafety.RunInv | src/infra/imports/whatsapp-import.service.ts:2184-2545 | That explanation holds after every run, for every interleaving, clock and crash |
| ImportSafety.RecordedRowsAbort | src/infra/imports/whatsapp-import.service.ts:3300-3320 | Once a conversation has its record, a second transaction for it aborts on the record's unique key |
| ImportGuarantees.AppliedExactlyOnce | src/infra/imports/whatsapp-import.service.ts:2399-2463 | Whatever earlier or overlapping attempts committed, an APPLIED batch has exactly one record for each row, applied, with all messages and documents of the row stored in its conversation, as the row has them unless they were referenced before the batch, and no external message stored twice |
| ImportGuarantees.RolledBackRestores | src/infra/imports/whatsapp-import.service.ts:4060-4243 | In every run, a batch that is ROLLED_BACK leaves the tables as they were before it |
| ImportGuarantees.RolledBackForever | src/infra/imports/whatsapp-import.service.ts:4060-4243 | After a rollback nothing that late workers do, late commits included, changes the batch or the tables |
| ImportGuarantees.NeverAppliedAgain | src/infra/imports/whatsapp-import.service.ts:2238-2342 | An APPLIED batch stays so or is rolled back, whatever follows |
| ImportGuarantees.ClaimsOfReachable | src/infra/imports/whatsapp-import.service.ts:2526-2543 | In every reachable state a FAILED or ROLLED_BACK batch has no claim, an APPLYING one has, and no two workers share one |
| ImportGuarantees.AllowedApplyTakesOver | src/infra/imports/whatsapp-import.service.ts:2286-2342 | A batch that is new, failed, or left APPLYING with a lease that has run out is claimed by the next worker, which changes no other table |
| ImportGuarantees.ResumeSucceeds | src/infra/imports/whatsapp-import.service.ts:2238-2519 | From every reachable state whose batch is new, failed or left with a lapsed lease, a fresh worker for whom the remaining rows' transactions succeed has a run that ends APPLIED with exactly one record for each row, skipping what was committed before |
| ImportGuarantees.UnblockedRollbackSucceeds | src/infra/imports/whatsapp-import.service.ts:4142-4218 | In every reachable state, a claimed rollback without blockers ends ROLLED_BACK with the tables of before |
| ConcurrentMap.RunSound | src/infra/imports/whatsapp-import.service.ts:230-260 | In every interleaving of the pool's workers, rows are taken in order, no two workers handle one row, and each taken row is at one worker, has its own result or has failed |
| ConcurrentMap.TakenOnce | src/infra/imports/whatsapp-import.service.ts:238-250 | A worker takes only a row that was never taken, and none after an error |
| ConcurrentMap.AllResults | src/infra/imports/whatsapp-import.service.ts:251-260 | When all workers have stopped without an error, the results are those of all rows |
| Layout.Chunks | src/infra/imports/whatsapp-import.service.ts:210-216 | The slices together are all rows in order; each is non-empty and all but the last are full |
| ChunkedUpload.Upload.Take | src/infra/imports/whatsapp-history-import.service.ts:1540-1652 | A chunk call leaves the file and the metadata as `AddChunk` says, also when the call dies in or after the append |
| ChunkedUpload.Upload.Close | src/infra/imports/whatsapp-history-import.service.ts:1667-1726 | A completion call leaves the upload as `CompleteUpload` says |
| ChunkedUpload.RunBounded | src/infra/imports/whatsapp-history-import.service.ts:1629-1646 | After any sequence of calls and crashes the received bytes never exceed the declared size |
| ChunkedUpload.ArchiveGrows | src/infra/imports/whatsapp-history-import.service.ts:1640-1646 | Over any run, what was stored at any moment is a beginning of what is stored later, and the received count never falls |
| ChunkedUpload.ReplayChangesNothing | src/infra/imports/whatsapp-history-import.service.ts:1597-1628 | A repeated chunk that is accepted changes nothing and repeats bytes that are stored at its place |
| ChunkedUpload.RetryAccepted | src/infra/imports/whatsapp-history-import.service.ts:1597-1628 | A chunk inside the received part is accepted if and only if it has the stored bytes |
| ChunkedUpload.ArchiveIsPrefix | src/infra/imports/whatsapp-history-import.service.ts:2006-2122 | When all chunks are slices of one file, in any order and with any crash, the stored bytes are a beginning of it |
| ChunkedUpload.CompletedIsWhole | src/infra/imports/whatsapp-history-import.service.ts:1667-1726 | Completion succeeds only when exactly the declared bytes are stored, with the declared checksum |
| ChunkedUpload.CompletedIsSource | src/infra/imports/whatsapp-history-import.service.ts:2124-2195 | When all chunks are slices of one file, what is completed is that file |
| ChunkedUpload.InOrderCompletes | src/infra/imports/whatsapp-history-import.service.ts:1540-1652 | Slices of any permitted sizes sent in order are all accepted and make the upload complete |
| ChunkedUpload.TornByCrash | src/infra/imports/whatsapp-history-import.service.ts:1640-1646 | File and metadata come apart exactly by a crash that had appended part of the next chunk |
| ChunkedUpload.TornIsStuck | src/infra/imports/whatsapp-history-import.service.ts:1591-1596 | After an upload came apart, over every run that follows: its bytes and its count stay, and every chunk and every completion is rejected |
| HistoryStream.GroupRows | src/infra/imports/whatsapp-android-backup.ts:550-584 | The groups, laid out again, are the rows in their order; groups are non-empty and neighbours differ in phone |
| HistoryStream.OneGroupEach | src/infra/imports/whatsapp-android-backup.ts:547-584 | When the rows of a phone stand together, each phone has one group |
| HistoryStream.CollectChunks | src/infra/imports/whatsapp-history-import.service.ts:2943-3048 | The loops over conversations and offsets, with their flushes, yield `ChunksOf` |
| HistoryChunks.ChunksKeepAll | src/infra/imports/whatsapp-history-import.service.ts:3000-3048 | The chunks one after the other are exactly the wanted messages of the stream in their order, each with its conversation |
| HistoryChunks.ChunksBounded | src/infra/imports/whatsapp-history-import.service.ts:3005-3044 | No chunk is empty or above the configured size |
| HistoryChunks.ChunksAreSeparate | src/infra/imports/whatsapp-history-import.service.ts:3005-3048 | When conversations have different keys, no chunk has two segments of one conversation |
| HistoryChunks.SeparateIff | src/infra/imports/whatsapp-history-import.service.ts:2632-2673 | For conversations with messages, that holds for all filters and sizes if and only if their keys are different |
| HistoryPhones.NormalisedAgainIff | src/shared/utils/normalization.ts:41-71 | A normal form has twelve to fifteen digits, and is its own normal form if and only if it does not start with a zero |
| HistoryPhones.SpellingsAgree | src/shared/utils/normalization.ts:41-71 | Every Brazilian mobile number has one normal form with and without its ninth digit |
| HistoryPhones.ReadConversations | src/infra/imports/whatsapp-android-backup.ts:434-586 | The stream yields the groups of the rows as conversations named by the normal form of their phone, and fails if and only if some row's phone has none |
| HistoryPhones.RowsReachChunks | src/infra/imports/whatsapp-android-backup.ts:550-584 | From the rows of the backup to the chunks of the import nothing wanted is lost, added or reordered, for every filter and size, and each message carries the normal form of its row's phone |
| HistoryPhones.RowsSeparateIff | src/infra/imports/whatsapp-history-import.service.ts:3000-3048 | For rows in the order of their phones: no chunk ever has two segments of one conversation, for all filters and sizes, if and only if different phones among the rows have different normal forms |
| HistoryPhones.SpellingsMeet | src/infra/imports/whatsapp-android-backup.ts:434-438 | Two rows of one mobile number, stored without and with its ninth digit, come into one chunk as two segments of one conversation, whatever the number |
| HistoryPreview.Compare | src/infra/imports/whatsapp-history-import.service.ts:2479-2581 | The loops over chunks, segments and messages count as `CountAll` does over the stream |
| HistoryPreview.CountsAddUp | src/infra/imports/whatsapp-history-import.service.ts:2500-2581 | Existing, new and divergent messages add up to the messages with an external id, and the new ids are listed in order |
| HistoryPreview.FailsIffGone | src/infra/imports/whatsapp-history-import.service.ts:2500-2581 | The preview fails if and only if some divergent message is no longer stored |
| HistoryPreview.ChunkingDoesNotCount | src/infra/imports/whatsapp-history-import.service.ts:2632-2673 | The totals do not depend on the size of the chunks |
| HistoryPreview.TakesTheNew | src/infra/imports/whatsapp-history-import.service.ts:2990-3030 | The import takes a previewed message if and only if the preview found it new |
| HistoryPreview.ImportTakesNewOnly | src/infra/imports/whatsapp-history-import.service.ts:2943-3048 | The chunks that are imported are, in order, exactly the messages that the preview found new |
| MessageIdentity.Identify | src/infra/imports/whatsapp-export-workbook.ts:50-87 | The loop gives each message its own id or its signature with the number of equal ones before it |
| MessageIdentity.IdsDiffer | src/infra/imports/whatsapp-export-workbook.ts:50-87 | Without own ids, different positions have different ids |
| MessageIdentity.IdsAreCopies | src/infra/imports/whatsapp-export-workbook.ts:50-87 | The ids are exactly the numbered copies of the signatures, so they depend on their multiset only |
| MessageIdentity.ContainsIff | src/infra/imports/whatsapp-export-workbook.ts:50-87 | One export has all ids of another if and only if it has all its signatures as often |
| MessageIdentity.PreviouslyImported | src/infra/imports/whatsapp-history-import.service.ts:3175-3231 | An archive is skipped if and only if it is mapped, not empty, and all its ids are referenced |
| MessageIdentity.SkippedIff | src/infra/imports/whatsapp-history-import.service.ts:3175-3231 | After an import, a later export is skipped if and only if it is not empty and brings no message more than the earlier one |
| MediaMatching.AttachArchive | src/infra/imports/whatsapp-android-media-import.service.ts:672-840 | The scan, with its pending batch, yields `Batches` and counts ambiguous and oversized files as `ScanOf` does |
| MediaMatching.MatchSound | src/infra/imports/whatsapp-android-media-import.service.ts:940-973 | A match has only different candidates of the list that are still free, each with the hash of the file or with none recorded |
| MediaMatching.HashMatches | src/infra/imports/whatsapp-android-media-import.service.ts:940-973 | Every free candidate with the hash of the file is matched |
| MediaGuarantees.AttachedOnce | src/infra/imports/whatsapp-android-media-import.service.ts:672-840 | Over a whole archive each candidate is attached at most once, to an eligible file, and one with a recorded hash to bytes of that hash only |
| MediaGuarantees.BatchesAreSmall | src/infra/imports/whatsapp-android-media-import.service.ts:820-840 | No batch is empty, has more jobs than run at a time, or has more bytes than one file may have |
| MediaGuarantees.AlwaysAttachedIff | src/infra/imports/whatsapp-android-media-import.service.ts:779-820 | A candidate with a recorded hash is attached whatever other candidates there are, if and only if a file of allowed size with its content has its path or its name, or neither its path nor its name is in the archive |
| MediaGuarantees.FindableIsAttached | src/infra/imports/whatsapp-android-media-import.service.ts:779-820 | Under that condition it is attached from every list of candidates with different ids |
| MediaGuarantees.AttachedIffOpened | src/infra/imports/whatsapp-android-media-import.service.ts:789-801 | In any list of candidates, one with a recorded hash is attached if and only if a file with its content passes the shortcut when its turn comes |
| MediaGuarantees.FoundByContentIff | src/infra/imports/whatsapp-android-media-import.service.ts:779-820 | A candidate whose path and name are both absent is attached if and only if some file of allowed size has its hash |
| MediaGuarantees.AttachedIffMatched | src/infra/imports/whatsapp-android-media-import.service.ts:789-820 | In any list of candidates, any candidate, with a recorded hash or without, is attached if and only if a file that is opened in its turn matches it |
| MediaGuarantees.UnhashedAlwaysAttachedIff | src/infra/imports/whatsapp-android-media-import.service.ts:940-973 | A candidate without a recorded hash is attached whatever other candidates there are, if and only if a file of allowed size has its path |
| MediaGuarantees.UnhashedAloneIff | src/infra/imports/whatsapp-android-media-import.service.ts:940-973 | Alone in the list it is attached if and only if a file of allowed size has its path or its name |
| MediaGuarantees.ShortcutMisses | src/infra/imports/whatsapp-android-media-import.service.ts:795-801 | Whenever the name stands on other content and the content under another path and name, a candidate alone in the list is not attached, although opening that file would match it |
| MediaPreview.PreviewArchive | src/infra/imports/whatsapp-android-media-import.service.ts:516-601 | Stored, new and missing add up to the distinct references, and new are those that the loop over files matched |
| MediaPreview.NewByPath | src/infra/imports/whatsapp-android-media-import.service.ts:568-579 | A pending reference whose path is in the archive counts as new; one whose path and name are absent does not |
| MediaPreview.MoreFilesMissLess | src/infra/imports/whatsapp-android-media-import.service.ts:545-601 | Files added at the end of an archive never turn a new reference into a missing one, and the missing ones are as many as the preview counts |
| ZipPreflight.FindEndRecord | src/infra/imports/whatsapp-import-package.ts:108-141 | The end record that is found is the last complete one whose comment closes the buffer; none is found only when there is none |
| ZipPreflight.Preflight | src/infra/imports/whatsapp-import-package.ts:108-312 | The verdict is that of the last end record; a buffer without one is refused |
| ZipPreflight.CheckArchive | src/infra/imports/whatsapp-import-package.ts:142-312 | The checks behind the end record give `Verdict`, with the first error of the code's order |
| ZipPreflight.CheckEntries | src/infra/imports/whatsapp-import-package.ts:181-312 | The loop over the records yields `WalkDirectory` and never reads outside the buffer |
| ZipPreflight.CheckPasses | src/infra/imports/whatsapp-import-package.ts:185-310 | The checks on one record pass if and only if it is a sound record whose name is new and whose size is within the rest of the limit |
| ZipPreflight.AcceptsIffSound | src/infra/imports/whatsapp-import-package.ts:108-312 | An archive is accepted if and only if its records tile the directory, names are distinct and safe, each entry's data lies before the directory, and the total expansion is within the limit |
| ZipWriter.AcceptsWritten | src/infra/imports/whatsapp-import-package.ts:108-312 | Every stored-only archive laid out by a plain writer after sections 4.3.7, 4.3.12 and 4.3.16 of APPNOTE.TXT, within the limits and with safe names, is accepted |
| DirectoryWalk.WalkFinds | src/infra/imports/whatsapp-import-package.ts:181-312 | A walk that succeeds has found records laid end to end with distinct names and their exact total |
| DirectoryWalk.WalkFollows | src/infra/imports/whatsapp-import-package.ts:181-312 | Records laid end to end, distinct and within the limit, make the walk succeed |
| PdfText.ReadsEscaped | src/infra/routing/route-export.service.ts:230-235 | A reader of literal strings (section 7.3.4.2 of ISO 32000-1) gets back exactly the text that was escaped |
| PdfText.EscapePdfPrintable | src/infra/routing/route-export.service.ts:223-235 | Text and escaped text are printable ASCII only |
| PdfWriter.BasicPdf | src/infra/routing/route-export.service.ts:237-292 | The loops write `File` of `Objects` of the paginated report |
| PdfWriter.Paginate | src/infra/routing/route-export.service.ts:238-242 | The loop yields `Pages` |
| PdfWriter.PagesCarryLines | src/infra/routing/route-export.service.ts:238-242 | The pages carry all lines in order on max(1, ceil(n / 44)) pages, all but the last full |
| PdfWriter.BuildObjects | src/infra/routing/route-export.service.ts:243-277 | Adding objects and filling in the catalog and the page tree at the end yields `Objects` |
| PdfWriter.LayOut | src/infra/routing/route-export.service.ts:278-291 | Growing the body and the offsets yields `File` |
| PdfReader.TableFound | src/infra/routing/route-export.service.ts:284-290 | `startxref` is the byte position of the table, and the table has one entry more than there are objects |
| PdfReader.EntryWidth | src/infra/routing/route-export.service.ts:286-289 | A table entry has its 20 bytes if and only if its offset has at most ten digits |
| PdfReader.ObjectFound | src/infra/routing/route-export.service.ts:278-291 | Entry i of the table leads to `i 0 obj` with the body of object i |
| PdfReader.StreamRead | src/infra/routing/route-export.service.ts:267-269 | The declared length of a stream is the length of its content |
| PdfReader.KidsRead | src/infra/routing/route-export.service.ts:276-277 | The page tree gives back its kids, as many as it counts |
| PdfReader.ContentRead | src/infra/routing/route-export.service.ts:253-266 | The texts of a page's operators are its title, its lines cut to 120 characters, and its number |
| PdfReader.ReadsReport | src/infra/routing/route-export.service.ts:237-292 | A reader that follows `startxref`, the table, the catalog, the page tree, the pages and their streams gets back every page with its texts in order |
| Protobuf.ReadVarint | src/infra/imports/whatsapp-crypt15.ts:43-58 | The loop reads what `VarintAt` defines, least significant group first |
| Protobuf.VarintRoundTrip | src/infra/imports/whatsapp-crypt15.ts:43-58 | An encoded number is read back with its end if and only if it is below 2^70, else the input is refused; so every 64-bit number is read back |
| Protobuf.VarintAdvances | src/infra/imports/whatsapp-crypt15.ts:43-58 | Reading moves forward by at most ten bytes, stays in the input, and the value fits the bytes read |
| Protobuf.ProtobufFields | src/infra/imports/whatsapp-crypt15.ts:60-110 | The loop over fields yields `FieldsFrom` the start |
| Protobuf.FieldAdvances | src/infra/imports/whatsapp-crypt15.ts:60-110 | Every field moves forward strictly and ends in the input |
| Doubles.NearestIsNearest | src/infra/imports/whatsapp-crypt15.ts:66 | The conversion of a field number yields a double (a number below 2^53 times a power of two), and no double is nearer |
| Doubles.TiesToEven | src/infra/imports/whatsapp-crypt15.ts:66 | Of two doubles that are equally near, the one that is an even multiple of their distance is taken |
| Doubles.NearestIff | src/infra/imports/whatsapp-crypt15.ts:66 | A number stays as it is if and only if it is a double, as every number below 2^53 is |
| Protobuf.FieldsRoundTrip | src/infra/imports/whatsapp-crypt15.ts:60-110 | Every list of varint, length-delimited and fixed-width fields with numbers below 2^67 is read back, without the fixed-width ones and with each number rounded to a double as the code rounds it |
| Protobuf.FieldsReadExactlyIff | src/infra/imports/whatsapp-crypt15.ts:60-110 | The fields come back exactly as written if and only if the number of every kept field is a double |
| Protobuf.NeverStartsWithOne | src/infra/imports/whatsapp-crypt15.ts:112-130 | No list of fields that parses starts with byte 1, so the optional flag is never ambiguous |
| Crypt15.ParseCrypt15Header | src/infra/imports/whatsapp-crypt15.ts:112-148 | The header parser yields `HeaderOf` |
| Crypt15.ListFound | src/infra/imports/whatsapp-crypt15.ts:112-148 | A list of fields behind its length is found with or without the flag, and decides the outcome |
| Crypt15.HeaderRoundTrip | src/infra/imports/whatsapp-crypt15.ts:112-148 | The vector and the start of the data are recovered from every header that is written, with or without the flag |
| JpegImage.InspectJpeg | src/domain/profile/profile-image.ts:43-74 | The loops, with reads that may fall behind the array, yield `SizeOf`; a byte behind the array is read if and only if the scan reaches an offset from which only fill bytes follow |
| JpegImage.RunsOutHasNoSize | src/domain/profile/profile-image.ts:54-55 | An image that is read past its end never yields a size |
| JpegImage.TrailingFillRunsOut | src/domain/profile/profile-image.ts:54-55 | Every image of at least ten bytes that is nothing but fill bytes behind its first marker is read past its end |
| JpegImage.SizeFound | src/domain/profile/profile-image.ts:43-74 | Behind any number of skippable pieces (stray bytes, standalone markers, segments, each with fill bytes) the result is the size in the first frame header (sections B.1.1.4 and B.2.2 of ITU-T T.81) |
| WebpImage.InspectWebp | src/domain/profile/profile-image.ts:76-136 | The loop over chunks stays in the array and yields `WebpSize` |
| WebpImage.WebpSizeFound | src/domain/profile/profile-image.ts:76-136 | Behind any number of padded chunks the result is the size of the first image chunk; files under 30 bytes are refused (section 2.3 of RFC 9649) |
| WebpImage.ExtendedSays | src/domain/profile/profile-image.ts:92-106 | The extended header gives the width and height that were written into it, up to 2^24 |
| WebpImage.LossySays | src/domain/profile/profile-image.ts:107-119 | The lossy header gives the 14-bit sizes, whatever the scale bits are |
| WebpImage.LosslessSays | src/domain/profile/profile-image.ts:120-131 | The lossless header gives the two sizes packed over four bytes |
| ProfileImage.InspectProfileImage | src/domain/profile/profile-image.ts:138-142 | The first format that fits decides, as `MetadataOf` says |
| ProfileImage.KindsAreApart | src/domain/profile/profile-image.ts:138-142 | A file that one inspector accepts is recognised as that format, so the order of the inspectors does not matter |
| ProfileImage.PngSizeFound | src/domain/profile/profile-image.ts:21-41 | The size written into a PNG header is found |
| RouteTimes.TimeOfMinutes | src/infra/routing/routing-agent.service.ts:89-97 | Writing the minutes of any valid HH:mm gives the same time back |
| RouteTimes.MinutesOfTime | src/infra/routing/routing-agent.service.ts:89-97 | Every written time is valid and is the rounded minute modulo a day, also for negative minutes |
| RouteTimes.StopsInTime | src/infra/routing/routing-agent.service.ts:368-379 | Before midnight wrap, stop times do not decrease and lie between the departure and three minutes before the arrival |
| RouteOrder.OrderPoints | src/infra/routing/routing-agent.service.ts:99-122 | The loops yield `Ordered`, the greedy order numbered from 1 |
| RouteOrder.GreedyIsPermutation | src/infra/routing/routing-agent.service.ts:99-122 | Every point is served exactly once |
| RouteOrder.PickIsNearest | src/infra/routing/routing-agent.service.ts:104-116 | Each pick has the smallest distance among the remaining points with coordinates, the first of equals; without a known position or any coordinates it is the first point |
| RouteOrder.EachIsNearest | src/infra/routing/routing-agent.service.ts:99-122 | Each stop is at least as near to the last known position as every later stop with coordinates, and a stop without coordinates comes before none that has them, once a position is known |
| RoutePlan.Calculate | src/infra/routing/routing-agent.service.ts:188-399 | The loops over candidates, points and assignments yield `PlanOf` |
| RoutePlan.ReadyIff | src/domain/routing/route.ts:293-306 | A candidate is ready if and only if it is active and registered and, where documents are required, has every required one |
| RouteConservation.TakenOrLeftOverIff | src/infra/routing/routing-agent.service.ts:211-260 | A candidate's turn ends in assignment or overflow if and only if it is active, registered and documented; everybody else is pending |
| RouteConservation.AssignmentPlaced | src/infra/routing/routing-agent.service.ts:208-351 | Each candidate gets one assignment with the status of its turn, an assigned one at a point that is open by then; a passenger without a company point walks exactly when it may and a point opened before is in reach, and then within the limit |
| RouteConservation.AssignedBoard | src/infra/routing/routing-agent.service.ts:353-361 | In the final plan every candidate has exactly its assignment, and an assigned one boards at a point of the plan with that point's final sequence as boarding order |
| RouteConservation.StopsServed | src/infra/routing/routing-agent.service.ts:353-361 | Every point has its number and a passenger who boards there |
| RouteConservation.PlanTakes | src/infra/routing/routing-agent.service.ts:249-260 | The passengers taken are the minimum of the capacity and the candidates with complete data and documents |
| RouteConservation.PlanOverflows | src/infra/routing/routing-agent.service.ts:380-396 | The overflow count of a plan is the ready candidates less the minimum of capacity and ready, and positive if and only if more are ready than the vehicle holds |
| RouteConservation.OverflowOnlyWhenFull | src/infra/routing/routing-agent.service.ts:249-260 | Some candidate's turn ends in overflow if and only if more are ready than the vehicle holds, and then it is full |
| RouteConservation.StopsOnTime | src/infra/routing/routing-agent.service.ts:368-379 | The points of a plan carry the times of `StopsInTime` |
| ConversationMatrix.RunConsistent | src/domain/whatsapp/conversation-transition.matrix.ts:107-458 | In every run from a fresh or importable state: closed state iff closed step, human state iff human step, and each quote step only with its status |
| ConversationMatrix.NeverStartsOver | src/domain/whatsapp/conversation-transition.matrix.ts:107-458 | Once left, the status not-started is not reached again by any run |
| ConversationMatrix.ImportedSummaryNotResumed | src/domain/whatsapp/conversation-transition.matrix.ts:414-431 | No actor can take an imported state through resume-awaited-reply, because an import leaves nothing to resume |
| ConversationMatrix.ReturnsWhereItWas | src/domain/whatsapp/conversation-transition.matrix.ts:80-105 | After any number of take-over, forward and mark-read, a take-over and return to the bot are permitted and land on the bot step of the original state with its status |
| ConversationMatrix.HandedUntilReturned | src/domain/whatsapp/conversation-transition.matrix.ts:326-363 | From a take-over until a return to the bot or a reopening, no run leaves human hands or the closed state |
| AutomationFlow.PlanPermitted | src/domain/whatsapp/whatsapp-automation-flow.ts:278-450 | In a consistent state, no plan names a transition that the matrix refuses to the system, and none names two |
| AutomationFlow.RunsPermitted | src/domain/whatsapp/whatsapp-automation-flow.ts:278-450 | In every run, every planned transition is permitted, given that a first contact or a reopened conversation without a menu stands at the main menu |
| AutomationFlow.SilentUntilReturned | src/domain/whatsapp/whatsapp-automation-flow.ts:294-323 | From a take-over until a return to the bot or a reopening, no message makes the bot answer |
| AutomationFlow.MenuTextAgreesIff | src/domain/whatsapp/whatsapp-automation-flow.ts:698-755 | The menu sent on option 1 is that of the step reached if and only if the status is not-started, or there is a quote and it is followed up |
| UsageRecorder.Service.Record | src/modules/administration/api-usage-recorder.service.ts:54-61 | Recording changes the buffer and may start a flush as `Recorded` says |
| UsageRecorder.Service.StartFlush | src/modules/administration/api-usage-recorder.service.ts:63-69 | A flush takes the front of the buffer unless one is under way |
| UsageRecorder.Service.SettleFlush | src/modules/administration/api-usage-recorder.service.ts:69-78 | The outcome stores the batch or puts back in front what fits |
| UsageRecorder.Service.FinishFlush | src/modules/administration/api-usage-recorder.service.ts:79-82 | The end of a flush starts the next when enough is waiting |
| UsageRecorder.RunSound | src/modules/administration/api-usage-recorder.service.ts:54-84 | In every interleaving the buffer is within 5000, and what is stored, on its way and waiting is, in this order, a subsequence of what was recorded, which together with the dropped is everything recorded |
| UsageRecorder.DroppedOnlyWhenFull | src/modules/administration/api-usage-recorder.service.ts:54-84 | A metric is dropped only by a step that leaves the buffer full |
| UsageRecorder.OneBatchAtATime | src/modules/administration/api-usage-recorder.service.ts:63-84 | While a batch is on its way, no step but its own outcome changes it or what is stored |

## Left out

- ImportInverse.RollbackInvertsApply: is about runs in which only the importer writes between the commits and the rollback; for writes of others ImportForeign and ImportUnblocked say exactly what is lost, restored and kept. Quotes that exist before the batch have structured data that is not null and date-only values at midnight, because the code restores no others exactly.
- ImportProtocol: the retry of a transaction after a write conflict is a step that changes nothing; the checks of the call's arguments and of users come before the first step.
- ImportApply: the transaction of one conversation is a function on tables and not a method that changes rows in place; aborting is returning an error. Only its message loop and the rollback are methods.
- ImportTables: there is one tenant; payload and correlation hashes are injective; a SQL null and a JSON null of the confirmed summary are alike; dates lie in years of four digits; the calendar and the formatting of phones are parameters; the link of a message to a document and the file name inside media metadata are not part of this model; names of users are looked up as they are given, without trimming and folding.
- ConcurrentMap: a handler that fails with an undefined error, which the code would not notice, is not modelled.
- ZipPreflight: inflating and decoding of names are parameters; the code's message for the expansion limit names 64 MiB while its constant is 1 GiB, and the constant is followed.
- PdfReader.ReadsReport: offsets have at most ten digits, as `EntryWidth` requires; octal escapes are read over because the writer never produces them. Unicode decomposition is a parameter of the text.
- ChunkedUpload: the durable copy of an upload session, quotas and expiry.
- ChunkedUpload.CompletedIsWhole: for media uploads the checksum is not claimed, because the code checks it in a later job.
- HistoryStream: rows are sorted by the database; media counters, progress and the workbook are left out.
- MessageIdentity: the hash of a signature is injective, and archives of one manifest have different ids.
- MediaMatching: storing a file, a changed candidate at that moment and the first pass over the archive (sizes, unsafe paths) are left out; the bytes of an entry are as many as it declares.
- RoutePlan: choosing and sorting candidates by name is done before; distance, keys cut to six decimals and the words of addresses are parameters; arithmetic is over reals, capacity and limits are integers; ids of assignments and the kilometres of the return are left out.
- ConversationMatrix: status changes that quote decisions and deliveries make beside the matrix are left out. For what can be resumed only one direction is stated.
- AutomationFlow: texts are symbols; the processing of the words of a message and the actions derived from the model's answers are left out.
- UsageRecorder: timers, retention and a write that fails after it took effect.
- Checks of workbook rows field by field, permission tables, encryption, HTTP and the database driver: lookups and library behaviour.
- The race between cancelling a history import and writing its manifest.
