# Verified model of the cloud disk server

This project models the parts of the cloud disk server that carry its guarantees, and proves what they
promise over all inputs, runs and interleavings.

- **Chunked, resumable upload.** The server side (`UploadModel`, `FileManagement`, `UploadHandlers`) is the
  handlers and the file manager over four tables, the chunk files and the stored files. Every SQL or file
  statement may fail: a `Works` record says which succeed. The browser side (`UploadClient`) is one upload
  attempt with up to three asynchronous workers. `EndToEnd` puts any number of attempts of one client, of
  the same or of different files behind one resume key, a network that loses, repeats, delays and damages
  requests, and all other users together. `Outcomes` is about what follows: which uploads succeed, that they
  always can, and what stays stored; `ProgressReports` about what the client is told; `Mixing` about two files
  under one key.
- **Completions that overlap** (`Overlap`, `OverlapStores`): a completion as two steps, its checks and merge
  and its transaction, with anything in between.
- **Storage accounting** (`Storage`): `users.storage_used` against the rows of `files`. **Direct uploads and
  deletions** (`DirectFiles`).
- **Two blocking pools** (`ThreadPooling`, `ConnectionPooling`): transition systems whose steps are the
  critical sections, the notifies and the wakeups.
- **Codecs and framing** (`Json`, `JsonLayout`, `UrlCoding`, `HttpParsing`, `HttpReading`, `HttpResponding`, `Streams`).
- **Session table** (`Sessions`) and its background cleanup.

Code that works by statements and loops is written as methods that are proved to compute a specification
function; the theorems are about those functions and about runs of them. The pools and the client are
concurrent, so their whole behaviour is a transition system over values; the pools' critical sections are
methods as well.

## What holds and what does not

Some promises do not hold of the code as it stands. For each, a lemma gives a run or an input on which it
fails, and another the exact condition under which it holds.

- The resume key is only file name and size, so different files of one size get mixed: for every chunk size
  and any two files that differ in the first chunk and in another one there is a run of two attempts that
  stores neither (`SameNameAndSizeMix`). What a completion stores is a given file exactly when that file has
  the same slice wherever a chunk was last written by an attempt for another file
  (`CompletedUploadIsTheFileIff`).
- After a completion whose answer is lost (`LostAnswerHappens`) the client keeps the upload id, which it drops
  exactly when it hears the answer (`FinishSettles`), and no later step of anyone makes that id complete again
  (`LostAnswerSticks`). Which completions succeed is `FinishSucceedsIff`.
- A cancel whose UPDATE fails still deletes the chunk files of a live session (`CancelCanTear`). A call keeps
  the chunk files of a session exactly unless it is such a cancel (`StepKeepsFilesIff`).
- The final UPDATE of a completion does not re-check the status. A run from an empty server stores one upload
  twice (`OverlapYieldsTwoRows`). Over every run the number of rows an upload yields is the largest number of
  its completions, of those whose transaction will not fail, that are in the air at once
  (`RowsAreThePeak`); it yields at most one exactly when such completions never overlap (`OneRowIff`). Nor
  does a cancel in between stop the transaction (`SettlesIff`).
- Callers return a database connection by hand and again when the handle dies; two callers can then use one
  connection (`DoubleReturnSharesAConnection`). A step keeps lending exclusive exactly when it does not
  return a connection whose slot is lent again (`StepKeepsExclusiveIff`).
- The read loop goes by the first line that holds the text "Content-Length:". A request is received whole,
  however it is cut into reads that fit the buffer, exactly when that line announces the length of its body
  (`EverySplitReceivedIff`). So a length field in another spelling is missed (`SpellingDecides`; a POST with
  `content-length: 1` is `LowerCasePostIsCut`), and one such as "X-Content-Length" is taken for it
  (`PrefixedFieldDecides`).
- A pool without worker threads accepts tasks and never starts them (`NoWorkersNoWork`); with at least one
  worker all accepted tasks run (`ShutdownDrains`).
- A direct upload or a deletion whose second statement fails unbalances the accounts (`UploadCanLeak`,
  `DeleteCanLeak`), exactly as `UploadKeepsBalanceIff` and `DeleteKeepsBalanceIff` say.
- The progress fraction is printed with four decimals. With 20000 chunks or more it can read "1.0000" while
  one is missing, with fewer it cannot (`PrintedOneIsFullIff`).
- On a clock that does not go back, background cleanup is invisible (`CleanupIsInvisible`). On an arbitrary
  clock it shows exactly when a session it erased is looked up later, before it would have gone anyway, at a
  reading at which it is not expired (`CleanupShowsIff`; `ClockSetBackShowsCleanup` is such a run). The answer
  of a bare `delete_session` can reveal whether cleanup ran (`DeleteRevealsCleanup`, `DeleteSeesCleanupIff`).

## Assumptions

- SHA-256 is a parameter `h`. The end-to-end theorem assumes that a damaged chunk body does not hash to the
  hash of the chunk the client meant to send; that an upload can succeed assumes that no hash is empty.
- Upload ids and unique file names are drawn fresh (`Fresh`). Clocks, tokens and file contents are parameters.
- A handler call is one step, except that `Overlap` and `OverlapStores` split a completion before its
  transaction, `Storage` also
  admits bare transactions, and a logout is two steps in `Sessions`. ROLLBACK restores the tables,
  also after a failed COMMIT. A file write that was opened succeeds.
- Numbers are unbounded except where the code's width matters: `stoi`/`stoll` ranges, the `int` cast in the
  read loop, and the `size_t` cast of the queue limit.

## Model

| member | source | states |
|---|---|---|
| EndToEnd.CompletedUploadIsTheFileIff | static/app.js:1168-1308 | whatever files the attempts behind one resume key send, a completion that succeeds stores a given file exactly when that file has the same slice wherever a chunk was last written for another file |
| EndToEnd.CompletedUploadIsTheFile | static/app.js:1173-1308 | for every file, chunk size, interleaving, lost, repeated, delayed or damaged request and any number of attempts with that file, a completion that succeeds stores exactly the file and records its length for its owner |
| EndToEnd.EveryRunIsSound | src/file_manager.cpp:189-278 | in every run each chunk file of the upload is a slice of the file it was last written for, each row has its size, and every chunk an attempt counts is recorded |
| EndToEnd.MergedSlicesAreTheFileIff | src/file_manager.cpp:383-414 | merging a session gives a file exactly when the files its chunks were written for agree with it there |
| Outcomes.FinishSucceedsIff | static/app.js:1280-1302 | once all workers finished, and unless a cancel tore this very session, the completion succeeds exactly when no statement fails and the session is uploading and unexpired: the count check cannot turn the client away |
| Outcomes.UploadCanSucceed | static/app.js:1205-1302 | in every sound world a file within the quota can be uploaded: some run of the client's own requests ends in a completion that succeeds |
| Outcomes.ResumeCanSucceed | static/app.js:1184-1302 | in every sound world whose saved session is live and not torn, resuming and sending what is missing ends in a completion that succeeds |
| Outcomes.CanAlwaysFinish | static/app.js:1272-1302 | an attempt without failures and with a live session that was not torn can always be continued to a successful completion, in a bounded number of its own steps |
| Outcomes.LostAnswerSticks | static/app.js:1184-1202 | after a completion whose answer is lost, over every further run: progress lists every chunk, a resume has nothing to send, and every further completion is refused and changes nothing |
| Outcomes.LostAnswerHappens | static/app.js:1290-1299 | from every untouched world in which a file fits, some run ends with a successful completion that is not heard and an upload id that is stuck |
| Outcomes.FinishSettles | static/app.js:1290-1299 | right after a successful completion the session is final, and the client keeps the upload id exactly when it heard no answer |
| ProgressReports.ProgressIsTrue | src/file_manager.cpp:280-381 | in every run a progress answer whose count and list queries succeeded lists the recorded chunks in order, and its count, its bytes, its list and the fraction before printing are each full exactly when every chunk is recorded; the printed fraction, too, below 20000 chunks |
| ProgressReports.PrintedOneIsFullIff | src/http_handler.cpp:553 | the four printed decimals read 1.0000 only for a complete upload exactly when there are fewer than 20000 chunks |
| Outcomes.StoredFileLasts | src/file_manager.cpp:757-786 | a stored file keeps row and bytes over every run in which its owner does not delete it |
| Outcomes.DroppedKeyIsNotUsed | static/app.js:1190-1203 | after cancelling, or a progress request that went wrong or unheard, the client holds no upload id and resumes nothing until it hears of a new session |
| Outcomes.KeyAfterRequest | static/app.js:1184-1221 | what each request does to the saved upload id, and with which chunks an attempt starts |
| DirectFiles.UploadSucceedsIff | src/http_handler.cpp:636-680 | the exact condition for a direct upload to succeed |
| DirectFiles.UploadStoresBody | src/file_manager.cpp:572-647 | a direct upload that succeeds stores the body that was sent under a new id, with its name and type, charges its owner, and changes nothing else |
| DirectFiles.FailedUploadLeavesNothingIff | src/file_manager.cpp:602-634 | one that fails leaves no bytes, and no row exactly unless the charge and the compensating DELETE both failed |
| DirectFiles.UploadedFileLasts | src/file_manager.cpp:572-647 | the body of a successful direct upload stays stored under its name over every run in which its owner does not delete it |
| DirectFiles.DeleteSucceedsIff | src/file_manager.cpp:757-786 | the exact condition for a deletion to succeed |
| DirectFiles.DeleteRemoves | src/file_manager.cpp:757-786 | a successful deletion removes the row and the bytes and nothing else |
| DirectFiles.DeletedStaysDeleted | src/file_manager.cpp:757-786 | a deleted file id is in no row over every later run |
| DirectFiles.DirectRefusals | src/http_handler.cpp:636-880 | what each refusal of a direct upload or a deletion says |
| Mixing.SameNameAndSizeMix | static/app.js:1168-1171 | for every chunk size and any two files of one size that differ in the first chunk and in another one, a run of two attempts under one key whose completion succeeds and stores neither file |
| UploadInvariants.CountDecidesCompleteness | src/file_manager.cpp:328-342 | comparing COUNT(*) with total_chunks decides whether every index 0..n-1 is recorded |
| UploadInvariants.CompletionSucceedsIff | src/file_manager.cpp:416-545 | the exact condition for a completion to succeed: no failing statement, the caller's live session, every chunk recorded and every chunk file there, as it is unless a cancel tore the session |
| UploadInvariants.CompletedFileIsAsOpened | src/file_manager.cpp:158-170 | over every run from a successful init to a successful completion of the same id: answer and row have the name, type, size and owner that the init call asked for, the owner is charged that size, and no other row or user changes |
| UploadInvariants.InitAnswerIs | src/http_handler.cpp:466-479 | the answer to init repeats the id and the count, and its chunk size is the least with which so many chunks cover the file |
| UploadInvariants.AdvertisedSizeFits | src/http_handler.cpp:473 | for a client that counted its chunks by its own chunk size, the size in the answer is at most that one and cuts the file into exactly as many non-empty chunks |
| UploadInvariants.SessionRefusals | src/http_handler.cpp:481-634 | a call about a session is answered 404 exactly when the caller has no such session and 410 exactly when it has run out |
| UploadInvariants.NoRoomIff | src/http_handler.cpp:437-479 | an init call is answered 507 exactly when the file does not fit on top of what is stored, 404 exactly when there is no such account |
| UploadInvariants.CompleteRefusals | src/http_handler.cpp:562-602 | a completion of a session that is there is answered 400 exactly when the counts differ |
| UploadInvariants.CompleteIsAllOrNothing | src/file_manager.cpp:476-531 | whichever statement fails, files, storage_used and status all change or no table does, and a merged file is unlinked |
| UploadInvariants.MergeIsConcat | src/file_manager.cpp:383-414 | the merge succeeds exactly when every chunk file is there, and writes their concatenation in order |
| UploadInvariants.StepKeepsWellFormed | init.sql:47-57 | every call keeps the foreign keys and the index range of chunk rows and chunk files |
| UploadInvariants.StepKeepsFilesIff | src/file_manager.cpp:250-277 | a call keeps the chunk files of the recorded chunks of a live session exactly unless it is a cancel that tears that session |
| UploadInvariants.CancelCanTear | src/file_manager.cpp:560-569 | a cancel whose UPDATE fails leaves a live session with a recorded chunk and no file |
| UploadInvariants.CancelSucceedsIff | src/http_handler.cpp:604-634 | the exact condition for a cancel to succeed |
| UploadInvariants.CancelSticks | src/file_manager.cpp:547-570 | after a successful cancel, over every run of whole calls, the session stays final, nothing of it is accepted and no chunk file of it comes back |
| UploadInvariants.ErrorsLeaveNoTrace | src/http_handler.cpp:437-634 | a run of the upload protocol that is answered with errors only leaves every table as it was |
| UploadInvariants.RunMovesStatus | src/file_manager.cpp:513-517 | over every run a session keeps its row but for the status, which only leaves `uploading`, and no chunk row is forgotten |
| UploadInvariants.AtMostOneCompletion | src/file_manager.cpp:421-424 | each upload id yields at most one file over every run of whole calls, and none once its status is final |
| UploadInvariants.NothingAcceptedAfterTheEnd | src/http_handler.cpp:498-510 | no run stores a chunk or completes after a final status or after the deadline |
| Chunking.SlicesTileTheFile | static/app.js:1238-1240 | the client's slices concatenate to the file |
| Chunking.Slice | static/app.js:1238-1240 | every slice is non-empty and at most a chunk long |
| Chunking.AdvertisedChunkSize | src/http_handler.cpp:473 | the advertised chunk size is at most the client's and cuts the size into exactly the declared number of non-empty chunks |
| UploadClient.EveryInterleavingKeepsPartition | static/app.js:1230-1278 | in every interleaving already-complete, queued, in flight, acknowledged and failed partition the indices |
| UploadClient.StartPartitions | static/app.js:1192-1197 | a fresh or resumed attempt starts partitioned |
| UploadClient.NothingSentTwice | static/app.js:1272-1278 | in every run of an attempt no index is sent twice and none that was already complete |
| UploadClient.UploadedCountsExactly | static/app.js:1267 | at every moment of an attempt uploadedChunks equals the total exactly when every index is on the server or acknowledged, and exactly when nothing is outstanding |
| UploadClient.EveryAttemptEnds | static/app.js:1272-1281 | an attempt takes at most two steps per queued index and one per worker; once no step is left all workers finished exactly when no request failed, and then every index is on the server |
| UploadClient.AtMostThreeInFlight | static/app.js:1272 | at most three requests are in flight |
| UploadClient.ThreeCanBeInFlight | static/app.js:1272 | the bound is reached: three at once, or as many as there are chunks to send |
| UploadClient.SentInOrder | static/app.js:1231-1275 | what was sent and then what is queued is, in every run, the ascending list of the indices that were not complete |
| UploadClient.RemainingAscends | static/app.js:1231-1232 | the queue lists the missing indices in ascending order |
| Storage.RunKeepsBalance | src/file_manager.cpp:493-531 | storage_used equals the sum of the user's file sizes over every run, also with completions overlapping at transaction granularity |
| Storage.CommitKeepsBalance | src/file_manager.cpp:476-531 | the completion transaction keeps the balance whatever it read before and whichever statement fails |
| Storage.UploadKeepsBalanceIff | src/file_manager.cpp:602-634 | exactly which direct uploads unbalance the accounts |
| Storage.UploadCanLeak | src/file_manager.cpp:612-634 | a direct upload on an empty server that unbalances the accounts |
| Storage.DeleteKeepsBalanceIff | src/file_manager.cpp:771-785 | exactly which deletions unbalance the accounts |
| Storage.DeleteCanLeak | src/file_manager.cpp:771-785 | a deletion that unbalances the accounts |
| Storage.ClampNeverActs | src/file_manager.cpp:778-781 | in a balanced state GREATEST(0, ...) never clamps |
| Overlap.HalvesMakeTheWhole | src/file_manager.cpp:416-545 | checks and merge followed at once by the transaction and the cleanup are the whole completion call |
| Overlap.RowsAreThePeak | src/file_manager.cpp:420-531 | over every run with overlapping completions, rows added for an upload plus its completions still in the air whose transaction will not fail are the most such completions that were in the air at once |
| Overlap.OneRowIff | src/file_manager.cpp:513-517 | an upload yields at most one row exactly when never two of its completions that will not fail are in the air at once |
| Overlap.SettlesIff | src/file_manager.cpp:476-531 | the transaction goes through exactly when none of its statements fails, whatever the status has become meanwhile, and then marks the session completed |
| Overlap.PairCommitsIff | src/file_manager.cpp:420-517 | of two completions that both passed checks and merge before either transaction, both commit exactly when no statement of either fails; a check after the first transaction fails |
| Overlap.OverlapYieldsTwoRows | src/file_manager.cpp:513-517 | a run from an empty server that stores one upload twice and charges it twice |
| Overlap.OverlapKeepsBalance | src/file_manager.cpp:493-531 | the accounts stay balanced over every run with overlapping completions |
| OverlapStores.EveryRowStoresItsFile | src/file_manager.cpp:456-531 | however completions overlap, in every run of the whole protocol each row an upload yields stores a given file exactly when the files its chunks were written for agreed with it when the checks passed |
| FileManagement.FileManager.CreateUploadSession | src/file_manager.cpp:102-187 | its guards and insert do what the model's call does |
| FileManagement.FileManager.StoreChunk | src/file_manager.cpp:189-278 | save_chunk's checks, write and upsert do what the model's call does |
| FileManagement.FileManager.UploadProgress | src/file_manager.cpp:280-381 | get_upload_progress returns the model's progress: counts, sizes, fraction, and the lists in order |
| FileManagement.FileManager.MergeChunks | src/file_manager.cpp:383-414 | for every buffer size the nested copy loops write the concatenation of the chunk files up to the first missing one |
| FileManagement.FileManager.RunTransaction | src/file_manager.cpp:476-531 | the statement sequence with rollback and unlink equals the all-or-nothing transaction |
| FileManagement.FileManager.FinishUpload | src/file_manager.cpp:416-545 | complete_upload does what the model's call does |
| FileManagement.FileManager.CancelSession | src/file_manager.cpp:547-570 | cancel_upload does what the model's call does |
| FileManagement.FileManager.UploadDirect | src/file_manager.cpp:572-647 | upload_file with its compensating DELETE does what the model's call does |
| FileManagement.FileManager.RemoveFile | src/file_manager.cpp:757-786 | delete_file does what the model's call does |
| UploadHandlers.Serve | src/http_handler.cpp:437-880 | serving an upload, direct upload or delete request is one step of the model, answer included |
| Streams.InputStream.Read | src/file_manager.cpp:402-410 | a read takes the next bytes, and comes up short exactly at the end |
| Streams.CopyThrough | src/file_manager.cpp:396-410 | the buffered copy of a stream is the stream, for every buffer size |
| Streams.WriteAll | src/server.cpp:31-44 | all bytes go out in order however writes are cut short, or a proper prefix if a write fails |
| Streams.StreamFile | src/server.cpp:244-258 | the client receives exactly the file, or a proper prefix if a write fails |
| ThreadPooling.NoLostWakeup | include/thread_pool.h:44-64 | in every reachable state a non-empty queue has an awake worker or a notify pending, and while anyone sleeps each queued task has its own |
| ThreadPooling.RunsWhatItAccepts | src/thread_pool.cpp:14-27 | the queue stays within its limit, and started tasks followed by queued ones are the accepted ones in order |
| ThreadPooling.AcceptedIff | include/thread_pool.h:44-60 | in every reachable pool an enqueue is accepted exactly when stop was not set and fewer accepted tasks than the limit are still to be started |
| ThreadPooling.FillsToItsLimit | include/thread_pool.h:52-60 | with nothing else happening exactly as many enqueues as the limit succeed |
| ThreadPooling.ShutdownDrains | src/thread_pool.cpp:39-55 | after stop and notify_all nobody sleeps, every continuation is bounded, and one that ends has run every accepted task and let every worker exit |
| ThreadPooling.DrainIsBounded | src/thread_pool.cpp:39-55 | every step of a draining pool decreases a measure |
| ThreadPooling.StuckMeansDone | src/thread_pool.cpp:21-23 | a draining pool that can take no step is done |
| ThreadPooling.NoWorkersNoWork | src/thread_pool.cpp:4-6 | a pool without workers starts nothing |
| ThreadPooling.ThreadPool.Enqueue | include/thread_pool.h:44-64 | pushes, or refuses when stopped or full |
| ThreadPooling.ThreadPool.Dequeue | src/thread_pool.cpp:16-27 | waits, leaves or pops the oldest task |
| ConnectionPooling.SingleReturnIsExclusive | src/database.cpp:214-267 | with each handle returned once, in every run lent slots and users of them are in bijection, available plus lent is the pool size, and no wakeup is lost |
| ConnectionPooling.StepKeepsExclusiveIff | src/database.cpp:249-266 | a step keeps lending exclusive exactly when it does not return a connection whose slot is lent again |
| ConnectionPooling.NoWakeupIsLost | src/database.cpp:218-224 | over every run, double returns included, free slots do not outnumber the contenders awake while anyone sleeps |
| ConnectionPooling.NobodyIsStranded | src/database.cpp:214-267 | with a connection in the pool and single returns, when no caller is about to look and none holds a handle, nobody is asleep |
| ConnectionPooling.DoubleReturnSharesAConnection | src/file_manager.cpp:533-545 | a run in which returning by hand and by deleter lets two callers share a connection |
| ConnectionPooling.DBConnectionPool.AnyFree | src/database.cpp:218-224 | the wait predicate is true exactly when a slot is free |
| ConnectionPooling.DBConnectionPool.TakeFirst | src/database.cpp:226-246 | takes the first free slot and changes no other |
| ConnectionPooling.DBConnectionPool.GiveBack | src/database.cpp:250-267 | frees the slot and notifies exactly when it was taken |
| JsonLayout.EveryLayoutIsRead | src/json_helper.cpp:117-175 | every flat object is read, with any blanks around its tokens: the last value of each key, strings unescaped |
| Json.RoundTrip | src/json_helper.cpp:102-175 | parsing what was built yields exactly the keys, strings unchanged for arbitrary characters |
| Json.EscapesAsRfc | src/json_helper.cpp:22-75 | each two-character escape is written and read as section 7 of RFC 8259 has it |
| Json.NothingRaw | src/json_helper.cpp:60-75 | no control character with an escape is left raw in a written string, and a quotation mark only behind its backslash |
| Json.LiteralsAsRfc | src/json_helper.cpp:77-100 | booleans and null come back as the literals true, false and null |
| Json.GettersReturnWhatWasBuilt | src/json_helper.cpp:187-208 | get_long returns every integer built, get_int every int and else its default |
| Json.BoolsReturnWhatWasBuilt | src/json_helper.cpp:210-215 | get_bool returns the boolean built |
| Json.TokenReadsEscape | src/json_helper.cpp:60-75 | reading an escaped string gives it back |
| Json.EscapeJson | src/json_helper.cpp:60-75 | the loop computes the escaping |
| Json.ParseStringToken | src/json_helper.cpp:8-55 | the index loop reads one token and stops right after it |
| Json.JsonBuilder.Build | src/json_helper.cpp:102-115 | the loop writes the pairs in key order with commas between |
| Json.BuiltListsKeysInOrder | src/json_helper.cpp:102-115 | the text holds one pair for each key, in ascending key order, and there is only one such text |
| Json.ParseFlat | src/json_helper.cpp:130-175 | the parse loop with its breaks computes the pairs read so far, later ones winning |
| Text.ParsePrinted | src/json_helper.cpp:187-208 | reading a printed number gives it back exactly when it is in range |
| Text.ParseSpelled | src/json_helper.cpp:187-208 | leading spaces and a plus sign do not matter to a number, nor does what follows it; without a digit there is none |
| OrderedKeys.LessIff | src/json_helper.cpp:102-115 | the key order is the lexicographic one |
| UrlCoding.DecodeEncode | src/utils.cpp:36-74 | decoding an encoded byte string gives it back |
| UrlCoding.EncodesAsRfc | src/utils.cpp:62-74 | exactly the unreserved bytes of section 2.3 of RFC 3986 stand for themselves, any other becomes a percent sign and two upper-case digits |
| UrlCoding.DecodeReadsEverySpelling | src/utils.cpp:36-60 | decoding reads raw bytes, plus signs as blanks, and percent digits of either case |
| UrlCoding.UrlDecode | src/utils.cpp:36-60 | the loop computes the decoding |
| UrlCoding.UrlEncode | src/utils.cpp:62-74 | the loop computes the encoding |
| HttpText.BlankLineEndsHead | src/server.cpp:169 | the first CRLFCRLF of a message is the one that ends its header block |
| HttpParsing.QueryRoundTrip | src/http_parser.cpp:25-53 | a query joined from encoded pairs parses to the last-wins map of the originals |
| HttpParsing.EveryPartIsRead | src/http_parser.cpp:25-53 | every query is read part by part: values decoded, names alone with an empty value, empty parts passed over, later parts winning |
| HttpParsing.RequestReadsBack | src/http_parser.cpp:8-108 | a written request parses back: verb, path, version, last-wins parameters; the headers are exactly the field names but for ASCII case, each with the last value of that name without its leading spaces; the body is as much as the declared length covers |
| HttpParsing.OddLinesAreRead | src/http_parser.cpp:55-91 | a line without a colon is passed over, and a line may end in a bare line feed |
| HttpParsing.ParseQuery | src/http_parser.cpp:31-52 | the start/end loop computes the parameters |
| HttpParsing.ParseFields | src/http_parser.cpp:55-91 | the line loop computes the fields and the content length |
| HttpParsing.Parse | src/http_parser.cpp:8-108 | the whole parse |
| HttpReading.FramingIgnoresFragmentation | src/server.cpp:164-198 | however a request is cut into reads whose one length field is spelled Content-Length and comes first with that text, the loop receives exactly its bytes and parsing gives its method, path, parameters, headers and whole body |
| HttpReading.EverySplitReceivedIff | src/server.cpp:154-198 | for every buffer size, every request is received whole, however it is cut into reads that fit the buffer, exactly when the first line holding "Content-Length:" announces the length of its body |
| HttpReading.SpellingDecides | src/server.cpp:172 | when no other line holds that text, a request with a body is received whole exactly when its length field has this spelling |
| HttpReading.LowerCasePostIsCut | src/server.cpp:172 | a POST with content-length: 1 that the loop, reading at most 8192 bytes at a time, can receive without its body |
| HttpReading.PrefixedFieldDecides | src/server.cpp:172 | a field such as X-Content-Length that comes first decides instead of the length field |
| HttpReading.EndedEarly | src/server.cpp:154-206 | a request that is never enough is handed on as it came when the client closes, and lost when a read fails |
| HttpReading.ReadRequest | src/server.cpp:164-206 | the read loop computes what is received |
| HttpResponding.BodyIsWhatFollowsTheHeaders | src/http_parser.cpp:111-137 | the first CRLFCRLF ends the headers and the rest is exactly the body |
| HttpResponding.HeadersAreRecoverable | tests/concurrent_test.cpp:197-204 | from the bytes alone a receiver gets back version, code and text, every header and the body; a defaulted Content-Length is the body's length, a defaulted Connection is close, and there are no other headers |
| HttpResponding.BuildResponse | src/http_parser.cpp:111-137 | the writer's loop and defaults produce the response |
| Sessions.TokenStandsForItsUser | src/session_manager.cpp:23-88 | on a clock that does not go back, from the events alone: a token answers the user it was issued to until a lookup comes more than the timeout after it was issued or last validated, and nobody from then on |
| Sessions.LogoutIsFinal | src/http_handler.cpp:329-333 | after a logout that was answered 200 the token stands for nobody until it is issued again, on any clock |
| Sessions.CleanupIsInvisible | src/session_manager.cpp:104-120 | on a clock that does not go back, inserting cleanup anywhere in a run, also inside a logout, changes no answer of create, validate, get_user_id or logout |
| Sessions.CleanupShowsIff | src/session_manager.cpp:104-120 | on any clock and for any run after it, a cleanup shows exactly when a session it erased is looked up, before it would have gone anyway, at a reading at which it is not expired |
| Sessions.LookupSeesCleanupIff | src/session_manager.cpp:49-88 | the exact condition for a single validate, get_user_id or logout to answer differently after a cleanup |
| Sessions.DeleteSeesCleanupIff | src/session_manager.cpp:90-102 | exactly when a bare delete_session answers the same after a cleanup |
| Sessions.DeleteRevealsCleanup | src/session_manager.cpp:90-102 | a timed-out session whose deletion answers differently after a cleanup |
| Sessions.ClockSetBackShowsCleanup | src/session_manager.cpp:40-47 | a run on a clock that is set back in which cleanup shows |
| Sessions.SessionManager.ValidateSession | src/session_manager.cpp:49-69 | drops an expired session, refreshes a live one |
| Sessions.SessionManager.GetUserId | src/session_manager.cpp:71-88 | drops an expired session, otherwise changes nothing |
| Sessions.SessionManager.CleanupExpired | src/session_manager.cpp:104-120 | the erasing loop keeps exactly the unexpired sessions |
| Sessions.SessionManager.HandleLogout | src/http_handler.cpp:323-334 | its two calls, get_user_id and delete_session, and its answer; in runs anything may come between the two |

## Left out

- SQL text, escaping, the MySQL client and connection setup: statements on tables that succeed or fail.
- The `failed` chunk status, which nothing writes: the list of failed chunks is always empty. The fraction is a real number where the code has a double, and a tie between two printed values may go either way.
- Two calls of save_chunk overlapping on one index, and anything between the checks of a completion and the end of its merge.
- Failing writes to a file that could be opened (a full disk), and what merge_chunks leaves behind when it fails: the partial file stays on disk, as in the code, and nothing more is said of it.
- The quota after the check at init: it is never reserved, so no bound on storage_used over runs is claimed.
- The client's CHUNK_SIZE: the theorems hold for every chunk size of at least one byte. The client is a transition system over values, so aliasing between its closures is not captured.
- Blocking itself: the pools' methods are the critical sections, and waiting, waking and the threads' interleaving are steps of the transition systems.
- Tasks that throw something other than a std::exception, and a connection handle that outlives its pool.
- UrlCoding.Decode: what a percent sign followed by two characters that are not both hexadecimal gives is a parameter.
- JSON that the builder does not produce (nested values, unknown escapes): the parser is total and follows the code, but no meaning is claimed for it.
- Accounts, messages, search, rename, listing, share codes, routing, static files, logging, the client table: single statements and lookups.
- The stored name of a direct upload: the handler looks up a header name the parser has lower-cased.
