# suiPlayer: a verified model of its stateful core

suiPlayer is a small distributed video-on-demand backend. This project models the parts
of it that carry state, arithmetic or concurrency, and proves what they are for. MySQL,
Redis, RabbitMQ and FastDFS appear as maps, sequences and multisets.

| file | models |
|---|---|
| `ChannelRing.dfy` | the round-robin ring of RPC channels behind one service name |
| `ChannelRegistry.dfy` | the registry of rings, as a class and as threads taking its two locks |
| `DelayedDelete.dfy` | the read-through cache with delayed double delete, as a timed step system |
| `PermissionCache.dfy` | the role and identity caches under sequential use |
| `Playlist.dfy` | the M3U8 reader and writer |
| `FileTransfer.dfy` | the chunked upload and download service |
| `FileClient.dfy` | the client's upload and download loops against that service |
| `InterleavedClient.dfy` | the client's upload loop while the service serves others |
| `Identifiers.dfy` | random identifiers with a counter behind them, and upload ids |
| `DrawnIds.dfy` | the upload service with the identifiers it draws from the counter |
| `QueueHandshake.dfy` | the handshake between queue callers and the event-loop thread |
| `DelayTopology.dfy` | the exchanges and queues of a "delayed" setting |
| `CacheOverQueue.dfy` | the delayed double delete over those queues |
| `Base.dfy` | sequences and machine words shared by the others |

Code that changes its fields in place is modelled as a class whose methods do the same;
each method's contract equates the new value of the fields with a function of the old one,
and the properties are proved about those functions, step by step and over whole runs.
Interleavings are step systems: an enabling predicate, a next-state function, an invariant.

Four properties the code is meant to have do not hold without a condition. Each is proved
as an equivalence with the condition, and with a run that shows it fail.

- The delayed double delete is coherent if and only if commit lag plus write lag stay below
  the 3000 ms delay and keys are published under the name they are stored under
  (`CoherentIffSound`). The session cache publishes bare ids while it stores prefixed ones,
  so it fails for every lag (`WhichCachesAgree`).
- An accepted append keeps every upload stored as promised if and only if it carries the
  file id that was issued with its upload id, or no bytes (`AppendKeepsStorageIff`,
  `MispairingReachable`): the handler looks the file up by the request's id and never
  compares it with its own record.
- The role and identity caches are invisible if and only if the users' rows hold declared
  enumerators (`TransparentIff`, `UndeclaredRole`, `UndeclaredIdentity`): names do not
  carry other bytes.
- The client's upload loop ends without an int overflow if and only if the content is
  empty, or has five bytes or more and chunk count times chunk size fits into int
  (`LoopEndsIff`, `StalledUpload`, `OverflowEndsEarly`, `OverflowStalls`).

## Hypotheses

- Lookups by operation url or user id find at most one row (the code uses `query_one`), and
  file ids are unique in the file table.
- The delete message of a removal carries its one key and is published (the result of
  publishing is ignored at services/data/removeCache.cpp:32), and lookups read committed rows.
- Only the class of a cache writes keys of its prefix, so a key never holds a Redis value of
  another kind.
- The MD5 function (32 characters long where that matters), the random draws, the user of a session and the success of storage and
  database calls are parameters. A call that fails leaves its store as it was. Storage
  returns new paths. That the drawn upload ids and file ids are new is proved in
  `DrawnIds.dfy` for up to 2^32 identifiers of a process; that a drawn file id is not one
  that an earlier process has left in the table is not.
- Every handler of the file service is one atomic step; its tracker map has no lock.
- The broker answers each request once, and condition variables do not wake spuriously.
- A narrow signed integer that overflows wraps, and a signed size becomes `size_t` modulo
  2^64. (Signed overflow is undefined in the original; "Left out" names the results that
  reach so far.)

## Model

| member | source | states |
|---|---|---|
| ChannelRing.Channels.constructor | scaffold/src/suiRpc.cpp:5-8 | a new ring is the empty ring, with its cursor at the end, and satisfies the ring invariant |
| ChannelRing.Channels.Insert | scaffold/src/suiRpc.cpp:12-31 | a known address changes nothing; a new one becomes the last node, and the cursor leaves the end; the invariant is kept |
| ChannelRing.Channels.Remove | scaffold/src/suiRpc.cpp:33-51 | the node of the address goes; a cursor standing on it moves to its successor, round to the first; the invariant is kept |
| ChannelRing.Channels.Select | scaffold/src/suiRpc.cpp:53-63 | hands out the node under the cursor and moves the cursor on, round to the first; the invariant is kept |
| ChannelRing.InsertValid | scaffold/src/suiRpc.cpp:12-31 | insertion keeps the address index a bijection onto the nodes and the cursor live, at the end only if the list is empty |
| ChannelRing.RemoveValid | scaffold/src/suiRpc.cpp:33-51 | removal keeps the same invariant, also when it takes the cursor's own node or the last one |
| ChannelRing.Run | scaffold/src/suiRpc.cpp:12-63 | the ring invariant holds after every run of insertions, removals and selections |
| ChannelRing.SelectDistance | scaffold/src/suiRpc.cpp:53-63 | a node is handed out exactly when its distance from the cursor is 0, goes to the back then, and comes one nearer otherwise |
| ChannelRing.InsertDistance | scaffold/src/suiRpc.cpp:12-31 | an insertion puts exactly the nodes behind the cursor one further away |
| ChannelRing.RemoveDistance | scaffold/src/suiRpc.cpp:33-51 | a foreign removal brings exactly the nodes behind the removed one nearer by one, wherever the cursor stands |
| ChannelRing.GoneForGood | scaffold/src/suiRpc.cpp:12-63 | a removed node never returns in any run: an address inserted again is a new node |
| ChannelRing.StepLead | scaffold/src/suiRpc.cpp:12-63 | one operation changes which of two live nodes the cursor meets first by exactly what it hands out |
| ChannelRing.FairnessUnderChurn | scaffold/src/suiRpc.cpp:12-63 | over any run, the selection counts of two nodes live throughout differ by exactly the change in which the cursor meets first, so by at most 1 |
| ChannelRing.StepWaiting | scaffold/src/suiRpc.cpp:12-63 | for a waiting node a select lowers the distance by one, a foreign removal never raises it, an insertion raises it by at most one |
| ChannelRing.WaitingBudget | scaffold/src/suiRpc.cpp:12-63 | while a live node is not handed out, selects plus its distance never exceed its first distance plus the insertions |
| ChannelRing.BoundedWaiting | scaffold/src/suiRpc.cpp:12-63 | a live node at distance d is handed out within d + 1 + insertions selects |
| ChannelRing.PickedWhenLive | scaffold/src/suiRpc.cpp:53-63 | at every point of every run a selection hands out a channel if and only if there is one, and then one that is live at that point |
| ChannelRing.AddressesByHistory | scaffold/src/suiRpc.cpp:12-51 | after any run from the empty ring, the addresses in it are exactly those whose last insertion or removal was an insertion |
| ChannelRegistry.SvcChannels.SetWatch | scaffold/src/suiRpc.cpp:74-81 | a new name gets an empty ring of its own, a known one keeps its ring; no other ring changes |
| ChannelRegistry.SvcChannels.AddNode | scaffold/src/suiRpc.cpp:83-95 | inserts into the ring of a watched name and into no other; an unwatched name changes nothing |
| ChannelRegistry.SvcChannels.DelNode | scaffold/src/suiRpc.cpp:97-109 | removes from the ring of a watched name and from no other; an unwatched name changes nothing |
| ChannelRegistry.SvcChannels.GetNode | scaffold/src/suiRpc.cpp:111-120 | selects from the ring of a watched name and leaves the other rings alone; an unwatched name yields nothing |
| ChannelRegistry.StepInv | scaffold/src/suiRpc.cpp:74-120 | every locking step keeps the rings valid, one holder for each lock, and a ring handle taken under the outer lock bound to its name |
| ChannelRegistry.StepRefines | scaffold/src/suiRpc.cpp:74-120 | every step is invisible or is one whole call on the atomic registry with its answer, and it is a call exactly when its thread returns |
| ChannelRegistry.Linearizable | scaffold/src/suiRpc.cpp:74-120 | every interleaving of the threads' steps is an atomic history, with the same answers and the same final rings |
| ChannelRegistry.GetTakesEffect | scaffold/src/suiRpc.cpp:111-120 | in every interleaving a get is answered with a live channel of its name's ring, and with none exactly if the name is unwatched or has none |
| ChannelRegistry.RegistryByHistory | scaffold/src/suiRpc.cpp:74-120 | a name's ring is what the calls on it since its first watch make of an empty ring, and its gets were answered with that ring's picks |
| ChannelRegistry.RingsOfInterleaving | scaffold/src/suiRpc.cpp:74-120 | the same for every interleaving of the threads from the start |
| ChannelRegistry.FairGets | scaffold/src/suiRpc.cpp:53-120 | over any interleaving the gets of a name are answered with two channels live throughout equally often, up to one |
| ChannelRegistry.NoDeadlock | scaffold/src/suiRpc.cpp:74-120 | while a thread is inside a call some thread can move: the lock order has no cycle |
| DelayedDelete.CoveredStep | services/data/role_permission.cpp:27-68 | no step takes away the pending delete that covers an outdated value before that value is due in the cache |
| DelayedDelete.StepInv | services/data/role_permission.cpp:27-68 | under the lag condition every step of readers, removers, inserters, expiry, delivery and clock keeps the invariant |
| DelayedDelete.RunInv | services/data/removeCache.cpp:20-52 | the invariant holds after every run |
| DelayedDelete.Coherent | services/data/removeCache.cpp:20-52 | in every reachable state a stale entry has its delete pending, and a stale value on its way to the cache has one pending that is due after it arrives |
| DelayedDelete.BoundedStaleness | services/data/user_Identity_role.cpp:27-51 | later than 3000 ms plus the delivery lag after a removal was published, whatever a lookup finds or carries was in the table since that removal committed |
| DelayedDelete.DeletesLast | services/data/removeCache.cpp:26-49 | after the first delete of a removal, the delivery of its message or an expiry, every lookup of the row misses until some lookup stores it again |
| DelayedDelete.HitsSpareTable | services/data/role_permission.cpp:52-68 | while a row is cached, no lookup of it goes to the table that was not on its way there |
| DelayedDelete.WorkEnds | services/data/role_permission.cpp:27-68 | a lookup goes on with the committed row exactly if there is one, and lookups and removals end where they do, a rollback without touching the table |
| DelayedDelete.WrongKey | services/data/session.cpp:130-134 | publishing under another key than the stored one lets any row's run come to rest with the removed row cached, until it expires |
| DelayedDelete.LateCommit | services/test/user/rolePermission/main.cpp:225-226 | a commit later than the delay lets any row's run come to rest with the removed row cached, until it expires |
| DelayedDelete.LateStore | services/data/role_permission.cpp:52-68 | a cache write later than the delay lets any row's run come to rest with the removed row cached, until it expires |
| DelayedDelete.CoherentIffSound | services/data/removeCache.cpp:14-52 | all drained runs end with the cache agreeing with the table if and only if the two lags sum to less than 3000 ms and keys are published as stored; for any row, so do all runs that have come to rest |
| DelayedDelete.WhichCachesAgree | services/data/session.cpp:16-20 | the role and identity caches are coherent exactly when the lags fit; the session cache never is |
| PermissionCache.NamesRoundTrip | services/data/data.cpp:275-314 | exactly the declared enumerators survive conversion to their names and back; weights always do |
| PermissionCache.KeysApart | services/data/role_permission.cpp:156-159 | keys of one cache are injective in the row, and the two caches never share a key |
| PermissionCache.AccountRoundTrip | services/data/user_Identity_role.cpp:99-134 | a row encoded as a Redis hash decodes to itself and is never an empty hash |
| PermissionCache.Permissions.InsertOperation | services/data/role_permission.cpp:17-24 | the row enters the table; the cache is not touched |
| PermissionCache.Permissions.RemoveOperation | services/data/role_permission.cpp:27-33 | the row leaves the table and its key the cache; no other key goes |
| PermissionCache.Permissions.SyncCache | services/data/removeCache.cpp:20-34 | exactly the listed keys are deleted, and a message is published unless there are none |
| PermissionCache.Permissions.Callback | services/data/removeCache.cpp:35-52 | a delivered message has the effect of one delete for each of its keys, an unreadable one has none, and both are acknowledged |
| PermissionCache.DeletesKeys | services/data/removeCache.cpp:43-50 | deleting the keys of a message one by one, repeated or not, removes exactly those keys |
| PermissionCache.Permissions.GetPermissionsByOperation | services/data/role_permission.cpp:52-68 | answers from the cache on a hit, else from the table, filling the cache only when there is a row |
| PermissionCache.Permissions.CheckPermission | services/data/role_permission.cpp:71-80 | allows exactly if the operation has a row and the role weighs at least as much |
| PermissionCache.Permissions.InsertUser | services/data/user_Identity_role.cpp:20-24 | the row enters the table; the cache is not touched |
| PermissionCache.Permissions.RemoveUser | services/data/user_Identity_role.cpp:27-33 | the row leaves the table and its key the cache; no other key goes |
| PermissionCache.Permissions.Select | services/data/user_Identity_role.cpp:36-51 | answers from a hash that is not empty, else from the table, filling the cache only when there is a row |
| PermissionCache.Permissions.HasRole | services/data/user_Identity_role.cpp:63-70 | true exactly if the user is found with that role |
| PermissionCache.Permissions.HasIdentity | services/data/user_Identity_role.cpp:55-61 | true exactly if the user is found with that identity |
| PermissionCache.StepCoherent | services/data/role_permission.cpp:17-80 | no operation, expiry or late delete makes a cached entry differ from the encoding of its row |
| PermissionCache.StepTransparent | services/data/user_Identity_role.cpp:20-70 | one operation answers, and changes the tables, as it would without a cache |
| PermissionCache.CheckMeans | services/data/role_permission.cpp:71-80 | from every coherent store a check allows exactly if the operation has a row whose role ranks no higher than the asking one, an undeclared role ranking as unknown |
| PermissionCache.CheckByHistory | services/data/role_permission.cpp:17-80 | after any history a check allows exactly if the operation was last inserted, and not removed since, with such a role |
| PermissionCache.UserByHistory | services/data/user_Identity_role.cpp:20-70 | after any history of declared enumerators, hasRole and hasIdentity answer by the user's last insertion, if it was not removed since |
| PermissionCache.LookupFills | services/data/user_Identity_role.cpp:36-51 | a lookup that finds a row leaves its encoding under its own key and touches no other; one that finds none leaves the cache alone |
| PermissionCache.WhatIsCached | services/data/user_Identity_role.cpp:99-110 | cached are the enumerators' names in their order, and for a user a hash of three named fields |
| PermissionCache.SameKeys | services/data/role_permission.cpp:105-159 | the keys stored and published in the timed model of the two caches are these caches' keys |
| PermissionCache.Transparent | services/data/role_permission.cpp:52-80 | over every history of insertions of declared enumerators, removals, checks, expiries and late or repeated deletes, each answer is that of the uncached tables |
| PermissionCache.InvisibleIff | services/data/user_Identity_role.cpp:36-70 | in a coherent store no series of checks and key deletions tells the cache from the tables if and only if every user's row holds declared enumerators |
| PermissionCache.TransparentIff | services/data/data.cpp:209-303 | the same equivalence after every history of insertions of any bytes, removals, checks and deletes |
| PermissionCache.UndeclaredRole | services/data/data.cpp:275-303 | a user inserted with role byte 7: hasRole answers true, then false, where the tables answer true twice |
| PermissionCache.UndeclaredIdentity | services/data/data.cpp:209-232 | a user inserted with identity byte 7: hasIdentity answers true, then false, where the tables answer true twice |
| PermissionCache.SecondAnswerAgreesIff | services/data/data.cpp:209-303 | asking twice about a user that is not cached agrees for all roles if and only if the stored role is declared, and for all identities if and only if the stored identity is |
| Playlist.TrimUnique | scaffold/src/suipeg.cpp:45-51 | the trimmed text is the one trimmed string that differs from the text by blanks at its ends |
| Playlist.TrimPadded | scaffold/src/suipeg.cpp:45-51 | blanks around a text do not show after trimming |
| Playlist.LinesJoin | scaffold/src/suipeg.cpp:72-76 | the lines of a text have no newline and make it up when each is given one, which the end of the text may lack |
| Playlist.M3U8Info.ParseM3U8Content | scaffold/src/suipeg.cpp:70-118 | appends exactly the parsed headers and pieces to the object's lists |
| Playlist.M3U8Info.Write | scaffold/src/suipeg.cpp:22-35 | produces the document text: EXTM3U, headers, EXTINF and URL of each piece, EXT-X-ENDLIST |
| Playlist.ParseIsNormal | scaffold/src/suipeg.cpp:70-118 | whatever is parsed is in normal form: trimmed, one line, no reserved headers, no comma in durations |
| Playlist.RoundTripIffNormal | scaffold/src/suipeg.cpp:22-118 | a document survives writing and parsing if and only if it is in normal form |
| Playlist.ParseWriteParse | scaffold/src/suipeg.cpp:22-118 | for every text, writing what was parsed and parsing that changes nothing |
| Playlist.PairingSpec | scaffold/src/suipeg.cpp:81-109 | the pieces are, in order and with none missing, the URL lines whose last EXTINF since the URL line before has a non-empty duration |
| Playlist.DurationMeans | scaffold/src/suipeg.cpp:102-109 | the duration of an EXTINF line is the trimmed text d that stands between blanks after the tag, whether the line ends there or a comma and any title follow |
| Playlist.DurationSplits | scaffold/src/suipeg.cpp:102-109 | every EXTINF line is of that form |
| Playlist.ExtinfAnnounces | scaffold/src/suipeg.cpp:78-109 | a line of that form, with blanks at its end or not, announces the duration d |
| Playlist.PieceParsed | scaffold/src/suipeg.cpp:70-118 | such a line with d not empty and a URL line are parsed as the one piece of d and the URL |
| Playlist.HeaderSpec | scaffold/src/suipeg.cpp:96-113 | the headers are the other `#` lines in order |
| Playlist.InkIsEnough | scaffold/src/suipeg.cpp:76-79 | parsing depends only on the trimmed lines that are not empty |
| Playlist.LayoutInvisible | scaffold/src/suipeg.cpp:76-118 | carriage returns, indentation and blank lines around any line leave the parsed document as it was |
| Playlist.CarriageReturnsInvisible | scaffold/src/suipeg.cpp:45-51 | with carriage returns before its newlines, a content is read as the same document |
| Playlist.WrittenText | scaffold/src/suipeg.cpp:22-35 | the written text, tag by tag |
| FileTransfer.FileRpcService.NewFileMeta | services/file/source/fileServiceData.cpp:57-85 | inserts the row, or swallows the failure and leaves the table as it was |
| FileTransfer.FileRpcService.DeleteFileMeta | services/file/source/fileServiceData.cpp:87-115 | deletes the row, or swallows the failure and leaves the table as it was |
| FileTransfer.FileRpcService.UploadImage | services/file/source/fileRpcService.cpp:18-82 | the reply and the new rows and blobs, for an accepted image and every refusal |
| FileTransfer.FileRpcService.UploadFile | services/file/source/fileRpcService.cpp:180-358 | the reply and the new trackers, rows and blobs, for a first chunk, an append and every refusal |
| FileTransfer.FileRpcService.CompleteFileUpload | services/file/source/fileRpcService.cpp:360-421 | the answer and the new rows, with either of the two database steps failing unnoticed |
| FileTransfer.FileRpcService.GetFileData | services/file/source/fileRpcService.cpp:423-459 | the size and number of chunks that are announced, as int32 |
| FileTransfer.FileRpcService.DownloadFile | services/file/source/fileRpcService.cpp:461-552 | the requested range of the blob of a completed file, or the error of the first check that fails |
| FileTransfer.DownloadChunkToBuff | scaffold/src/suiFastdfs.cpp:214-282 | the buffer is exactly the requested range cut off at the end of the blob, whatever blocks storage delivers it in |
| FileTransfer.AcceptedMatches | services/file/source/fileRpcService.cpp:191-223 | in whatever state, a request that is accepted was sent in a session and with the MD5 of its data, and one that is refused changes nothing |
| FileTransfer.UploadAnswers | services/file/source/fileRpcService.cpp:180-358 | each answer to an upload has its one cause, and a chunk is accepted exactly if session, MD5, upload id, due index, row, blob and storage are all in order |
| FileTransfer.MatchedRun | services/file/source/fileRpcService.cpp:214-223 | over any run no chunk is accepted whose MD5 does not match its data |
| FileTransfer.RowsRecorded | services/file/source/fileRpcService.cpp:64-83 | a first chunk and an image leave one row, with their user, path, type, status and declared size, which is announced as declared even if negative |
| FileTransfer.CompleteAnswers | services/file/source/fileRpcService.cpp:373-420 | a completion succeeds exactly for a file found uploading, in a session; any other answer has its one cause and changes nothing |
| FileTransfer.CompletedOnce | services/file/source/fileRpcService.cpp:400-415 | a completed file is not completed again |
| FileTransfer.DownloadAnswers | services/file/source/fileRpcService.cpp:477-542 | a download succeeds exactly for a completed file of some declared size whose blob can be read, in a session; other answers have their one cause |
| FileTransfer.FileDataAnswers | services/file/source/fileRpcService.cpp:438-457 | file data is announced exactly for a file that is found, with the int32 size and number of 10 MiB chunks of its row |
| FileTransfer.ImageServed | services/file/source/fileRpcService.cpp:18-82 | an image is accepted from its own user only, and the download of its id then serves what was sent |
| FileTransfer.NextCountsAccepted | services/file/source/fileRpcService.cpp:224-357 | every reply to a later chunk that carries curOperationSize names the number of chunks accepted for the upload, so the index to send next; a refused first chunk is told 0 and changes nothing |
| FileTransfer.DuplicateRefused | services/file/source/fileRpcService.cpp:299-311 | an accepted append sent again is refused, changes nothing, and is told the expected index |
| FileTransfer.OthersUntouched | services/file/source/fileRpcService.cpp:224-357 | a request leaves the tracker and the blob of every other upload as they were |
| FileTransfer.AppendKeepsStorageIff | services/file/source/fileRpcService.cpp:312-348 | an accepted append keeps all uploads stored as promised if and only if it carries the issued file id or no bytes; any other id, of an upload, an image or an older file, spoils it |
| FileTransfer.MispairingReachable | services/file/source/fileRpcService.cpp:300-348 | the failing request can be received: after two first chunks, a chunk with the upload id of the one and the file id of the other is accepted, and the uploads are no longer stored as promised |
| FileTransfer.RowOwner | services/file/source/fileRpcService.cpp:312-344 | a row, from whichever process or handler, leads to the blob of an upload exactly if it carries the file id issued with it |
| FileTransfer.StepConsistent | services/file/source/fileRpcService.cpp:180-421 | every upload, completion or image request keeps all uploads stored as promised and apart from each other and from all other rows |
| FileTransfer.StoredExactlyOnce | services/file/source/fileRpcService.cpp:224-357 | over any run of accepted, repeated, out-of-order, corrupt or failed requests, among images and the rows of earlier processes, each blob is the concatenation of its accepted chunks 0, 1, 2, ..., and its tracker knows their number and length |
| FileTransfer.CompletedByRequest | services/file/source/fileRpcService.cpp:400-415 | over any run, a file that has become downloadable was completed with both database steps working, or is an image |
| FileTransfer.DownloadServesUpload | services/file/source/fileRpcService.cpp:491-549 | a download of a file id that was issued with an upload is answered only for a completed file, with a chunk of the bytes accepted under that upload |
| FileTransfer.ServedPrefix | services/file/source/fileRpcService.cpp:530-533 | the first n chunks join to the first n times 10 MiB of the blob, or all of it |
| FileTransfer.DownloadTiling | services/file/source/fileRpcService.cpp:530-533 | the chunks of a blob partition it, all but the last are full, none is empty, later indices are empty, and no int32 index makes the offset leave int64 |
| FileTransfer.AnnouncedServesBlobIff | services/file/source/fileRpcService.cpp:449-457 | the chunks announced from the declared size in the row give the whole blob if and only if they are at least as many as the blob has; a declared int32 size no smaller than the blob is enough |
| FileClient.SplitterSends | services/test/file/fileclient/fileclient.cpp:219-232 | for five bytes or more and sums that fit into int, the turns of the int loop end exactly after 5 + ceil((n mod 5) / (n div 5)) chunks, between 5 and 9, and what they send joins to the content |
| FileClient.UploadContent | services/test/file/fileclient/fileclient.cpp:218-288 | in a run without failures, for no bytes or five and more, the loop ends, no position overflows, no request is refused, and the blob is the content |
| FileClient.DownloadContent | services/test/file/fileclient/fileclient.cpp:380-423 | the loop collects exactly the announced chunks of the blob in order |
| FileClient.Exchange | services/test/file/fileclient/fileclient.cpp:218-434 | upload, completion, file data and download return exactly the original bytes and change no other row or blob; for an empty content, and only then, there is no file to complete and nothing changes |
| FileClient.PiecesJoin | services/test/file/fileclient/fileclient.cpp:223-232 | the pieces cut from any position join to the rest of the content |
| FileClient.PiecesMany | services/test/file/fileclient/fileclient.cpp:223-232 | the number of pieces is the least that covers the rest of the content |
| FileClient.LoopEndsIff | services/test/file/fileclient/fileclient.cpp:219-232 | the loop reaches the end of the content without an int overflow if and only if the content is empty, or has five bytes or more and chunk count times chunk size fits into int; with one to four bytes it stays at 0 for ever |
| FileClient.IntPositionExact | services/test/file/fileclient/fileclient.cpp:219-232 | where those sums fit, the int positions of the client are the unbounded ones |
| FileClient.OverflowEndsEarly | services/test/file/fileclient/fileclient.cpp:219-232 | with wrapping sums, 3000000000 bytes end the loop after four turns, where five chunks were due |
| FileClient.OverflowStalls | services/test/file/fileclient/fileclient.cpp:219-232 | with wrapping sums, 9000000000 bytes bring the loop to a position that it never leaves |
| FileClient.TurnsPosition | services/test/file/fileclient/fileclient.cpp:223-288 | whatever the server, after any number of turns without a refusal the client stands at its int position, which is the unbounded one if nothing overflows |
| FileClient.StalledUpload | services/test/file/fileclient/fileclient.cpp:219-288 | with one to four bytes and a server that refuses nothing, each of any number of turns that int can count sends an empty chunk, is accepted, and leaves the position at 0 |
| FileClient.InterleavedUpload | services/file/source/fileRpcService.cpp:224-357 | whatever other requests are served and whatever rows and blobs there were, an upload whose accepted chunks are the client's pieces ends as a blob with the client's bytes |
| InterleavedClient.PlayInv | services/test/file/fileclient/fileclient.cpp:223-288 | the client's turns and any other admissible requests in between keep all uploads stored, and the client's upload equal to the content up to its position |
| InterleavedClient.UploadArrives | services/test/file/fileclient/fileclient.cpp:223-288 | among any other uploads, completions and images, from any rows and blobs, a client that is not refused has its content up to its position stored, and all of it once its loop is over or its last chunk is accepted |
| InterleavedClient.TurnIsTheClients | services/test/file/fileclient/fileclient.cpp:223-288 | a turn among others is the turn of the client alone |
| InterleavedClient.TurnAccepted | services/test/file/fileclient/fileclient.cpp:264-287 | a turn is not refused for anything that others have done, as long as session, storage, database and the file's row and blob are there |
| Identifiers.RandomUtil.Uuid | scaffold/src/suiRandom.cpp:7-41 | one character of the alphabet for each draw, then the counter in decimal; the counter advances modulo 2^32 |
| Identifiers.AlphabetMeans | scaffold/src/suiRandom.cpp:9-20 | the three alphabets list the digits, the letters, and both, each character once |
| Identifiers.UuidMeans | scaffold/src/suiRandom.cpp:27-40 | an identifier has as many characters of its kind as were asked for, each chosen by its draw, and then a numeral of the counter |
| Identifiers.AnyDrawn | scaffold/src/suiRandom.cpp:27-32 | every character of the kind can be drawn |
| Identifiers.DecimalMeans | scaffold/src/suiRandom.cpp:34-38 | the numeral is that of the counter in base ten, without leading zeros |
| Identifiers.DecimalInjective | scaffold/src/suiRandom.cpp:34-38 | different counters print differently |
| Identifiers.UuidCounter | scaffold/src/suiRandom.cpp:27-40 | equal identifiers of one requested length come from equal counters, whatever was drawn |
| Identifiers.IdsDistinct | scaffold/src/suiRandom.cpp:7-41 | among fewer than 2^32 serial calls no two of one length return the same identifier |
| Identifiers.SameDrawsCollideIff | scaffold/src/suiRandom.cpp:34-39 | two calls with the same draws collide if and only if they are a multiple of 2^32 calls apart |
| Identifiers.CreateUploadId | services/file/source/fileRpcService.cpp:240-246 | the collision loop ends after its first pass with an id no upload has, and the guarantee carries over to the next call |
| Identifiers.UploadIdFresh | services/file/source/fileRpcService.cpp:568-572 | an upload id with a new counter differs from every earlier one, whatever MD5 and draws they were made of |
| DrawnIds.DrawnAreFresh | services/file/source/fileRpcService.cpp:238-248 | the upload id and the file id that a request draws are new among all trackers, rows and issued file ids, for a process that has drawn no more than 2^32 identifiers |
| DrawnIds.DrawnFileIsFresh | services/file/source/fileRpcService.cpp:64-78 | so is the file id that an image draws |
| DrawnIds.IdsInUse | services/file/source/fileRpcService.cpp:224-421 | a request puts no identifier to use that was not in use or drawn by itself |
| DrawnIds.DrawnIdsSuffice | services/file/source/fileRpcService.cpp:224-421 | over any run of requests whose ids come from the counter, other code drawing in between, the freshness that exactly-once storage needs holds at every request |
| DrawnIds.StoredWithDrawnIds | services/file/source/fileRpcService.cpp:224-421 | from the start of a process, whatever rows and blobs it finds, while it draws no more than 2^32 identifiers, every upload is stored exactly once and in order |
| DrawnIds.ExchangeDrawn | services/file/source/fileRpcService.cpp:238-279 | the client's exchange with both ids drawn from the counter returns the original bytes under a new file id, and leaves what the next exchange needs |
| QueueHandshake.WakesOwner | scaffold/src/suiQueue.cpp:118-151 | a notification finds its own caller waiting, wakes it, and wakes nobody else |
| QueueHandshake.StepInv | scaffold/src/suiQueue.cpp:98-212 | every step keeps the holders of both locks, the owner of the outstanding request, and error state exactly when an operation failed |
| QueueHandshake.NoLostWakeup | scaffold/src/suiQueue.cpp:150-211 | whoever waits is the one whose answer or notification is still to come, and only one is outstanding |
| QueueHandshake.RunRank | scaffold/src/suiQueue.cpp:70-212 | over any run the invariant holds, the error state is never left, and steps taken plus the rank left never exceed the first rank |
| QueueHandshake.NoDeadlock | scaffold/src/suiQueue.cpp:98-212 | while a caller has not returned, some step can be taken |
| QueueHandshake.StepRank | scaffold/src/suiQueue.cpp:98-212 | every step lowers a rank, so nobody waits for ever |
| QueueHandshake.EveryCallReturns | scaffold/src/suiQueue.cpp:98-212 | runs are bounded, and one that cannot go on has every caller back, both locks free, and error state exactly if some operation failed |
| QueueHandshake.EndsWithItsAnswers | scaffold/src/suiQueue.cpp:118-151 | a declare that has ended well got three positive broker answers since its issue and a consume one, and no negative one; one that failed got fewer, and one negative answer as its last |
| QueueHandshake.AnswersOfRun | scaffold/src/suiQueue.cpp:98-212 | when all callers have ended well, the broker has given three positive answers for each declare and one for each consume |
| DelayTopology.StartInv | scaffold/src/suiQueue.cpp:98-166 | declaring a delayed setting from both ends builds the graph: delay queue, exchange, consumer's queue, and no other binding |
| DelayTopology.SendInGraph | scaffold/src/suiQueue.cpp:20-42 | in that graph each of the two exchanges feeds exactly its own queue, whatever the key |
| DelayTopology.StepInv | scaffold/src/suiQueue.cpp:154-245 | publishing, waiting, expiry and consumption keep every message in exactly one place, in order |
| DelayTopology.DueAreConsumed | scaffold/src/suiQueue.cpp:154-245 | from every state, forwarding and consuming while either is possible ends, and then every message published the delay ago or earlier has been consumed, in order |
| DelayTopology.DelayedInOrderOnce | scaffold/src/suiQueue.cpp:154-245 | over any run, what was published is what was consumed, is ready or is delayed, in order and once each; what arrived made one hop, not before the delay was over; and when the broker has nothing to forward, all that was published the delay ago or earlier has arrived |
| DelayTopology.PlainInOrderOnce | scaffold/src/suiQueue.cpp:154-245 | with a direct, fanout or unknown exchange type, every message is in the consumer's queue as soon as it is published, in order and once, unchanged until it is consumed |
| DelayTopology.ExchangeKinds | scaffold/src/suiQueue.cpp:20-42 | which names stand for which type of exchange |
| DelayTopology.DeadLetterNames | scaffold/src/suiQueue.cpp:5-18 | the names for dead letters are the plain ones behind their prefix |
| CacheOverQueue.ConsumedIsDue | services/data/removeCache.cpp:9-17 | a message that the subscriber consumes was published at least 3000 ms ago: what the cache's model takes as its delay follows from the queues |
| CacheOverQueue.StepSimulates | services/data/removeCache.cpp:20-52 | each step of cache and queues together is at most one enabled step of the cache's model, forwarding none |
| CacheOverQueue.Simulates | services/data/removeCache.cpp:20-52 | every run of cache and queues together is a run of the cache's model |
| CacheOverQueue.CoherentOverQueues | services/data/removeCache.cpp:20-52 | under the lag and key condition a stale entry has its delete message in the queues, and empty queues mean that the cache agrees with the table |

## Left out

- FileTransfer.FileRpcService.DownloadFile: chunk indices are natural numbers; for a negative one the offset wraps, and is not modelled.
- FileClient.UploadContent: a method has to end, so one to four bytes are left to `LoopEndsIff` and `StalledUpload`; positions are required to stay within int.
- FileClient.Exchange: the same lengths, and a table without an empty file id when the content is empty.
- FileClient.OverflowEndsEarly, FileClient.OverflowStalls: what the original does when a signed sum overflows is undefined; they take it to wrap.
- FileTransfer.StoredExactlyOnce: tracker index and size are proved as int32 values of the count and the length; after 2^31 chunks or bytes they wrap, where the original's signed addition is undefined or implementation-defined.
- Identifiers.CreateUploadId: asks that fewer than 2^32 identifiers have been drawn; beyond that the counter repeats (`SameDrawsCollideIff`).
- DrawnIds.StoredWithDrawnIds: takes it as given that a drawn file id is not one of an earlier process, for the counter starts again at 0 while the rows stay.
- DelayedDelete.Coherent: publishing that fails or is skipped in the error state is not modelled; a removal that is rolled back after publishing is.
- DelayTopology.PlainInOrderOnce: topic and headers exchanges are not modelled; nothing in the repository sets one up.
- Playlist.M3U8Info.Write: returns the text; reading and writing the file, and print, are left out.
- ChannelRing.Channels.Insert: the channel object and its initialisation are a node identity; `std::list`, its iterators and mutexes are not modelled below that.
- Within one handler of the file service, steps of other handlers are not interleaved: its tracker map has no lock, so nothing holds there.
- A server guarantee that a completed file has all its chunks or stays unchanged: the handlers do not enforce one; the client's run has it (`Exchange`).
- Image download, fileServicemq.cpp: the one serves whatever blob a row leads to, the other deletes without relating blob and row.
- Session cache operations other than their keys, and getPermissionsByRole: one query each.
- Declaring a queue again with other arguments, which the broker answers with an error: only as a failed answer in the handshake.
- MySQL isolation levels and Redis persistence: rows are read as committed, keys expire at any time.
- etcd registration and discovery, FFmpeg transcoding, mail, logging, JSON, factories, IP lookup, entity getters and setters: no property beyond single calls.
