# Verified model of the head-end server

The head-end server talks to smart meters through gateways of a radio mesh. This project models the
parts of it that loop, keep state or edit bytes in place, and proves what they keep over whole runs.

| file | what it models |
|---|---|
| `Wrappers.dfy`, `ResponseCodes.dfy` | a value that may be missing; the response codes as plain integers |
| `Bytes.dfy` | bytes and the sum-modulo-256 checksum |
| `Paths.dfy` | the paths of a node and the two ways an alternate path becomes primary |
| `PullMachine.dfy` | a profile pull as one flat machine (one transmission due in every state) and the properties of its runs |
| `PullEngine.dfy` | the four nested loops of the pull as the client runs them, proved to follow that machine |
| `DlmsRecords.dfy` | the record parser of a page and the encoding it inverts; type tags follow section 4.1.5 of the DLMS UA Blue Book (IEC 62056-6-2) |
| `PageBuffers.dfy` | what a page buffer holds at any moment of a run, and when it is committed |
| `PushData.dfy` | the push handlers, the buffers as objects, and the timeout cleanup |
| `PullData.dfy` | the pull handlers, and what asking again for a failed page does |
| `ProfileFields.dfy` | the second record reader, with its one-byte offset, compared with the parser |
| `NextPage.dfy` | the on-demand request that is edited in place from page to page, and its loop |
| `Framing.dfy` | the route extractors, the two framers of mesh frames, the destination address |
| `DlmsRequests.dfy` | the profile requests, and their relation to the edited on-demand request |
| `Receiving.dfy` | splitting one read of the socket into frames |
| `Registry.dfy` | the registry of gateway connections shared by all threads |
| `OdmQueue.dfy` | command text, and the on-demand queue shared by two threads |
| `FuotaTimeouts.dfy` | retries and alternate routes of a firmware update |
| `Cycles.dfy` | quarter-hour cycle ids of the last hour |

The environment is arbitrary: the pull reads a script of events (what each write and each receive
brings), the on-demand loop a script of response codes, the registry and the queue any interleaving of
steps that run under a lock or on the queue. A script that ends cuts the run, so every statement about a
run also holds for each of its prefixes.

Where the code falls short of what its comments or limits suggest, the code is modelled as it is and the
exact condition is proved:

* Rebuilding the alternates around a path drops every copy of it. All copies survive every sequence of
  promotions exactly for nodes with distinct paths, or with one alternate equal to the primary
  (`Paths.CopiesAlwaysKeptIff`).
* A profile is committed by counting pages. The count alone lets a repeated page stand in for a missing
  one (`PageBuffers.RepeatedPageCommitsIncomplete`); with the count right, the pages are complete exactly
  when none repeats and none lies beyond the last (`PageBuffers.CountedIsCompleteIff`).
* A page that fails to parse leaves its records behind. Asking again heals that for plain profiles; for
  the block load profile exactly when the failed page had not closed a block
  (`PullProcessing.RetryHealsBlocksIff`).
* The in-place edit of an on-demand request for the profiles with a time range breaks on step 257, when
  the one-byte page index is 1 again (`NextPage.SoundIff`).
* The third route extractor keeps 64 digits, so it has the whole route exactly up to eight hops
  (`Framing.StoredDigitsIff`).
* A page that fails to parse leaves its records in an empty buffer for good as far as the cleanup goes: the
  two-minute timeout only looks at buffers that counted a page (`PageBuffers.UncountedStays`).
* At most eleven frames of one read are handed on (`Receiving.HandedOnIff`).
* The worker takes "the front" off the on-demand queue after its work. If that command was cancelled, or
  dropped from a full queue, in the meantime, the next command is lost: commands are conserved exactly in
  the runs in which that did not happen (`OdmQueue.ConservedIff`).
* The alternate counter of a firmware update is raised twice per switch, so with limits 3 and 2 failure is
  declared on the eighth timeout, not on the twelfth (`FuotaTimeouts.FailsOnTheEighth`,
  `FuotaTimeouts.NominalCountIff`).
* A missing cycle is asked for by a relative number taken from one clock reading and stored under an id
  computed from a later one. The id survives exactly if the rounded quarter hour of the second reading is
  the quarter hour of the first, that is, before the tenth minute of that quarter hour begins
  (`Cycles.RoundTripIff`, `Cycles.DeadlineIff`). The minutes in which a pull may start leave one to seven
  minutes; a pull that takes longer moves its data to the next cycle (`Cycles.LateStoreMovesCycle`).
* Pages read on an alternate path use a reference into the list of alternates. When the connection is lost
  there and re-established on an alternate, that list is replaced and the reference dangles. Responses of
  the gateway that lead there exist for every node with an alternate: every run of a pull is well defined
  exactly for nodes without alternates (`PullMachine.NeverStrandsIff`, `PullMachine.StrandingRun`,
  `PullEngine.StrandingHappens`, `PullMachine.StrandsWhen`).
* The page counter is one byte. A pull accepts no page twice exactly for nodes with fewer than 240
  alternates (`PullMachine.AcceptsOnceIff`).
* With fewer retries than alternates a firmware update in image transfer may never be given up
  (`FuotaTimeouts.FailsInTheEndIff`); the limits of the code are not of that kind.

Verify with `dafny verify dfyconfig.toml` (Dafny 4.11).

## Model

| member | source | states |
|---|---|---|
| `PullEngine.Client.Attempt` | HES/src/client.cpp:7054-7111 | one pass of the retry loop: the frame is written exactly when due, the pass stops, has its answer, waits again or resends according to write result, code and connection flags, and the source address check is asked for by a write and settled by incoming data |
| `PullEngine.Client.RetryLoop` | HES/src/client.cpp:7052-7111 | the loop stays open only while retries are left, ends with the first final answer or a stop, and reports whether anything was heard; every event it consumed is accounted for |
| `PullEngine.Client.TransmitCommandAndValidateResponse` | HES/src/client.cpp:7044-7122 | the consumed events are exactly those that explain the outcome; the frame is written once plus once per spent retry and at most `maxRetries` times; the connection flag and the source address check afterwards follow from the events, and a transmission that heard nothing disconnects |
| `PullEngine.OnePass` | HES/src/client.cpp:7054-7111 | how each pass extends the explanation of a transmission: which passes end it with which code, and which leave it pending with or without a retry spent |
| `PullEngine.PassDecides` | HES/src/client.cpp:7071-7111 | by number: the six codes that end a transmission, the three that cost nothing, every other code a spent retry, and which silence ends it |
| `PullEngine.AnswersIff` | HES/src/client.cpp:7079-7083 | a first response is the answer of the transmission exactly for the codes 0, 1, 0x52, 0x25, 13 and 0x37 |
| `PullEngine.OtherwisePending` | HES/src/client.cpp:7084-7111 | after 0x07, 0x49 or 0x54 the transmission waits on with all its retries; any other code costs one |
| `PullEngine.ThreeStrikes` | HES/src/client.cpp:7095-7122 | three responses with any other code make the transmission fail after three writes |
| `PullEngine.SilenceDisconnects` | HES/src/client.cpp:7114-7118 | a transmission during which nothing came fails, counts the gateway as gone and leaves the source address to be checked |
| `PullEngine.AnswerSettles` | HES/src/client.cpp:7071-7083 | an answer leaves the gateway and the source address check as its own data left them |
| `PullEngine.WrongSourceChecks` | HES/src/client.cpp:7088-7092 | code 0x49 leaves the source address check on |
| `PullEngine.Client.TransmitCommandOnPathPmesh` | HES/src/client.cpp:6085-6090 | a transmission is the one the machine has due, is seen on the wire on that path, and moves the machine by its answer |
| `PullEngine.Client.AttemptDlmsReconnect` | HES/src/client.cpp:6300-6323 | a connect attempt moves the machine like its reduced code: success, connection failed, or failure |
| `PullEngine.Client.ReconnectOnAlternates` | HES/src/client.cpp:6339-6369 | alternates are tried in order until one answers or the connection is refused |
| `PullEngine.Client.RebuildAround` | HES/src/client.cpp:6343-6360 | the list after a reconnect on an alternate: old primary first, all copies of the promoted path gone, order kept |
| `PullEngine.Client.AttemptDlmsReconnectAllPaths` | HES/src/client.cpp:6325-6372 | failed path first, then the alternates if still connected; on success the page loop resumes on the (possibly new) paths, or a reference into the old list dangles on an alternate leg |
| `PullEngine.Client.RequestPage` | HES/src/client.cpp:6032-6079 | one page request and its answer: next page, final page, reconnect, refusal or failure, as the machine has it |
| `PullEngine.Client.PullProfilePagesOnPath` | HES/src/client.cpp:6016-6083 | the page loop on one path ends where the machine's leg ends, after at most sixteen requests and below page sixteen on the primary path |
| `PullEngine.Client.PromoteAlternate` | HES/src/client.cpp:5988-5993 | a working alternate becomes primary, leaves its place, and the old primary goes last |
| `PullEngine.Client.TryLeg` | HES/src/client.cpp:5949-6009 | one leg: which codes end the pull and which go on to the next path; an alternate that delivers the last page is promoted |
| `PullEngine.Client.TryPathsForProfilePull` | HES/src/client.cpp:5945-6014 | primary path, then every alternate in turn while connected: the client ends where the machine ends, with the same paths, page and code |
| `PullEngine.Client.FollowMachine` | HES/src/client.cpp:5945-6083 | the nested loops refine the flat machine: the wire carries exactly the machine's frames, its answers are made by the environment's events in order, and every prefix of a run is a prefix of a machine run |
| `PullEngine.Client.PullProfileForANode` | HES/src/client.cpp:6518-6531 | exactly the pages 0..k accepted, each once, transmission bound, page bound and path conservation for every pull of a profile and every behaviour of the environment; after a success the primary path is the one the last frame on the wire went out on |
| `PullMachine.AfterPageRequest` | HES/src/client.cpp:6034-6079 | what the client sends next after each answer to a page request, by number: the next page, a connect, nothing, or the due page on the next alternate if the gateway is there |
| `PullMachine.AfterConnect` | HES/src/client.cpp:6325-6372 | the same for a connect: the due page on the path that answered, a connect on the next alternate, or nothing |
| `PullMachine.RefusalEnds` | HES/src/client.cpp:5958-5960 | a DLMS error (13) to a page request is the last answer of every run: failure, no alternate tried, paths as they were |
| `PullMachine.NoPathSkipped` | HES/src/client.cpp:5945-6014 | a pull that fails without refusal or lost connection has asked for a page on every path the node knows |
| `PullMachine.SuccessPromotes` | HES/src/client.cpp:5984-5995 | after every successful run the primary path is the one that delivered the final page; an alternate that did so has left its place, the others kept their order, and the old primary is last |
| `PullMachine.ReconnectPromotes` | HES/src/client.cpp:6341-6363 | a connect that succeeds on an alternate makes it primary, puts the old primary first, drops its copies and keeps the order of the rest; any other answer keeps the paths |
| `PullEngine.SuccessOnPrimary` | HES/src/client.cpp:5984-5995 | on the wire: the last frame of a successful pull is the request for the final page on the path that is primary afterwards |
| `PullMachine.Gapless` | HES/src/client.cpp:6036-6059 | through retries, reconnects, promotions and alternates the accepted pages are consecutive from 0 in the one-byte counter, the page asked for is the next one, and success comes with the last accepted page, for any number of alternates |
| `PullMachine.EachPageOnce` | HES/src/client.cpp:6036-6059 | with fewer than 240 alternates the accepted pages are exactly 0..k, each once, and the counter is their number (one less after the final page) |
| `PullMachine.WrapAcceptsTwice` | HES/src/client.cpp:6040-6048 | with 240 alternates or more a run accepts page 0 a second time, as its 257th page |
| `PullMachine.AcceptsOnceIff` | HES/src/client.cpp:6036-6059 | no run of a pull accepts a page twice exactly for fewer than 240 alternates |
| `PullMachine.StrandsWhen` | HES/src/client.cpp:6341-6363 | the one step that leaves a dangling reference: a connect on an alternate succeeds while pages are read on an alternate |
| `PullMachine.StrandingRun` | HES/src/client.cpp:5971-5979 | four answers that lead there, for every node with an alternate |
| `PullEngine.StrandingHappens` | HES/src/client.cpp:7044-7122 | responses of the gateway that make these answers |
| `PullMachine.NeverStrandsIff` | HES/src/client.cpp:6360 | every run of a pull is well defined exactly for nodes without alternates |
| `PullMachine.PageBound` | HES/src/client.cpp:6036-6053 | the page counter never exceeds sixteen plus the number of alternates |
| `PullMachine.StepUsesOne` | HES/src/client.cpp:6020-6083 | every answer uses up at least one of the transmissions still possible, so a pull ends |
| `PullMachine.TransmissionBound` | HES/src/client.cpp:5945-6083 | at most 16(n+1)(n+2) transmissions and 48(n+1)(n+2) frames for n alternates, whatever the answers |
| `PullMachine.PromotionsDrive` | HES/src/client.cpp:5984-5995 | the paths of a node after a run are those before it under the run's promotions, in order |
| `PullMachine.RunConservesPaths` | HES/src/client.cpp:6343-6363 | a pull keeps the set of known paths, never lengthens the alternates, and keeps every copy of distinct paths |
| `PullMachine.FramesOnKnownPaths` | HES/src/client.cpp:6034-6079 | every frame of a pull goes out on a path the node knew from the start |
| `PullMachine.PullFacts` | HES/src/client.cpp:5945-6083 | all of these for one run |
| `Paths.PromotionKeepsPaths` | HES/src/client.cpp:6343-6360 | one promotion of either kind keeps the set of paths and does not lengthen the list |
| `Paths.PathsConserved` | HES/src/client.cpp:5984-5995 | any sequence of promotions keeps the set of paths |
| `Paths.RotationMovesUp` | HES/src/client.cpp:5988-5993 | a rotation makes the alternate primary, the old primary last, and keeps the order of the others |
| `Paths.RebuildKeepsOrder` | HES/src/client.cpp:6343-6360 | a rebuild puts the old primary first and moves every other path up by the copies of the new primary in front of it |
| `Paths.PromotionKeepsCopiesIff` | HES/src/client.cpp:6353-6357 | one promotion keeps the multiset exactly when it rotates or the rebuilt path occurs once |
| `Paths.DistinctKeepsCopies` | HES/src/client.cpp:6175-6192 | from distinct paths every sequence of promotions keeps the multiset |
| `Paths.LosingPromotions` | HES/src/client.cpp:6353-6357 | for every other node, but the lone twin, promotions that lose a copy |
| `Paths.CopiesAlwaysKeptIff` | HES/src/client.cpp:6343-6363 | exactly which nodes keep every copy through every sequence of promotions |
| `Bytes.CalculateChecksum` | HES/src/pull.cpp:114-125 | the wrapping 16-bit accumulation gives the low byte of the true sum |
| `DlmsRecords.ParseByType` | HES/inc/push.h:281-399 | value, payload position and next offset of every supported type, two's complement and all length checks included, as big-endian meaning of the payload bytes |
| `DlmsRecords.ShortValues` | HES/inc/push.h:281-399 | by the number of the tag: value, payload and next offset of types of at most one byte and of counted ones, and that no unknown type is parsed |
| `DlmsRecords.WideValues` | HES/inc/push.h:281-399 | by the number of the tag: value, sign and next offset of two, four and eight bytes, and when they do not fit |
| `DlmsRecords.NothingAtTheEnd` | HES/inc/push.h:281-290 | no type is parsed at the end of the data |
| `DlmsRecords.HeaderRefused` | HES/src/push.cpp:157-168 | a record without its header bytes or with a delimiter other than zero is refused |
| `DlmsRecords.RecordInverts` | HES/src/push.cpp:157-183 | an encoded record followed by at least one byte is parsed back, with its end found |
| `DlmsRecords.ScanInverts` | HES/src/push.cpp:155-187 | scanning an encoded record list up to the checksum byte finds exactly those records |
| `DlmsRecords.PageRoundTrip` | HES/src/push.cpp:140-198 | header, encoded records and checksum byte parse back to the records; success exactly when their number is declared; last write wins |
| `DlmsRecords.MergeContents` | HES/src/push.cpp:184 | merging a page overwrites exactly the ids it mentions, with content that depends on the page alone |
| `PushProcessing.ReadRecord` | HES/src/push.cpp:157-181 | one record is read or refused by header, delimiter and value |
| `PushProcessing.ParseDLMSRecords` | HES/src/push.cpp:140-198 | the loop terminates on any bytes, stays in bounds, leaves in the map all records before the first failure in order, and succeeds exactly when their number is the declared one |
| `PushProcessing.ParseBlockLoadDLMSRecords` | HES/src/push.cpp:200-264 | the same for block load, closing a block at each record 0x06 |
| `PushProcessing.HandlePage` | HES/src/push.cpp:283-321 | a good page is absorbed and counted; the last page always leaves the buffer clear, after an insert exactly when the count fits |
| `PushProcessing.HandleBlockLoadPage` | HES/src/push.cpp:401-444 | the same for block load, whose clear keeps the last packet time |
| `PushProcessing.ChecksumMatches` | HES/src/push.cpp:270-280 | a page is good exactly when the byte at the frame's length equals the checksum of its DLMS data |
| `PushProcessing.PacketBuffer.Clear` | HES/inc/packet_buffer.h:14-17 | clearing a plain buffer resets everything |
| `PushProcessing.PacketBufferBlockLoad.Clear` | HES/inc/push.h:203-208 | clearing a block load buffer resets content and counter and keeps the time |
| `PushProcessing.PushData.ProcessPlainPage` | HES/src/push.cpp:266-322 | a good page changes the buffer of its node and profile and no other, and inserts at most that profile; a bad one changes nothing |
| `PushProcessing.PushData.ProcessBlockLoadPage` | HES/src/push.cpp:384-445 | the same for block load |
| `PushProcessing.PushData.ProcessPushData` | HES/src/push.cpp:86-138 | dispatch by frame id and command: every buffer takes exactly the step of the event the page amounts to, in terms of the bytes of the frame |
| `PushProcessing.PageBytes` | HES/inc/push.h:34-58 | told from the bytes of the frame: a buffer changes only if bytes 11 to 14 end its node's address, bytes 21 and 22 are those of its profile and the checksum is good, and then by page index, status and declared number in bytes 20, 24 and 25 |
| `PushProcessing.OtherNodesUntouched` | HES/src/push.cpp:280 | a page never touches a buffer of a node whose address ends in other bytes than 11 to 14 |
| `PushProcessing.InsertBytes` | HES/src/push.cpp:300-321 | told from the bytes of the frame: an insert exactly on a good last page with the right count, for the node and profile addressed |
| `PushProcessing.PushData.CleanupPushProfiles` | HES/src/push.cpp:24-84 | every buffer with pages that waited over two minutes is cleared, and no other |
| `PageBuffers.BufferIsSinceClear` | HES/src/push.cpp:266-503 | in every reachable state the counter is the number of successful parses since the buffer's last clear, and the content what all its pages since then left |
| `PageBuffers.CleanupIff` | HES/src/push.cpp:24-84 | after a page that parsed, the next cleanup empties the buffer exactly when more than 120 seconds have gone by, and otherwise changes nothing |
| `PageBuffers.UncountedStays` | HES/src/push.cpp:36-38 | what a failed page leaves in an empty buffer is never removed by a cleanup |
| `PageBuffers.CountedIsCompleteIff` | HES/src/push.cpp:302-321 | with k+1 parsed pages, pages 0..k are all among them exactly when no parsed page repeats and none lies beyond k |
| `PageBuffers.CommitIsComplete` | HES/src/push.cpp:302-321 | a final page inserts exactly when its index plus one pages parsed since the last clear, what is inserted is the merge of those pages, and with distinct pages within range each arrived once and parsed |
| `PageBuffers.RepeatedPageCommitsIncomplete` | HES/src/push.cpp:306-314 | the count alone does not suffice: page 0 sent twice commits without page 1 |
| `PageBuffers.ArrivalOrderIrrelevant` | HES/src/push.cpp:184 | pages with disjoint record ids give the same map in every order of arrival |
| `PageBuffers.PageBoundariesIrrelevant` | HES/src/push.cpp:200-264 | pages absorbed one by one give what one pass over the whole record stream gives |
| `PageBuffers.SplitterFindsBlocks` | HES/src/push.cpp:244-250 | a stream of blocks and an unfinished rest is split into exactly those blocks and that rest |
| `PageBuffers.BlocksClosed` | HES/src/push.cpp:244-250 | every completed block contains id 0x06 and the one in progress never does |
| `PullProcessing.ProcessPlainData` | HES/src/pull.cpp:135-197 | the answer to the page loop and the buffer afterwards, for bad checksum, wrong node, failed parse and each next-page status |
| `PullProcessing.ProcessBlockLoadData` | HES/src/pull.cpp:261-321 | the same for block load |
| `PullProcessing.AnsweredIsCounted` | HES/src/pull.cpp:172-196 | a page that answers "next" or "done" is counted once and merged as a whole |
| `PullProcessing.AnswerByBytes` | HES/src/pull.cpp:135-197 | told from the bytes of the frame: success and next page exactly for a good page of the node asked (bytes 11 to 14) with the declared number of records and status 0 or 1 |
| `PullProcessing.RetryHealsPlain` | HES/src/pull.cpp:172-184 | records a failed page left behind disappear under the whole page |
| `PullProcessing.RetryHealsBlocksIff` | HES/src/pull.cpp:296-308 | for block load exactly when the failed part had not closed a block |
| `ProfileFields.LogDlmsDataType` | HES/src/client.cpp:1834-1973 | where the data of a field starts and how long it is, for every type tag |
| `ProfileFields.FieldByTag` | HES/src/client.cpp:1834-1973 | by the number of the tag: header bytes, payload and next offset of every type, and the types that do not move the offset |
| `ProfileFields.StoredIffTyped` | HES/src/client.cpp:2273-2279 | exactly the fields with a type are stored under their id |
| `ProfileFields.StoredInOrder` | HES/src/client.cpp:2273-2279 | what is stored under an id is in the order of reading |
| `ProfileFields.ParseProfile` | HES/src/client.cpp:2247-2281 | the fields visited with a wrapping one-byte offset, and what is stored under each id |
| `ProfileFields.SameRecord` | HES/src/client.cpp:2256-2279 | a record of a shared type is the same id, tag, payload and value for both readers, and they go on at the same place |
| `ProfileFields.DecodersAgree` | HES/src/client.cpp:2253-2280 | on every page of shared types within reach of the offset the two readers see the same records exactly when the declared number is right or runs past the end of the data |
| `ProfileFields.UnsharedStalls` | HES/src/client.cpp:1853-1878 | a type only the page parser knows makes this reader visit the same record again and again |
| `NextPage.PatchIsRecompute` | HES/src/client.cpp:1993-2001 | one more in the page byte, wrapping or not, is one more in the checksum byte |
| `NextPage.SecondPageIsSealed` | HES/src/client.cpp:2017-2058 | the literal second-page bytes carry page 1 and a correct checksum |
| `NextPage.StepIsNextPage` | HES/src/client.cpp:1987-2103 | the edit of the request for one page is the request for the next page built from scratch |
| `NextPage.PageFrameWellFormed` | HES/src/client.cpp:1987-2103 | a request built from scratch has the right length byte, DLMS start, page and checksum and keeps the route |
| `NextPage.RunIsAt` | HES/src/client.cpp:1987-2103 | after any number of steps the edited frame is that of the page the steps lead to |
| `NextPage.SoundIff` | HES/src/client.cpp:1987-2103 | length byte, DLMS start, checksum, page byte and both page indices stay right for every number of steps of the plain profiles, and exactly up to 256 steps of the ranged ones |
| `NextPage.WrapBreaks` | HES/src/client.cpp:2008-2063 | step 257 of a ranged profile cuts into the route |
| `NextPage.RecalculationIsIdentity` | HES/src/client.cpp:1800-1832 | recomputing the checksum of a well-formed request changes nothing |
| `NextPage.Client.HandleNextPage` | HES/src/client.cpp:1987-2103 | the in-place edit, its new length and the next page index |
| `NextPage.Client.RecalculateDlmsChecksum` | HES/src/client.cpp:1800-1832 | the in-place recomputation, for short buffers, foreign start bytes and every hop count |
| `NextPage.RecalculationRepairs` | HES/src/client.cpp:1800-1832 | a request whose checksum was damaged is repaired |
| `NextPage.OthersUntouched` | HES/src/client.cpp:1800-1832 | a buffer that is too short or carries no DLMS request is left alone |
| `NextPage.Client.React` | HES/src/client.cpp:1643-1795 | each response code's effect on retry counters, request and loop, pings and failed recoveries included |
| `NextPage.Client.ProcessOdmRequest` | HES/src/client.cpp:1606-1798 | every frame written is the well-formed request for the page the meter is at, and counters, writes and expected page index are those of the loop function |
| `NextPage.RequestsInOrder` | HES/src/client.cpp:1748-1757 | requested pages go up from 0, one "next page" answer at a time |
| `NextPage.EndsIff` | HES/src/client.cpp:1643-1795 | by number: exactly the answers, counters and failed writes that end the loop |
| `NextPage.SendsExactly` | HES/src/client.cpp:1643-1795 | by number: the next page is sent exactly on 0x02, the same page again exactly on 0x37, 0x29, and 0x06 and 0xFF while their counters last |
| `NextPage.RecoveryCounts` | HES/src/client.cpp:2106-2125 | what a recovered and a failed connection leave in the retry counter |
| `NextPage.UnsentEnds` | HES/src/client.cpp:1620-1625 | a first request that does not get through is the only one |
| `NextPage.PageIsTurns` | HES/src/client.cpp:1748-1757 | for every script the page is the number of "next page" answers the open loop read, and every page up to it was asked for |
| `NextPage.NextPageTurns` | HES/src/client.cpp:1748-1757 | each "next page" answer adds the request for exactly the next page, and the loop goes on if and only if that write got through |
| `NextPage.PagesAnswered` | HES/src/client.cpp:1748-1757 | k "next page" answers with successful writes give the requests 0, 1, ..., k |
| `NextPage.CountersTell` | HES/src/client.cpp:1635-1795 | the three counters of an open loop, told from the answers read: silences since the last new page, checksum errors in all, timeouts since the last success, new page or recovery |
| `NextPage.RequestBound` | HES/src/client.cpp:1643-1795 | timeouts, silence and checksum errors cause a bounded number of repetitions per page and connection |
| `Framing.ExtractPath` | HES/src/pull.cpp:25-55 | exactly paths of sixteen digits per hop are accepted, and give the low four bytes of each hop in order |
| `Framing.RouteOfBytes` | HES/src/pull.cpp:25-55 | in terms of the stored bytes: hop k contributes the last four of its eight bytes, in order |
| `Framing.AscHexToHex` | HES/src/utility.cpp:92-141 | the nibble arithmetic spells the bytes of upper-case hex |
| `Framing.UnhexInverts` | HES/src/utility.cpp:92-141 | bytes spelled in hex and read back are the same bytes |
| `Framing.ArrangeRoutePath` | HES/src/database.cpp:3246-3277 | the same route as `ExtractPath`, written in place, the rest of the buffer untouched |
| `Framing.ExtractDigits` | HES/src/database.cpp:1089-1112 | the digits of the route, cut after 64, and a terminator |
| `Framing.DigitsSpellRoute` | HES/src/database.cpp:1089-1104 | those digits spell the route |
| `Framing.StoredDigitsIff` | HES/src/database.cpp:1106-1112 | what is kept spells the whole route exactly up to eight hops |
| `Framing.FramePmeshCommandPacket` | HES/src/client.cpp:6793-6831 | the frame assembled by appending, with its length filled in |
| `Framing.GatewayNodePath` | HES/src/client.cpp:5753-5779 | the gateway's own node has no hops and the low four bytes of its id as path |
| `Framing.DestinationOfPath` | HES/src/client.cpp:1458-1486 | the destination bytes of the on-demand framer, block by block |
| `Framing.BuildOdmPmeshPacket` | HES/src/client.cpp:1390-1420 | the frame laid out by copies into a buffer of its final size |
| `Framing.BuildPmeshFrame` | HES/src/client.cpp:1422-1490 | the on-demand frame from the text fields of a command |
| `Framing.TailOfId` | HES/src/client.cpp:5713-5719 | PAN id and source address cut from the text of a gateway id are those cut from its decoded serial number |
| `Framing.FramersAgree` | HES/src/client.cpp:1390-1490 | for every gateway, path and command the on-demand frame and the pull frame are the same bytes, with and without hops |
| `Framing.OnDemandHeader` | HES/src/client.cpp:1390-1420 | byte for byte: start byte, length, type, PAN id and address from the gateway's id, and hop count of every on-demand frame |
| `Framing.GetDestinationAddress` | HES/src/client.cpp:1492-1524 | the address remembered for a frame is the last one of its route, for the frame and command types that are checked |
| `Framing.FrameParts` | HES/src/client.cpp:1492-1524 | in a framed command, start byte, length, type, PAN id, gateway address, hop count, route, last address and command are found at their offsets |
| `DlmsRequests.FrameDlmsNameplate` | HES/src/client.cpp:6833-6861 | the nameplate request |
| `DlmsRequests.FrameDlmsIp` | HES/src/client.cpp:6863-6896 | the instantaneous request, its cycle cut to a byte |
| `DlmsRequests.FrameDlmsRange` | HES/src/client.cpp:6898-7007 | the daily load and block load requests, with the time range on page 0 only |
| `DlmsRequests.FrameDlmsBhp` | HES/src/client.cpp:7009-7042 | the billing request: summing the zero padding gives the checksum of the request |
| `DlmsRequests.RequestsConsistent` | HES/src/client.cpp:6833-7042 | every request, for every page, cycle and time, has length byte size-1, its page, and the sum of the rest as last byte |
| `DlmsRequests.IpRequestNamesCycle` | HES/src/client.cpp:6863-6896 | byte for byte: the instantaneous request names its cycle in the seventh byte, so requests for different cycles differ |
| `DlmsRequests.RequestedCycleStores` | HES/src/client.cpp:6707-6713 | the number in the request for a missing cycle leads back to that cycle's id exactly if the rounded quarter hour of storing is the quarter hour of asking |
| `DlmsRequests.RangeRequestNames` | HES/src/client.cpp:6898-7007 | byte for byte: profile, page, and on page 0 the two times as big-endian numbers |
| `DlmsRequests.OtherRequestsName` | HES/src/client.cpp:6833-7042 | byte for byte: nameplate and billing requests |
| `DlmsRequests.EditedRangeRequest` | HES/src/client.cpp:2031-2083 | the framed first request of daily load or block load is edited into the framed request the pull side builds for any later page |
| `DlmsRequests.EditedBillingRequest` | HES/src/client.cpp:2008-2030 | the framed first billing request is edited into the framed short request |
| `DlmsRequests.FramedRequest` | HES/src/client.cpp:1800-1832 | a request framed for any route that fits is well-formed, recomputing its checksum is the identity, start byte and type are those the destination is remembered for, and the destination is the last address of the route |
| `DlmsRequests.EditIsReframing` | HES/src/client.cpp:2008-2083 | editing a framed first request of a ranged profile gives the frame around the short request for that page |
| `DlmsRequests.EditIsRepaging` | HES/src/client.cpp:1993-2003 | for the other profiles, the frame around the same request for that page |
| `Receiving.SplitInverts` | HES/src/client.cpp:925-940 | splitting concatenated frames gives them back in order, up to the number allowed |
| `Receiving.HandedOnIff` | HES/src/client.cpp:925-940 | all frames of a read are handed on exactly when there are at most eleven |
| `Receiving.SplitRead` | HES/src/client.cpp:925-942 | any buffer is cut in at most eleven pieces, each progressing, and the last one's code is returned |
| `Receiving.Client.ClientReceivedData` | HES/src/client.cpp:904-943 | oversized reads are dropped, the first read goes to the initialisation, all others are split |
| `Registry.RegistrySafe` | HES/src/client.cpp:43-98 | in every interleaving the registry lists exactly the registered, not superseded connections, each under its own id |
| `Registry.NoUseAfterFree` | HES/src/client.cpp:52-60 | registering only touches a connection that has not left and is not destroyed |
| `Registry.SupersededLeavesSuccessor` | HES/src/client.cpp:78-95 | a superseded connection leaves the registry as it is when it goes |
| `Registry.HolderIsLastRegistrant` | HES/src/client.cpp:43-98 | told from the history alone: the holder of an id is the last connection that registered it, until that one leaves |
| `Registry.Server.RegisterClient` | HES/src/client.cpp:43-67 | the newcomer takes the entry; the one before is marked duplicate and may not reconnect |
| `Registry.Server.UnregisterClient` | HES/src/client.cpp:69-98 | the entry goes only if it is the caller's |
| `Registry.Server.InitCommunication` | HES/src/client.cpp:919-923 | only the first data of a connection can register it |
| `Registry.Server.HandleClientEnd` | HES/src/server.cpp:233 | the end of a connection's thread |
| `CommandText.Explode` | HES/src/String_functions.cpp:6-18 | all fields, an empty last one included |
| `CommandText.Split` | HES/src/client.cpp:1153-1161 | the fields read one by one until the text is used up |
| `CommandText.FieldsFree` | HES/src/String_functions.cpp:6-18 | no field contains the delimiter |
| `CommandText.FieldsJoin` | HES/src/String_functions.cpp:6-18 | joining the fields gives the text back |
| `CommandText.FieldsAreLines` | HES/src/client.cpp:1153-1161 | the two ways of splitting differ by exactly one empty last field, for empty text or a final delimiter |
| `CommandText.SameRequestId` | HES/src/mqtt.cpp:219-222 | cancelling and processing read the same request id of a command that is not empty |
| `OdmQueue.QueueIsOrdered` | HES/src/mqtt.cpp:177-183 | in every run the queue holds at most 500 commands, all arrived, in order of arrival |
| `OdmQueue.FrontIsCurrent` | HES/src/client.cpp:1251-1370 | the command in work is the front of the queue unless it was dropped or cancelled since work began |
| `OdmQueue.ConservedIff` | HES/src/client.cpp:1248-1370 | every arrival is in exactly one of queued, processed, drained, cancelled and dropped, exactly in the runs that never finished a command taken away meanwhile |
| `OdmQueue.CancelDuringWorkLoses` | HES/src/mqtt.cpp:203-238 | cancelling the command in work loses the command behind it |
| `OdmQueue.WorkBegun` | HES/src/client.cpp:1251-1275 | such a state is reached: two commands arrive and the first is in work |
| `OdmQueue.Client.EnqueueOdm` | HES/src/mqtt.cpp:177-183 | a full queue loses its oldest command to the new one |
| `OdmQueue.Client.RemoveCommandsByReqId` | HES/src/mqtt.cpp:203-238 | exactly the commands with a listed request id go, the others keep their order |
| `OdmQueue.Client.BeginFront` | HES/src/client.cpp:1251-1275 | work starts on the front, under the request id cancelling would match |
| `OdmQueue.Client.PopFront` | HES/src/client.cpp:1366-1369 | whatever is the front by then is taken off |
| `OdmQueue.Client.DrainDisconnected` | HES/src/server.cpp:212-232 | every command left is answered once, in order, and the queue is empty |
| `OdmQueue.AnsweredIsPrefix` | HES/src/client.cpp:1268-1275 | an answer goes to the text up to its first colon, unless that is empty |
| `OdmQueue.CancelledByPrefix` | HES/src/mqtt.cpp:203-238 | cancelling an id takes exactly the commands away whose text is that id or goes on with a colon behind it |
| `OdmQueue.ArrivalDrops` | HES/src/mqtt.cpp:177-183 | in every run an arrival drops the oldest command exactly when five hundred are waiting, and is last itself |
| `OdmQueue.ClosedDrains` | HES/src/server.cpp:212-232 | no command is answered "gateway disconnected" before the connection is gone, and none is processed afterwards |
| `FuotaTimeouts.Fuota.PollTimeout` | HES/src/client.cpp:993-1053 | one timeout: retry, switch to the alternate route, or final failure and back to the primary route |
| `FuotaTimeouts.Fuota.PrepareAlternateRoute` | HES/src/fuota.cpp:1433-1491 | the second increment of the alternate counter, and its value when no route is found |
| `FuotaTimeouts.RankDropsByOne` | HES/src/client.cpp:1000-1029 | each timeout that is not the last lowers the number of retries still to come by exactly one and rebuilds the command once, for prepared routes under any limits, and for all outcomes with at most two alternates and at least as many retries |
| `FuotaTimeouts.FailsExactly` | HES/src/client.cpp:993-1053 | failure is declared on exactly the computed timeout, for prepared routes under any limits, and for all outcomes with at most two alternates and at least as many retries |
| `FuotaTimeouts.AlternateIff` | HES/src/client.cpp:1014-1036 | the alternate route is in use exactly from the first timeout after the primary retries until failure is declared |
| `FuotaTimeouts.AlwaysOnLastTimeoutIff` | HES/src/client.cpp:993-1053 | whatever the route searches bring, it is that timeout exactly for at most two alternates and at least as many retries |
| `FuotaTimeouts.FailsInTheEndIff` | HES/src/fuota.cpp:4740-4746 | failure is declared after a bounded number of timeouts exactly with at least as many retries as alternates |
| `FuotaTimeouts.NeverFails` | HES/src/fuota.cpp:4740-4746 | otherwise a failed search for a route of the same length keeps the update alive for ever |
| `FuotaTimeouts.FailsOnTheEighth` | HES/inc/fuota.h:278-284 | the eighth timeout under the code's limits, after seven rebuilds, whatever the routes |
| `FuotaTimeouts.NominalCountIff` | HES/inc/fuota.h:278-284 | one round per route, as the limits suggest, only if the alternate limit is at most one |
| `Cycles.WindowIsLastFour` | HES/src/database.cpp:1657-1658 | the query's window, over midnight too, is exactly the cycles with relative number 0..3 |
| `Cycles.MissingCycles` | HES/src/database.cpp:1691-1723 | no cycle of the window is skipped in the conversion, up to four |
| `Cycles.RoundTripIff` | HES/src/database.cpp:2051-2086 | a cycle of the window at one clock reading is stored under its own id at a second one exactly if the rounded quarter hour of the second is the quarter hour of the first |
| `Cycles.DeadlineIff` | HES/src/client.cpp:6705-6713 | within the day that means: before the tenth minute of the quarter hour in which it was asked for |
| `Cycles.SameInstantIff` | HES/src/database.cpp:2051-2086 | with both readings at one instant, in the first ten minutes of a quarter hour |
| `Cycles.ScheduledDeadline` | HES/src/client.cpp:5639-5646 | the minutes in which a pull may start leave between one and seven minutes |
| `Cycles.SlotIff` | HES/src/client.cpp:5639-5646 | a pull may start in minutes 3 to 9 of a quarter hour, but not before minute 6 of the hour; the slot is the number of the quarter |
| `Cycles.LateStoreMovesCycle` | HES/src/client.cpp:6707-6712 | cycle 1, asked for at 00:09 and stored at 00:10, becomes cycle 2 |
| `Cycles.IdInRange` | HES/src/database.cpp:2077-2085 | every stored id lies in 1..96 |

## Left out

- Sockets, poll, MySQL, mosquitto callbacks, logging, files and configuration: they appear only as scripts of events, as oracles for outcomes, or as logs.
- Parsing of a single response frame into its code (`validate_received_data`, `client_process_data`): the pull and the on-demand loop start from the code.
- Matching late responses to pages: the pull state does not compare the page index of a response, so paging is stated for requests and outcomes.
- The buffer-based `transmit_command_and_validate_response` (HES/src/client.cpp:4057-4376): its alternate branch walks an empty list.
- `handle_connection_failed` and its own frames: the on-demand loop takes its result as an event; the header it appends to on every call is not modelled.
- Handlers that overrun their buffers: a page is assumed to lie in the receive buffer together with the bytes its length fields point to, a path to fit the 100-byte buffer, a command the 256-byte one.
- PushProcessing.PushData.ProcessPlainPage: one method stands for five handlers with the same body, and a buffer is created with its first good page instead of six together; an untouched buffer counts as fresh.
- PullEngine.Client.AttemptDlmsReconnectAllPaths: after a rebuild on an alternate leg the reference to the failed path dangles; when exactly that happens is proved (`PullMachine.StrandsWhen`, `PullMachine.NeverStrandsIff`), but what the source does afterwards has no meaning and nothing is claimed about it.
- PullEngine.Client.TransmitCommandOnPathPmesh: a frame is a path and a request here; its bytes are the subject of `Framing.dfy` and `DlmsRequests.dfy`.
- NextPage.Client.ProcessOdmRequest: for the profiles with a time range at most 256 further pages, since step 257 cuts into the route (`NextPage.SoundIff`).
- OdmQueue.Client.PopFront: taking the front off an empty queue has no meaning in the source; here the queue stays empty. Queue operations are atomic steps, although the source does not lock them.
- DlmsRequests.FrameDlmsRange: the clock is a pair of 32-bit parameters; the time ranges are not computed.
- Framing.AscHexToHex: upper-case digits only; lower-case and invalid digits have no defined result in the source.
- ProfileFields.ParseProfile: scaling, dates and floating point of the value decoder; the payload bytes are compared instead.
- Instantaneous data of the on-demand and pull sides across cycles, which is never cleared between cycles.
- The validation of incoming commands (`validate_request_ids`), its duplicate window of two ids, and the Failed and firmware queues, which have the same bounded form as the on-demand queue.
- Firmware updates beyond the timeout counters: image transfer, silencing, routes; other places that reset the counters.
- The scheduling state of the hourly pull (`done_mask`), daylight saving time, and the SQL of the missing-cycle query beyond its window.
