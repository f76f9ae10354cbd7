# Grimnir: a verified model

Grimnir senses presence from Wi-Fi channel state information (CSI). Muninn
receivers capture CSI and send it over UDP to Geri, which acknowledges and stores
it; Freki serves the database, its labels and its training jobs; Nornir daemons
train models; Völva predicts rooms live. This project models the parts of that
system whose correctness spans several functions or whole runs, and proves it.

| file | models |
|---|---|
| `Wrappers.dfy` | options, bytes and lists shared by the others |
| `DnsName.dfy` | what a domain name in a DNS message means (RFC 1035, sections 3.1 and 4.1.4), without buffers or loops |
| `DnsCodec.dfy` | the firmware's name encoder, skipper and reader, on byte buffers |
| `SrvQuery.dfy` | the SRV query, the walk over a response, the choice of a record |
| `SrvResponse.dfy` | responses as a name server prints them, octet by octet, and what the firmware makes of them |
| `TrainingJobs.dfy` | what each request and reaper tick means for the job table |
| `JobLineage.dfy` | whole runs of that table: claims, tokens, and the chain of rows of each submission |
| `JobHistory.dfy` | what a row says about the events of its run: signs of life, the reaper, ends |
| `JobHandlers.dfy` | Freki's handlers and the orphan reaper, which keep the table at the end of such a run |
| `JobDaemons.dfy` | Nornir's side of the protocol: train, upload, report |
| `LabelStore.dfy` | labels, rooms and the samples they paint, with their transactions |
| `LabelRuns.dfy` | whole runs of label and room requests, backfills and inserts |
| `TrainingMirror.dfy` | `training_samples` as a mirror of the labelled samples, over whole runs |
| `Paging.dfy` | the cursor-paged endpoint and the client loop, on a table that changes |
| `Chunking.dfy` | a list cut from its start into chunks of one size |
| `Windows.dfy` | the trainer's windowing against a specification without buffers |
| `AckWatchdog.dfy` | the receiver's ACK watchdog and Geri's ACK throttle, in real time |
| `EntryPool.dfy` | the fixed pool of capture entries, two queues, two tasks |
| `WireFormat.dfy` | capture, encoding and parsing of the CSI datagram |
| `BatchWriter.dfy` | Geri's batch writer |
| `Predictions.dfy` | Völva's windows, votes and publications |

`dafny verify dfyconfig.toml` checks everything.

## How it is modelled

Code that updates state in place is a class or works on arrays, with loops where the
source has loops; each method is proved against a function or a predicate, and the
claims about whole runs are lemmas about those. Every HTTP handler, transaction,
FreeRTOS handler and queue operation is one atomic step, and steps interleave without
restriction unless a lemma says otherwise. Clocks, ids, tokens, random numbers and
database errors are inputs of the steps. The classifier, the feature extractor, the
square root and the arc tangent are uninterpreted functions, a float32 is a 32-bit word.

## What the proofs brought to light

- The step budget of `dns_read_name` also pays for the terminator, so a plain name reads
  back if and only if it has at most 31 labels. Forward pointers are accepted.
- The SRV target is kept as a C string and trimmed of dots, so it is the name that was read
  if and only if that name holds no NUL byte and does not end in a dot (`TargetIsTheName`).
- A backfill paints what its label said when it was created. It is harmless for every
  table of samples if and only if labels of that room still cover its whole window;
  `LateBackfillIsUnsound` is the run in which a label is deleted first.
- The watchdog never fires falsely if and only if the ACK interval, the gap between
  accepted packets and the delay of ACKs add up to at most the ACK timeout, provided they
  hold as long as the watchdog is engaged.
- After an outage of any length the first poll resets the transport exactly when a count is
  older than the timeout, so an outage is harmless if and only if the watchdog is not engaged
  when it ends (`OutageIsHarmlessIff`). It is not engaged if neither CSI nor an ACK was handled
  since the last disconnect. There are two ways to be engaged: an ACK that was in flight at the
  disconnect is handled after it (`StrayAckFires`), and CSI arrives while the station is not
  connected, which the callback does not ask about (`EarlyCsiFires`). Polls do nothing while
  the station is disconnected, so neither count is cleared there.
- A window size or a batch size below one behaves as one, in the trainer, in Völva and
  in the batch writer.
- Where comments and code disagree the code is modelled: `_aggregate` is said to use each
  receiver's most recent vote but takes the majority, first voted for among equals; the
  wire protocol document says the watchdog reboots the board but it resets the socket; the
  packet header is commented as 44 bytes but asserted to be 60.

## Model

| member | source | states |
|---|---|---|
| DnsName.NextOffsetBounds | firmware/muninn/main/syslog_client.c:145-170 | skipping a name moves strictly forward and ends inside the message |
| DnsName.NameAtMonotone | firmware/muninn/main/syslog_client.c:191-233 | a larger step budget never changes a name that was already readable |
| DnsName.MeaningIsUnique | firmware/muninn/main/syslog_client.c:191-233 | a name in a message has at most one meaning |
| DnsName.ReadableIsSkippable | firmware/muninn/main/syslog_client.c:145-235 | whatever a reader can read, the skipper can skip |
| DnsName.PointerCycleHasNoMeaning | firmware/muninn/main/syslog_client.c:203-219 | a name whose compression pointers return to an offset already visited denotes nothing, whatever the budget |
| DnsName.DottedOfSpelled | firmware/muninn/main/syslog_client.c:118-143 | splitting text at its dots and joining it again gives the text without one trailing dot |
| DnsName.EncodedReadsBack | firmware/muninn/main/syslog_client.c:118-235 | an encoded name at any offset of any message is read back in exactly one step per label plus one, no fewer, and the skipper ends right behind it |
| DnsName.NameReadsBackExactly | firmware/muninn/main/syslog_client.c:118-235 | an encoded name is readable within 32 steps if and only if it has at most 31 labels, and then gives its text without the trailing dot |
| DnsName.CompressedReadsBack | firmware/muninn/main/syslog_client.c:203-219 | labels and a pointer to an encoded name anywhere in the message (high six bits first, then the low octet) read as the labels above that name, in exactly one step per label, one for the pointer and one for the end; the skipper ends behind the two octets of the pointer |
| DnsName.ReadableIsWritten | firmware/muninn/main/syslog_client.c:191-233 | the converse: whatever is read is spelled out there in full, or as labels of it and a pointer to where the rest is read in fewer steps |
| DnsName.PointerExample | firmware/muninn/main/syslog_client.c:203-219 | a pointer to offset 12, in octets, reads as the name there |
| DnsCodec.EncodeDnsName | firmware/muninn/main/syslog_client.c:118-143 | succeeds exactly when all labels have 1 to 63 bytes and the RFC 1035 encoding fits, then writes that encoding and no other byte |
| DnsCodec.DnsSkipName | firmware/muninn/main/syslog_client.c:145-170 | for every byte string and offset, succeeds exactly when the name's bytes end inside the message, and returns that end; otherwise the offset is left alone |
| DnsCodec.DnsReadName | firmware/muninn/main/syslog_client.c:172-235 | for every byte string and offset, succeeds exactly when the name, as CompressedReadsBack, EncodedReadsBack and ReadableIsWritten pin it down in octets, is reached within 32 steps and fits; writes the dotted labels and a NUL and nothing else; agrees with the skipper on the next offset; terminates on pointer cycles |
| DnsCodec.EncodeThenRead | firmware/muninn/main/syslog_client.c:118-235 | what the encoder wrote reads back as the given text less a trailing dot, exactly when it has at most 31 labels and fits |
| DnsCodec.CompressedIsReadable | firmware/muninn/main/syslog_client.c:172-235 | a compressed name is read as its dotted text exactly when it has at most 30 labels in all and fits |
| DnsCodec.ReadableMeans | firmware/muninn/main/syslog_client.c:172-235 | the reader's result is the unique RFC 1035 meaning, and it fails on a meaningful name only for lack of steps or room |
| SrvQuery.TrimTrailingDot | firmware/muninn/main/syslog_client.c:87-94 | trims all trailing dots of the C string in place |
| SrvQuery.TargetIsTheName | firmware/muninn/main/syslog_client.c:361-370 | the target is the whole name that was read if and only if it holds no NUL byte and does not end in a dot |
| SrvQuery.NulCutsTheTarget | firmware/muninn/main/syslog_client.c:361-370 | a message whose target is cut |
| SrvQuery.RecordsAdvance | firmware/muninn/main/syslog_client.c:339-378 | offsets of successive records strictly increase and stay inside the received length |
| SrvQuery.BestIsUnique | firmware/muninn/main/syslog_client.c:237-255 | lowest priority, then highest weight, then first seen determines one record |
| SrvQuery.BestRecord.Choose | firmware/muninn/main/syslog_client.c:237-255 | takes a candidate exactly when there is none yet or it beats the best |
| SrvQuery.HoldAfter | firmware/muninn/main/syslog_client.c:237-255 | folding the choice over the offers always holds the best of those seen |
| SrvQuery.ReadRecord | firmware/muninn/main/syslog_client.c:339-353 | finds a record exactly when name, fixed fields and data lie inside the message; every 16-bit read is in bounds |
| SrvQuery.ReadTarget | firmware/muninn/main/syslog_client.c:361-370 | the target is the decoded name as a C string without trailing dots |
| SrvQuery.ScanAnswers | firmware/muninn/main/syslog_client.c:339-378 | fails exactly on a malformed record; otherwise holds the best offer of the records scanned |
| SrvQuery.ProcessResponse | firmware/muninn/main/syslog_client.c:314-384 | returns exactly what an accepted response says: target and port of its best SRV/IN record whose target decodes; none if and only if no record qualifies or the response is not acceptable; what that means in octets is ChosenLineAnswers and OtherwiseNoAnswer |
| SrvQuery.AcceptedIsUnique | firmware/muninn/main/syslog_client.c:314-384 | a response says at most one thing |
| SrvResponse.ChosenLineAnswers | firmware/muninn/main/syslog_client.c:314-384 | a response written out octet by octet, with any owner names, record types, times to live and trailing bytes, answers exactly with the priority, weight, port and host printed on one line: lowest priority, then highest weight, then first among the SRV/IN lines whose target has at most 31 labels and 255 bytes |
| SrvResponse.OtherwiseNoAnswer | firmware/muninn/main/syslog_client.c:320-337 | the same response answers nothing under another id, with an error code, without answers or without a usable line |
| SrvResponse.SomeLineIsChosen | firmware/muninn/main/syslog_client.c:237-255 | if any line is usable, that rule chooses one |
| SrvResponse.AnswerOf | firmware/muninn/main/syslog_client.c:314-384 | the firmware, given such a response to its query, returns port and host of the chosen line, and nothing if and only if no line is usable |
| SrvQuery.BuildQuery | firmware/muninn/main/syslog_client.c:257-276 | builds one well-formed SRV/IN question, exactly when the name is valid and fits |
| SrvQuery.QueryReadsBack | firmware/muninn/main/syslog_client.c:257-337 | the firmware's own parser walks the query to its very end and reads the service name back |
| JobHandlers.JobTable.CreateJob | freki/src/freki/routers/training_jobs.py:94-113 | accepts exactly a forward window with 1 to 32 known rooms and adds one queued row; like every handler it keeps the table at the end of a run |
| JobHandlers.JobTable.ClaimJob | freki/src/freki/routers/training_jobs.py:126-160 | unknown daemon, missing or not queued row, and a token in use are refused without a change; otherwise the row is running under that daemon and token |
| JobHandlers.JobTable.HeartbeatJob | freki/src/freki/routers/training_jobs.py:163-187 | renews the heartbeat of a row held by that daemon and token, and changes nothing else |
| JobHandlers.JobTable.CompleteJob | freki/src/freki/routers/training_jobs.py:190-214 | completes a row held by that daemon and token and clears the token, or conflicts without a change |
| JobHandlers.JobTable.FailJob | freki/src/freki/routers/training_jobs.py:217-246 | fails a row held by that daemon and token with the given error, or conflicts without a change |
| JobHandlers.JobTable.CancelJob | freki/src/freki/routers/training_jobs.py:249-266 | cancels a queued or running row, or conflicts without a change |
| JobHandlers.JobTable.ReapOnce | freki/src/freki/orphan_reaper.py:29-68 | in one step fails exactly the running rows whose heartbeat is longer ago than the timeout, leaves all other rows as they were, and adds the requeued copies; which rows these are in terms of requests is ReaperGoesByTheLastBeat |
| JobHandlers.LongerRun | freki/src/freki/routers/training_jobs.py:94-266 | an accepted request extends a run to a run |
| JobHandlers.JobTable.Record | freki/src/freki/routers/training_jobs.py:94-266 | the table stays at the end of the run of its accepted requests, so what holds over runs holds of the table |
| JobLineage.NextKeepsInv | freki/src/freki/orphan_reaper.py:29-51 | every step of the table keeps chains, specs, claims and tokens consistent |
| JobLineage.ReapKeepsPlaces | freki/src/freki/orphan_reaper.py:29-51 | a tick never gives two rows the same place in a chain, however many ticks race |
| JobLineage.RunSettles | freki/src/freki/routers/training_jobs.py:141-258 | over any run terminal rows never change again, and specs and claims are never rewritten |
| JobLineage.ClaimedOnce | freki/src/freki/routers/training_jobs.py:141-152 | over any run a row is claimed at most once |
| JobLineage.OnlyTheClaimant | freki/src/freki/routers/training_jobs.py:170-238 | every accepted heartbeat, completion or failure comes from the daemon and token of an earlier accepted claim of that row |
| JobLineage.ChainShape | freki/src/freki/orphan_reaper.py:29-51 | the rows before any row of a submission carry its spec and are failed by heartbeat timeout |
| JobLineage.OneLivePerSubmission | freki/src/freki/orphan_reaper.py:29-51 | at any point of any run at most one row of a submission is anything but failed by timeout, so at most one is queued, running or complete |
| JobLineage.OneCompletePerSubmission | freki/src/freki/routers/training_jobs.py:197-206 | over any run, with any number of requeues, at most one row of a submission is ever complete |
| JobLineage.SubmissionIsOneChain | freki/src/freki/routers/training_jobs.py:109-111 | no submission is lost: all its rows form one chain from the created row to one the reaper has not failed, with one spec, all earlier rows failed by timeout |
| JobHistory.HeartbeatIsLastBeat | freki/src/freki/routers/training_jobs.py:141-187 | over any run the heartbeat time of a running row is the time of its last accepted claim or heartbeat |
| JobHistory.LastBeatExists | freki/src/freki/routers/training_jobs.py:141-187 | every running row of any run has such a last sign of life |
| JobHistory.ReaperGoesByTheLastBeat | freki/src/freki/orphan_reaper.py:29-51 | over any run a tick leaves a running row alone if its last accepted claim or heartbeat is within the timeout; otherwise the row is failed by timeout and exactly one new queued row carries its spec |
| JobHistory.ReaperLeavesTheRest | freki/src/freki/orphan_reaper.py:35-43 | a tick changes no row that is not running |
| JobHistory.LiveRowsAreUnended | freki/src/freki/routers/training_jobs.py:94-187 | over any run a queued or running row has no error and no time of completion, and a queued row has no daemon, token or times |
| JobHistory.EveryEndIsExplained | freki/src/freki/routers/training_jobs.py:190-266 | over any run every complete, failed or cancelled row was ended by one accepted request or tick, and its status, error, time and cleared token are those that this event leaves |
| JobHistory.SpecsAreGood | freki/src/freki/routers/training_jobs.py:94-113 | over any run every row, requeued ones too, has a forward window and 1 to 32 rooms |
| JobDaemons.MoveKeepsReports | nornir/src/nornir/main.py:158-182 | a completion is only ever reported after its model was stored |
| JobDaemons.CompleteRowsHaveModels | nornir/src/nornir/main.py:136-200 | over any run, with lost answers, delayed and repeated requests, a complete row has a stored model naming it, made by the daemon on the row |
| LabelStore.RepaintingIsUnique | freki/src/freki/routers/labels.py:252-283 | the topmost-label rule determines the painting |
| LabelStore.ShowsGreatestCovering | freki/src/freki/routers/labels.py:264-283 | the label a time shows is the covering one with the latest start, then the latest creation, then the greatest id; none exactly when no label covers the time |
| LabelStore.QueryOverlapping | freki/src/freki/routers/labels.py:264-271 | lists exactly the overlapping labels in start, creation, id order |
| LabelStore.LastPaintShows | freki/src/freki/routers/labels.py:273-283 | repainting clipped intervals in that order leaves at each time the room of the greatest covering label, or none |
| LabelStore.Freki.CreateLabel | freki/src/freki/routers/labels.py:199-228 | adds the label exactly when it has a room that exists and a forward interval; paints nothing yet |
| LabelStore.Freki.BackfillCsiSamples | freki/src/freki/routers/labels.py:85-113 | paints the whole window, or on a database error nothing |
| LabelStore.Freki.SyncTrainingSamples | freki/src/freki/routers/labels.py:65-82 | upserts the labelled samples of the window and touches nothing else |
| LabelStore.Freki.ResyncTrainingSamples | freki/src/freki/routers/labels.py:157-184 | replaces the window's part of the mirror by its labelled samples |
| LabelStore.Freki.DeleteLabel | freki/src/freki/routers/labels.py:231-303 | on success each sample of the window shows its greatest surviving covering label or none and the others are unchanged; a database error at any statement leaves labels and samples exactly as before |
| LabelStore.Freki.CreateRoom | freki/src/freki/routers/rooms.py:108-118 | adds the room, or conflicts if the name is taken |
| LabelStore.Freki.UpdateRoom | freki/src/freki/routers/rooms.py:121-182 | renames room, labels, samples and mirror together, or on conflict or error changes nothing |
| LabelStore.Freki.DeleteRoom | freki/src/freki/routers/rooms.py:185-200 | refuses to delete a room that a label names |
| LabelRuns.BackfillSoundIff | freki/src/freki/routers/labels.py:85-113 | a backfill keeps every sample table sound if and only if labels of its room still cover its whole window |
| LabelRuns.StepKeepsGood | freki/src/freki/routers/labels.py:231-285 | no create, delete, rename, insert or covered backfill ever leaves a label on a sample without a surviving label of that room covering it |
| LabelRuns.RenameNeverMerges | freki/src/freki/routers/rooms.py:121-178 | after a rename the samples of the new room are exactly those of the old one |
| LabelRuns.CoveredRunIsGood | freki/src/freki/routers/labels.py:85-134 | every run in which painting backfills find their window covered stays sound |
| LabelRuns.SettledRunIsSound | freki/src/freki/routers/labels.py:199-303 | if a label is not deleted and its room not renamed while its backfill is pending, every labelled sample always carries the room of a surviving label that covers its time |
| LabelRuns.LateBackfillIsUnsound | freki/src/freki/routers/labels.py:116-134 | without that order any label and any sample it covers give a run that breaks this |
| TrainingMirror.ActionKeepsAccounted | freki/src/freki/routers/labels.py:65-184 | the mirror is right about each sample or a pending step will put it right, whatever comes between |
| TrainingMirror.MirrorIsExact | freki/src/freki/routers/labels.py:116-184 | whenever no sync and no resync is pending, the mirror is exactly the labelled samples with their labels, over any run of create, delete and rename |
| Paging.Select | freki/src/freki/routers/training_data.py:94-120 | the wanted rows beyond the cursor, all of them, in key order |
| Paging.GetTrainingData | freki/src/freki/routers/training_data.py:126-180 | a page is a prefix of the listing, with the last key as cursor exactly when rows are left |
| Paging.AppendFullPage | nornir/src/nornir/freki_client.py:177-193 | after each page every row present throughout up to the cursor has been delivered, in key order |
| Paging.IterTrainingData | nornir/src/nornir/freki_client.py:168-193 | terminates; keys strictly increase and every row present at all requests comes exactly once, whatever was inserted or removed between pages; on an unchanged table the stream is exactly the listing |
| Paging.ListingIsUnique | freki/src/freki/routers/training_data.py:103-113 | a table has one listing, so the stream does not depend on the page size |
| Paging.SessionIsListing | nornir/src/nornir/freki_client.py:177-193 | for every page size the pages of a session, each asked for with the cursor of the one before, concatenate to the listing |
| Windows.RunsAreMaximal | nornir/src/nornir/train.py:65-82 | the runs concatenate to the rows, each of one room, neighbours of different rooms |
| Windows.WindowsAreUniform | nornir/src/nornir/train.py:65-82 | every window is exactly the window size of rows of one receiver and one room |
| Windows.RowsOfTakesAll | nornir/src/nornir/train.py:52-82 | a receiver's rows are all its rows: with the others they make up the whole table, row for row |
| Chunking.ChunksFill | nornir/src/nornir/train.py:77-82 | chunks of exactly the size and a shorter rest, side by side, are the list; the trainer and the inference loop both cut this way |
| Windows.ChunksFillTheRun | nornir/src/nornir/train.py:77-82 | a run is its windows side by side, each of exactly the window size, and a shorter rest that is dropped |
| Windows.ChunkedSnoc | nornir/src/nornir/train.py:65-82 | one more row adds to the chunked runs at most the one window it completes |
| Windows.EachReceiverIsChunked | nornir/src/nornir/train.py:52-82 | for each receiver the windows are its own rows cut into maximal runs and chunked, undisturbed by other receivers |
| Windows.Feed | nornir/src/nornir/train.py:65-82 | one row updates buffers and labels so that they stand for the specification of all rows so far |
| Windows.Windows | nornir/src/nornir/train.py:52-82 | the loop yields exactly the specified windows, in the order of their last rows |
| Windows.WindowsOfTable | nornir/src/nornir/freki_client.py:168-193 | the windows of the paged stream are those of the table's listing |
| Windows.SameForEveryPageSize | nornir/src/nornir/freki_client.py:168-193 | sessions with pages of any two sizes give the same windows |
| Windows.CollectWindows | nornir/src/nornir/train.py:85-115 | pairs features and rooms window by window; fails exactly when there is no window or widths differ |
| AckWatchdog.Receiver.OnCsi | firmware/muninn/main/main.c:360-369 | starts the count at the first CSI since the last clear only |
| AckWatchdog.Receiver.OnAck | firmware/muninn/main/main.c:532-540 | arms the watchdog and restarts the count |
| AckWatchdog.Receiver.OnDisconnected | firmware/muninn/main/main.c:129-133 | forgets the count and the last CSI |
| AckWatchdog.Receiver.ResetUdpTransport | firmware/muninn/main/main.c:318-338 | forgets the count and moves to a new port |
| AckWatchdog.Receiver.Poll | firmware/muninn/main/main.c:544-634 | resets exactly when connected, CSI is recent and the count has passed the timeout |
| AckWatchdog.Aggregator.MaybeSendAck | geri/src/geri/main.py:93-103 | acknowledges unless it did so to this address less than the interval ago |
| AckWatchdog.ResetsAreApart | firmware/muninn/main/main.c:578-632 | in every interleaving of CSI, ACKs, disconnects, send errors and polls, more than the timeout passes between any two resets by the watchdog |
| AckWatchdog.StateMirrorsEvents | firmware/muninn/main/main.c:360-634 | after any run the fields of the watchdog are what its events say: the last CSI, and since when a count runs |
| AckWatchdog.ResetsExactlyWhen | firmware/muninn/main/main.c:544-634 | after any run a poll resets if and only if the station is connected, the last CSI is within the grace, and the count is older than the timeout, all told from the events alone |
| AckWatchdog.IdlePollClears | firmware/muninn/main/main.c:578-596 | a poll later than the grace after the last CSI never resets and, while connected, ends the count |
| AckWatchdog.AlwaysSafe | firmware/muninn/main/main.c:600-632 | in every admissible run an ACK is on its way in time or can still be sent in time, so no poll fires |
| AckWatchdog.FalseReset | geri/src/geri/main.py:93-103 | for every larger interval, gap or delay there is an admissible run that resets falsely |
| AckWatchdog.NeverResetsIff | firmware/muninn/main/main.c:600-632 | if packets are accepted at most the gap apart and ACKs arrive within the delay whenever the watchdog is engaged, it never resets in any run, with any disconnects and send errors, if and only if interval + gap + delay is at most the timeout |
| AckWatchdog.ResumedResetsWhen | firmware/muninn/main/main.c:544-634 | after any run, the poll at the end of an outage resets if and only if a count is older than the timeout |
| AckWatchdog.OutageIsHarmlessIff | firmware/muninn/main/main.c:544-634 | after any run, an outage of any length ends without a reset if and only if the watchdog is not engaged then |
| AckWatchdog.EngagedIffCounting | firmware/muninn/main/main.c:99-104 | the watchdog is engaged if and only if CSI or an ACK was handled and no disconnect, send error, idle poll or reset came since |
| AckWatchdog.SilentOutageIsHarmless | firmware/muninn/main/main.c:129-133 | if neither CSI nor an ACK was handled since the last disconnect, the outage is harmless however long it lasts |
| AckWatchdog.StrayAckFires | firmware/muninn/main/main.c:532-540 | for all parameters, an ACK in flight at a disconnect and handled after it makes every outage longer than the timeout end in a reset |
| AckWatchdog.EarlyCsiFires | firmware/muninn/main/main.c:360-369 | for all parameters, CSI handled while disconnected does the same without any ACK |
| EntryPool.FullQueueHasRoom | firmware/muninn/main/main.c:407-409 | with an entry in the callback's hand the full queue has room, so its send never fails |
| EntryPool.FreeQueueHasRoom | firmware/muninn/main/main.c:507 | with an entry in the send task's hand the free queue has room, so giving it back never blocks |
| EntryPool.HandsAreApart | firmware/muninn/main/main.c:371-409 | callback and send task never hold the same entry, nor one that is queued |
| EntryPool.EntryPool.TakeFree | firmware/muninn/main/main.c:371-374 | takes the oldest free entry, or drops the CSI |
| EntryPool.EntryPool.Fill | firmware/muninn/main/main.c:375-405 | writes only the entry in hand |
| EntryPool.EntryPool.Enqueue | firmware/muninn/main/main.c:407-409 | queues the entry with the content that was captured |
| EntryPool.EntryPool.TakeFull | firmware/muninn/main/main.c:458-459 | takes the oldest queued entry |
| EntryPool.EntryPool.Send | firmware/muninn/main/main.c:460-506 | sends or drops the content of the entry in hand |
| EntryPool.EntryPool.GiveBack | firmware/muninn/main/main.c:507 | returns the entry to the free queue, so none leaks |
| EntryPool.EntryPool.Interleave | firmware/muninn/main/main.c:371-508 | in every interleaving of capture and send each of the 32 entries stays in exactly one place, exactly the samples written are queued, earlier outcomes stay, and datagrams leave in capture order |
| EntryPool.WritesAreQueued | firmware/muninn/main/main.c:371-508 | over any steps what was queued or pending grows by exactly the samples written, in order |
| EntryPool.FullIsTaken | firmware/muninn/main/main.c:451-508 | taking an entry keeps each of the 32 in exactly one place and the order of capture |
| EntryPool.SentInCaptureOrder | firmware/muninn/main/main.c:451-508 | datagrams leave in the order and with the content in which their samples were captured |
| EntryPool.SampleIsQueued | firmware/muninn/main/main.c:371-409 | whenever an entry is free the callback queues its sample in three steps |
| EntryPool.QueueIsDrained | firmware/muninn/main/main.c:451-508 | the send task, left to itself, deals with every queued sample, in order |
| WireFormat.FillSamples | firmware/muninn/main/main.c:400-405 | the length guard never cuts the sample loop short |
| WireFormat.Capture | firmware/muninn/main/main.c:375-405 | the entry holds the metadata and all antennas times subcarriers samples of the frame |
| WireFormat.EncodePacket | firmware/muninn/main/main.c:466-486 | every entry fits the static buffer, and the datagram carries it in the documented layout, whatever the buffer held before |
| WireFormat.ParsesWhatIsCarried | geri/src/geri/parser.py:78-135 | every byte string that carries a packet in a documented layout is parsed to that packet |
| WireFormat.CarriesWhatIsParsed | geri/src/geri/parser.py:78-135 | the parser accepts nothing else |
| WireFormat.OctetLayout | geri/src/geri/parser.py:78-135 | in every accepted datagram of version 1 or 2 each field lies at its documented offset, little-endian, octet by octet |
| WireFormat.OctetValues | geri/src/geri/parser.py:78-135 | so does each value of the two arrays, the second array right behind the first |
| WireFormat.StripNulOfPadded | geri/src/geri/parser.py:120 | removing the padding gives the name back |
| WireFormat.EntryReadsBack | geri/src/geri/parser.py:78-135 | the same fields and arrays arrive, under the first 31 bytes of the name |
| WireFormat.ShortNameArrivesWhole | firmware/muninn/main/main.c:472-473 | an ASCII name of at most 31 bytes arrives unchanged |
| WireFormat.SendAndParse | firmware/muninn/main/main.c:466-486 | encoding by the firmware and parsing by the aggregator compose to the identity on entries |
| BatchWriter.Writer.OnPacket | geri/src/geri/main.py:156-183 | a packet of a known receiver, or of one whose lookup succeeds now, is appended with that id; a batch this fills is flushed; only a failed lookup drops the packet |
| BatchWriter.Writer.OnTimeout | geri/src/geri/main.py:144-151 | an idle queue flushes what is there |
| BatchWriter.Writer.Run | geri/src/geri/main.py:131-183 | over any run the flushed rows are, in order and each once, those of exactly the positions of the queue whose receiver was looked up with success there or before, with the id of the first such lookup, in batches of 1 to BATCH_SIZE rows |
| BatchWriter.AcceptedAreOwned | geri/src/geri/main.py:156-163 | each row carries the id that was looked up for its own receiver's name |
| BatchWriter.AcceptedByPosition | geri/src/geri/main.py:156-183 | the rows the writer owes are those of these positions |
| Predictions.MostCommon | volva/src/volva/predict.py:74-78 | the room with the most votes, the first voted for among equals |
| Predictions.CountIsMultiplicity | volva/src/volva/predict.py:74-78 | a room's count is how often it was voted for |
| Predictions.WinnerIsUnique | volva/src/volva/predict.py:74-78 | votes have one winner |
| Predictions.Aggregate | volva/src/volva/predict.py:63-80 | a known room is 1 exactly when it wins some receiver's votes |
| Predictions.AggregateIsUnique | volva/src/volva/predict.py:63-80 | votes have one aggregate |
| Predictions.PushKeepsLatest | volva/src/volva/predict.py:44-52 | the votes kept are the last five cast: when a sixth comes the oldest leaves |
| Predictions.RowTracks | volva/src/volva/predict.py:128-151 | one row keeps the buffer what the windows of this connection leave over, and the votes the last five answers |
| Predictions.DropTracks | volva/src/volva/predict.py:222-223 | a lost connection starts a new cut of windows and changes no vote |
| Predictions.BallotsAreCast | volva/src/volva/predict.py:114-151 | every ballot is the active model's answer on exactly window-size consecutive rows of one receiver and one connection |
| Predictions.Volva.HandleRow | volva/src/volva/predict.py:114-151 | the row joins its receiver's buffer; a full buffer is emptied and casts the model's answer, if it has one, as the newest of at most five votes; no other buffer and no other votes change |
| Predictions.EmptyVotesDoNotCount | volva/src/volva/predict.py:75-76 | a receiver that has not voted yet changes no aggregate |
| Predictions.Volva.Put | volva/src/volva/predict.py:101-111 | the last publication moves only on an acknowledged write, so it is what the server stores |
| Predictions.Volva.MaybePublish | volva/src/volva/predict.py:83-111 | the last publication becomes the aggregate of the current votes, or stays it when the publication is skipped; it fails only if the write fails |
| Predictions.Volva.OnEvent | volva/src/volva/predict.py:174-205 | a missing or changed model clears votes and publications; the last publication stays the aggregate of the votes unless a write failed |
| Predictions.Volva.OnDrop | volva/src/volva/predict.py:222-223 | a lost connection empties buffers and keeps votes |
| Predictions.Volva.StreamLoop | volva/src/volva/predict.py:154-229 | over any run of rows, model changes and reconnects the votes of every receiver are exactly the last five answers of the active model to the windows its rows fill, each connection cut from its first row on, in order; as long as writes are acknowledged the server shows the active model and the aggregate of these votes once one was cast |

## Left out

- SrvResponse.ChosenLineAnswers: targets are printed in full, as RFC 2782 demands; a response whose target is compressed or broken, or that has several questions, is covered by SrvQuery.ProcessResponse and DnsName.CompressedReadsBack, not by the printer.
- JobDaemons.CompleteRowsHaveModels: `_execute_job` is a state machine over the answers that reach it, not a method, because its requests interleave with everybody else's; its own heartbeats are among the requests that may come at any time.
- Paging.IterTrainingData: terminates when the table stops changing at some point; a table that grows ahead of the cursor for ever keeps the client busy for ever.
- Predictions.Volva.StreamLoop: a write that fails but changes what the server stores makes later skips possibly stale; nothing is claimed about the server from then on.
- AckWatchdog.NeverResetsIff: a run in which the watchdog is engaged and no packet is accepted for longer than the gap when a poll looks is not admissible; if that is an outage, AckWatchdog.ResumedResetsWhen says what happens. Polls may come at any time, so the only-if half uses a poll at the worst moment; the firmware polls every five seconds. Time is real: on clocks that count whole ticks the last throttled packet comes at least one tick before the interval ends, so with a positive interval the exact threshold is one tick higher; only the real-time threshold is proved.
- AckWatchdog.Receiver.ResetUdpTransport: the new port is taken to be one the aggregator has not seen; `s_transport_reset_in_progress` is never seen set, because handlers are atomic.
- TrainingMirror.MirrorIsExact: syncs, resyncs and the mirror's part of a rename are not skipped for lack of permission or for a timeout; the database trigger and the retention of `csi_samples` are not part of this model.
- LabelStore.Freki.DeleteLabel: samples are identified by receiver and time, which `csi_samples` does not enforce; duplicates would be painted alike. Trimming of whitespace in room names is left to the caller.
- WireFormat.EntryReadsBack: a name of 32 bytes passes the static assertion but loses its last byte; this is what is proved. The text form of the MAC address is not modelled.
- The `csi_samples` fallback of the paging endpoint, which has no unique key, room names containing commas, and the text encoding of cursors.
- The DNS server list, sockets, Wi-Fi, logging, metrics, authentication, the dashboard and deployment: input and output with no provable core.
- `activate_model`: it rests on the database's order of execution for data-modifying expressions.
- Fitting of forests and feature extraction: uninterpreted.
- Heartbeat upserts of the batch writer: they do not touch the batch.
- `sanitize_log_line` and `migrate.py`: easier than what is here.
