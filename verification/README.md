# StegaPNG, verified model

StegaPNG is a client-server system that hides texts and files in the lowest bits of PNG
images. Clients send images and payloads over a line-oriented protocol, the server's main
thread queues jobs, and up to eight worker threads run the steganography codec. This project
models four parts of it in Dafny and proves what they promise:

1. **The codec** (`Bits`, `Carrier`, `Crc32`, `CrcTheory`, `Gf2`, `Container`, `Codec`,
   `CodecTheorems`, `Tampering`). An `Image` is a two-dimensional buffer of 8-bit RGB or RGBA
   samples; the loops that embed and extract work on it in place. A container (magic, kind, name,
   payload, CRC-32) is laid out in a buffer, and a decoder takes it back in three stages. Saving
   an image as PNG and loading it again is taken to be the identity on such buffers.
2. **The job engine** (`Engine`, `EngineInvariant`, `EngineRuns`, `EngineOutcomes`, `EngineOrders`,
   `EngineCancel`, `EngineProgress`, `JobQueue`, `JobTable`, `EngineQueue`). One main thread and n >= 1 workers
   form a labelled transition system with one step for each critical section, explicit program
   counters, the condition wait, spurious wake-ups, a signal that wakes at least one sleeper, and
   failing allocations, codec calls and event writes. All statements hold for every interleaving.
   The linked queue and the job table are verified separately as heap structures, and the
   engine's queue steps are shown to be the linked queue's operations.
3. **The wire protocol** (`Decimal`, `Protocol`, `Wire`, `Framing`, `FramingTheorems`). A stream
   is read in arbitrary pieces, with interrupted reads, and connection and disk may fail for good.
   Unless they do, the server's command handling is proved equal to a function of the bytes on the
   stream, and that function recovers what a client prints.
4. **Sessions and blocklist** (`Blocklist`, `Sessions`, `SessionRuns`). The fixed arrays of clients and blocked
   addresses, changed by accept, command and sweep phases of the poll loop.

`Util` holds notions shared by these parts.

## What the proofs found

- *Round trip.* Encoding then decoding returns kind, name and payload if and only if the payload
  is shorter than 2^32 bytes and a file's name has at most 255 bytes (`CodecTheorems.RoundTrip`).
  A longer name is silently cut, not refused (`CodecTheorems.LongNameIsCut`).
- *Decoder soundness.* A decoded carrier begins with exactly what the encoder builds for the
  returned kind, name and payload if and only if its name field is one the encoder can write: at
  most 255 bytes, no NUL, and empty for a text (`CodecTheorems.DecodedWasEncoded`). The decoder
  itself checks none of this; of a longer name it reports the first 255 bytes.
- *Errors.* A carrier gives the CRC error if and only if it begins with a container whose stored
  checksum is wrong, and the magic error if and only if it begins with no container at all, up to
  the checksum (`Container.ParseErrors`).
- *Capacity.* The advertised capacity is 15 bytes below the `(W * H * data_channels) / 8` that
  docs/SRS.md:130 gives; the code is modelled. It decides acceptance exactly, except that an empty
  message is refused on a carrier of fewer than 15 bytes, whose advertised capacity is 0
  (`CodecTheorems.AdvertisedCapacityDecides`).
- *Cancellation.* What an accepted cancel still decides is characterised exactly, over all runs, by
  where the job is (`EngineCancel.CancelInQueueExactly`, `EngineCancel.CancelDecidesExactly`). In the
  queue, right after the pop, at any of a TEXT job's five tests and before a DECODE's test, CANCELED
  is the only outcome left. Before an encode's test the preparation may still fail first. In the codec,
  and in a VALIDATE or CAPACITY job from its start on, some run goes to DONE and some to FAILED, and
  none to CANCELED (`EngineCancel.WhereCancelsDecide`); `EngineCancel.CanceledButDone` gives a
  reachable state in which a RUNNING job's cancel is accepted and the job can still be DONE.
- *Outcomes.* What a job's codec call returns is what the job ends with, over all runs
  (`EngineOutcomes.CodecDecides`), and no job is DONE without having passed all its cancel tests and
  its call (`EngineOutcomes.DonePassedEverything`).
- *Fallback.* The branch of the worker loop that marks a job FAILED when its processor left it
  RUNNING is never taken: after a negative return code the state is FAILED already
  (`EngineRuns.FallbackNeverTaken`).
- *Tampering.* Any change to the lowest bits of up to 32 consecutive data samples is detected inside
  magic and kind, the name, the payload or the checksum (`Tampering.TamperingIsDetected`). A change
  that straddles payload and checksum is missed if and only if the stored checksum changes as the
  register does (`Tampering.TamperingAcrossTheEnd`), and for every hidden container with a payload
  some change of 32 consecutive bits is missed (`Tampering.SomeTamperingPasses`).
- *Commands.* The order in which the parser tries its commands is immaterial
  (`Protocol.CommandIsItsWord`).
- *Framing.* A refused size leaves its payload on the stream. The server stops at a message's end if
  and only if the message has no payload, or comes from a user and is within the size limits
  (`FramingTheorems.StopsAtBoundaryExactly`).
- *Blocklist.* As long as every blocked address has at most 63 characters it is a duplicate-free
  bounded set at every head of the poll loop (`Sessions.LoopHeadInvariant`). A longer address
  is stored truncated, is not found afterwards, and is stored again by a second request
  (`Blocklist.BlockedIsFound`, `Blocklist.AddKeepsDistinct`, `Blocklist.LongAddressTwice`).

## Model

| member | source | states |
|---|---|---|
| Bits.WrittenBytesAreRead | src/server/stego.c:306-336 | Packing a bit stream that begins with the bits of some bytes, least significant first, gives those bytes back, whatever follows. |
| Bits.ReadBytesWereWritten | src/server/stego.c:318-336 | A stream whose first n packed bytes are known begins with exactly the bits of those bytes. |
| Bits.PrefixBytes | src/server/stego.c:545-588 | Extracting n bytes gives a prefix of any longer extraction. |
| Carrier.Image.Position | src/server/stego.c:299-312 | The k-th data sample: a position that is a data sample and whose rank is k. |
| Carrier.Image.PositionOfBitIndex | src/server/stego.c:278-313 | Ranks enumerate the data samples without gap or repetition, and there are exactly as many as the bit capacity. |
| Carrier.Image.FlatPosition | src/server/stego.c:278-291 | In flat order the k-th data sample is sample k (RGB) or 4*(k/3)+k%3 (RGBA). |
| Carrier.Image.EmbedBits | src/server/stego.c:295-314 | The nested in-place loops write every data bit that fits into the sample of its rank, change no other sample, and so overlay the LSB stream with the data's bits. |
| Carrier.Image.EmbeddingIsMinimal | src/server/stego.c:306-311 | No sample moves by more than one, only lowest bits change, alpha and everything behind the last bit are untouched. |
| Carrier.Image.ExtractBits | src/server/stego.c:318-337 | The nested loops with OR-ed bits fill the buffer with the packed first bits of the LSB stream, zeros past its end. |
| Crc32.TableIdentity | src/server/stego.c:42-45 | Eight register steps equal the steps of the low byte XOR-ed with the other bytes shifted, the identity that makes the table correct. |
| Crc32.CrcTable.BuildTable | src/server/stego.c:19-29 | Every table entry is eight polynomial steps of its index. |
| Crc32.CrcTable.Checksum | src/server/stego.c:33-47 | The lazily initialised table loop computes the bit-at-a-time CRC of the first len bytes. |
| Crc32.StepsInjective | src/server/stego.c:25 | Stepping the register loses no information. |
| CrcTheory.FeedOfWord | src/server/stego.c:42-45 | Up to 32 bits are absorbed as if the word they make were XOR-ed in at once. |
| CrcTheory.BurstDetected | src/server/stego.c:33-47 | Two byte strings whose bits differ only inside one window of at most 32 consecutive bits (so any four consecutive bytes) have different checksums. |
| Gf2.TheRemainder | src/server/stego.c:18-29 | Long division over GF(2) by a monic polynomial leaves the remainder, and there is only one. |
| Gf2.CrcIsRemainder | src/server/stego.c:18-47 | The checksum before its final inversion is the one remainder of the message, 32 zeros appended and its first 32 coefficients inverted, by the IEEE 802.3 generator polynomial. |
| Container.Be16 | src/server/stego.c:63-72 | Reading a written 16-bit big-endian field gives its value. |
| Container.Be32 | src/server/stego.c:49-61 | Reading a written 32-bit big-endian field gives its value. |
| Container.Be32Inverse | src/server/stego.c:49-61 | Writing a read 32-bit field gives its bytes. |
| Container.FormatBytes | src/server/stego.c:339-385 | The bytes of a container as numbers: magic, kind, the big-endian digits of name length, payload length and checksum, and where name and payload are. |
| Container.BeWordValue | src/server/stego.c:49-55 | The number a 32-bit field reads as is the value of its four bytes as a word. |
| Container.ParseOfFormat | src/server/stego.c:538-622 | Decoding a carrier that begins with a formatted container returns its kind, the first 255 bytes of its name and its payload. |
| Container.ParseIsSound | src/server/stego.c:538-622 | Whatever decodes begins with the format of what is returned, under the full stored name. |
| Container.ParseCharacterised | src/server/stego.c:538-622 | A carrier decodes to a result if and only if it begins with a format of that result. |
| Container.FormatUnambiguous | src/server/stego.c:339-385 | No carrier begins with two different containers. |
| Container.ParseErrors | src/server/stego.c:544-597 | A carrier gives the CRC error exactly when it begins with a container whose checksum is wrong, and the magic error exactly when it begins with nothing that is a container up to its checksum. |
| Codec.BuildContainer | src/server/stego.c:342-385 | The buffer filled field by field is magic, kind, name length, cut name, payload length modulo 2^32, payload and the CRC of all that. |
| Codec.EncodeCommon | src/server/stego.c:416-453 | Refuses exactly when the container does not fit, and then changes nothing; otherwise every sample and the LSB stream are as embedding leaves them. |
| Codec.Decode | src/server/stego.c:538-622 | The staged decoder returns what parsing the carrier's bytes returns, header, probe and full buffer never disagreeing; the CRC error exactly for a damaged container, the magic error exactly for none. |
| Codec.Basename | src/server/stego.c:510-515 | The part of the path after its last slash. |
| CodecTheorems.RoundTrip | src/server/stego.c:432-447 | Encode then decode returns the same kind, name and payload if and only if the payload length is below 2^32 and the name is at most 255 bytes (empty for a text). |
| CodecTheorems.LongNameIsCut | src/server/stego.c:348-353 | A longer file name round-trips to its first 255 bytes. |
| CodecTheorems.DecodedWasEncoded | src/server/stego.c:544-622 | A decoded carrier begins with exactly the container the encoder builds for the kind, C string name and payload returned, if and only if the name field is NUL-free, at most 255 bytes long, and empty for a text. |
| CodecTheorems.DecodedStreamWasEncoded | src/server/stego.c:318-337 | The same on the image's LSB stream. |
| CrcTheory.ChangeOfLastBits | src/server/stego.c:33-47 | How much the checksum changes when the last bits of the data do, 32 at most. |
| Tampering.TamperingIsDetected | src/server/stego.c:553-597 | Changing up to 32 consecutive bits of the LSB stream inside the hidden magic and kind, name, payload or checksum makes decoding fail; with the CRC error unless the change reaches magic and kind. |
| Tampering.TamperingAcrossTheEnd | src/server/stego.c:591-597 | Changing the payload's last bits, 32 at most, and any of the checksum's behind them: decoding succeeds if and only if the stored checksum changes by what the register makes of the payload's change. |
| Tampering.SomeTamperingPasses | src/server/stego.c:591-597 | For every hidden container with a payload, some change within 32 consecutive bits straddling payload and checksum decodes, to another payload. |
| CodecTheorems.CapacityIsExact | src/server/stego.c:400-408 | The encoder accepts exactly when the carrier holds 15 bytes and name plus payload are within the advertised capacity. |
| CodecTheorems.AdvertisedCapacityDecides | src/server/stego.c:400-408 | Advertised capacity and acceptance agree in all cases but the empty message on a carrier of under 15 bytes. |
| CodecTheorems.GetCapacity | src/server/stego.c:389-412 | The capacity report: width times height times three bits, in bytes, less the fifteen fixed ones (never below 0), with the image's dimensions and three data channels. |
| CodecTheorems.EncodeText | src/server/stego.c:456-466 | Succeeds exactly within capacity; the image then decodes to the text; on failure no sample has changed. |
| CodecTheorems.StoredFileName | src/server/stego.c:510-515 | A given name is the one stored; without one, what follows the path's last slash, or the whole path. |
| CodecTheorems.EncodeFile | src/server/stego.c:470-521 | Succeeds exactly within capacity; the image then decodes to the file under the given name, be it empty, or without one under the path's base name; on failure no sample has changed. |
| EngineInvariant.WorkKeeps | src/server/worker.c:65-310 | Every critical section of every job processor keeps what its program point promises about the job record and moves its state only along the lifecycle. |
| EngineInvariant.StepKeepsInv | src/server/worker.c:314-369 | Every step of every thread keeps the engine's invariant. |
| EngineInvariant.RunKeepsInv | src/server/server.c:1291-1355 | Every reachable state satisfies the invariant. |
| EngineRuns.ExactlyOnePlace | src/server/server.c:474-487 | Every job is held by main before its push, or queued once, or held by one worker, or finished; exactly one of these. Queued jobs are in state QUEUED. |
| EngineRuns.FirstInFirstOut | src/server/queue.c:50-114 | Pushed jobs are the popped ones followed by the queue, in order, none twice. |
| EngineRuns.Lifecycle | src/server/job.c:170-181 | Over any run a job goes only from QUEUED to RUNNING or a final state and from RUNNING to a final state; a finished record never changes again in any field. |
| EngineRuns.StepOnJob | src/server/job.c:157-181 | The same for one step, with two refinements: QUEUED to FAILED only by a refused enqueue, a cancel flag raised only by a cancel of an unfinished job. |
| EngineRuns.FinishedIsPublished | src/server/worker.c:186-194 | A finished job has its result text; an encode or decode that is DONE has its own output path and metadata, with kind, suffix and file name that belong together. |
| EngineRuns.FallbackNeverTaken | src/server/worker.c:355-359 | When a processor returns a negative code, its job is FAILED already, so the fallback is never taken. |
| EngineOutcomes.CodecDecides | src/server/worker.c:97-305 | Over all later runs: a job whose codec, validation or capacity call fails ends FAILED with the call's message, one whose call succeeds ends DONE with its message and, if it makes one, its output. |
| EngineOutcomes.PreparationDecides | src/server/worker.c:143-173 | An encode whose preparation fails ends FAILED with that message; an encode or decode that finds its cancel flag otherwise ends CANCELED. |
| EngineOutcomes.TestsDecide | src/server/worker.c:73-88 | A TEXT job that finds its flag at any test, or any job right after its pop, ends CANCELED; a TEXT job that passes the fifth test ends DONE; a job of no known type ends FAILED. |
| EngineOutcomes.DonePassedEverything | src/server/worker.c:73-334 | A DONE job has passed the test after its pop; a TEXT job also each of its five tests, an encode or decode its own test, and every job but a TEXT job a successful call. |
| EngineRuns.TwoPhaseReadsAgree | src/server/server.c:698-745 | RESULT, META and DOWNLOAD, which read the state first and other fields later, never mix old and new values. |
| EngineOrders.ReadIsOfTheJob | src/server/server.c:698-745 | A read command reads exactly the job it names, and exactly when that is finished (META and DOWNLOAD: DONE). |
| EngineRuns.EventsAreFinal | src/server/worker.c:361-364 | Each worker event carries the job's final state, and there is at most one per popped job. |
| EngineOutcomes.EveryEventIsSent | src/server/worker.c:361-364 | As long as no write to the pipe fails, every job handed out and no longer with its worker has had its event. |
| EngineRuns.StatisticsAddUp | src/server/job.c:314-336 | The five counters sum to the total although states change between the per-job locks. |
| EngineOrders.StatisticsAreSeen | src/server/job.c:307-341 | The counters are the tally of one state of each job, a state it had at some moment during the collection. |
| EngineRuns.IdsAreDense | src/server/job.c:72-101 | The job at position i has id i+1 and the next id is the count plus one. |
| EngineRuns.UploadsAreFresh | src/server/server.c:506-519 | The id peeked for an upload is the one the next job gets, and no existing job has an upload under it, also after failed uploads or with a full table. |
| EngineRuns.UploadNeverOverwrites | src/server/storage.c:125-138 | The file name being written differs from that of every existing job's upload. |
| EngineRuns.UploadsCarryTheirJobsId | src/server/server.c:599-657 | The uploads a job points to are named after its own id. |
| EngineOrders.OrderIsCarriedOut | src/server/server.c:474-657 | What a submission or upload command comes to: which steps make no job, and otherwise the new job's id, kind, input (the given path, or the PNG uploaded under its id), second file (the uploaded text or data), and its push or its end as FAILED with "enqueue failed". |
| EngineOrders.OrderStands | src/server/server.c:474-657 | From then on its id, kind, input and second file never change. |
| EngineOrders.FilesAreInPlace | src/server/server.c:616-654 | In every reachable state an uploaded input is the PNG under the job's id, and an uploaded second file the text of an ENCODE_TEXT or the data of an ENCODE_FILE job. |
| EngineCancel.CancelInQueue | src/server/job.c:157-167 | A cancel accepted while the job is queued: in no later state of any run is it RUNNING, DONE or FAILED. |
| EngineCancel.CancelInQueueExactly | src/server/job.c:157-167 | And CANCELED is reached by some run: it is the one state a job canceled in the queue can reach. |
| EngineCancel.CancelDecidesExactly | src/server/worker.c:65-334 | A cancel accepted while a worker holds the job: for each of RUNNING, DONE, FAILED and CANCELED, some run reaches it if and only if the worker's program counter and the job's kind do not exclude it. |
| EngineCancel.WhereCancelsDecide | src/server/worker.c:73-269 | Read off over runs: after the pop, at each of the five TEXT tests and before a DECODE's test only CANCELED is left; before an encode's test also FAILED; in the codec, and in a started VALIDATE or CAPACITY job, DONE and FAILED but not CANCELED; while output is published, DONE alone. |
| EngineCancel.CanceledButDone | src/server/worker.c:94-116 | A reachable state in which a RUNNING VALIDATE job's cancel is accepted and some run still takes it to DONE. |
| EngineCancel.CanceledWasRequested | src/server/worker.c:326-334 | A job is CANCELED only after an accepted cancel request. |
| EngineProgress.NoLostWakeup | src/server/queue.c:62-101 | While the server runs at least min(queued jobs, workers) workers are awake; after the stop none sleeps. |
| EngineProgress.WorkerStepDecreases | src/server/worker.c:322-365 | Every worker step decreases a measure over program counters and queue. |
| EngineProgress.AllWorkGetsDone | src/server/worker.c:322-365 | Left alone, the workers stop after boundedly many steps, and then the queue is empty and every job finished. |
| EngineProgress.WorkersCanFinish | src/server/worker.c:322-365 | From any state the workers alone can reach one where none of them can step. |
| EngineProgress.ShutdownTerminates | src/server/server.c:1093-1100 | After the stop every run is bounded, and one that cannot go on has joined every worker; no worker holds a job and every job is finished or was still queued. |
| EngineProgress.ShutdownStops | src/server/server.c:1093-1100 | A shutdown stops the queue with main's next step, and for good. |
| JobQueue.Queue.Push | src/server/queue.c:50-82 | The linked queue appends the job unless allocation fails or it is stopped. |
| JobQueue.Queue.Pop | src/server/queue.c:86-114 | One pass under the mutex: wait when empty, nothing when stopped, otherwise the oldest job is unlinked. |
| JobQueue.Queue.Stop | src/server/queue.c:117-126 | Stopping keeps the contents. |
| JobQueue.Apply | src/server/queue.c:50-126 | Any sequence of operations on the linked list has the effect it has on a sequence. |
| JobQueue.FrozenAfterStop | src/server/queue.c:64-101 | After the stop neither push nor pop changes the contents. |
| EngineQueue.RunIsQueueOps | src/server/queue.c:50-126 | Over any run the engine's queue is the linked queue after the run's operations. |
| JobTable.Table.CreateJob | src/server/job.c:51-104 | Adds a QUEUED job under the next id with owner, type, payload and input path as the record's buffers keep them and everything else cleared, unless allocation fails or the table is full, and then changes nothing. |
| JobTable.KeptFields | src/server/job.c:84-93 | Which field of the record keeps which part of the request, whole if it fits its buffer, otherwise cut to what fits. |
| JobTable.Table.Find | src/server/job.c:107-121 | The linear scan returns the job at position id-1, or none. |
| JobTable.Table.CollectStats | src/server/job.c:307-341 | The counters are the numbers of jobs in each state and add up to the total. |
| JobTable.CountsAddUp | src/server/job.c:314-336 | The five state counts of any table add up to its size. |
| JobTable.Record.RequestCancel | src/server/job.c:157-167 | The flag is set exactly for unfinished jobs, and the answer says so. |
| Decimal.ScanPrinted | src/server/protocol.c:24-39 | Scanning a printed number returns it and stops at the first non-digit. |
| Decimal.StrtoullPrinted | src/server/protocol.c:28-38 | strtoull of a printed 64-bit number returns it and the rest. |
| Decimal.UploadNamesDistinct | src/server/storage.c:125-138 | Upload names of different ids or suffixes differ. |
| Decimal.PrintedExamples | src/server/storage.c:125-138 | Upload names have the documented form. |
| Protocol.OnlyBlanksSkipped | src/server/protocol.c:42-46 | What is skipped is the blanks and tabs at the front, all of them and nothing else. |
| Protocol.SkipWs | src/server/protocol.c:42-46 | Advances over exactly the blanks and tabs. |
| Protocol.ParseSizes | src/server/protocol.c:109-129 | Fills the two or three sizes in turn; the command becomes unknown when one does not convert. |
| Protocol.ParseLine | src/server/protocol.c:51-180 | The chain of tests returns command c if and only if the line passes c's own test and c's sizes convert; the whole request is the one of the line's first word, and a text argument is what follows it. |
| Protocol.CommandIsItsWord | src/server/protocol.c:63-177 | So the order of the tests is immaterial: at most one can succeed, and it fixes the request. |
| Protocol.LineIsUnderstood | src/server/protocol.c:63-177 | A line made of any command's word and arguments, as long as it fits the buffers, is read as that command with those arguments; a text argument arrives whole. |
| FramingTheorems.JobTextLines | src/server/protocol.c:73-106 | Letter by letter: SUBMIT, VALIDATE_IMAGE and ANALYZE_CAPACITY lines give their text and no number. |
| FramingTheorems.AdminTextLines | src/server/protocol.c:161-177 | KICK, BLOCKIP and UNBLOCKIP lines give their text and no number. |
| FramingTheorems.IdLines | src/server/protocol.c:79-159 | STATUS, RESULT, CANCEL, META and DOWNLOAD lines give their id. |
| FramingTheorems.SizeLines | src/server/protocol.c:109-147 | DECODE, VALIDATE, CAPACITY, ENCODE_TEXT and ENCODE_FILE lines give their sizes in order. |
| FramingTheorems.HugeNumberLines | src/server/protocol.c:24-39 | An id beyond 64 bits saturates; a size beyond them makes a command with several sizes unknown. |
| FramingTheorems.UserBareLines | src/server/protocol.c:63-70 | PING, QUIT and HELP. |
| FramingTheorems.AdminBareLines | src/server/protocol.c:65-67 | LISTJOBS, STATS and LISTCLIENTS. |
| FramingTheorems.ReportLines | src/server/protocol.c:68-69 | HISTORY and AVGDURATION. |
| Wire.ReadLine | src/server/net.c:127-160 | Consumes exactly one line, or the buffer's worth, however reads are cut; only a hard error makes it fail, and then the part read is lost. |
| Wire.LineShape | src/server/net.c:135-156 | A line has no newline before its end, and ends at one unless the stream or the buffer ends it. |
| Wire.ReadExact | src/server/net.c:164-190 | Returns exactly the next size bytes, fewer only at the end of the stream; fails exactly at a hard error. |
| Wire.DiscardExact | src/server/net.c:194-217 | Drops exactly size bytes and says whether they all came; fails at a hard error. |
| Wire.ReceiveToFile | src/server/storage.c:158-200 | The file holds exactly the next size bytes, or does not exist: when the stream ends early, or a read, or the opening, writing or closing of the file fails. |
| Wire.WriteAll | src/server/net.c:97-123 | What is written is a prefix of the buffer, in order, as long as the returned count; all of it unless a write fails or takes nothing. |
| Framing.HandleClientCommand | src/server/server.c:980-1001 | For every stream and every way of cutting it, the outcome and the unread rest are those of one function of the bytes, for users and for admins, whose commands have no payload; a hard error of connection or disk on the way makes no job. |
| Framing.ServeSession | src/server/server.c:1335-1344 | The commands of one session, up to QUIT or the end, are those of one function of the stream. |
| FramingTheorems.HeaderIsUnderstood | python_client/steg_client.py:205-334 | The server reads every header of a message as the command and numbers meant. |
| FramingTheorems.EveryMessageIsAnswered | src/server/server.c:492-657 | For every message of a user, within the limits or not: the outcome, and what is left unread. |
| FramingTheorems.MessageIsRecovered | src/server/server.c:599-657 | A user's accepted message yields exactly the sent contents and the server stops at its end; a file with an over-long name is skipped whole. |
| FramingTheorems.CutShortMakesNoJob | src/server/net.c:164-217 | An accepted message whose payload the end of the stream cuts short makes no job. |
| FramingTheorems.SessionIsRecovered | python_client/steg_client.py:218-334 | Any concatenation of messages is recovered up to the first QUIT, behind which the server stops; without one, to the end of the stream. |
| FramingTheorems.ServePrinted | src/server/server.c:980-1001 | The session loop over a stream cut arbitrarily yields exactly the messages sent, unless connection or disk fails for good. |
| FramingTheorems.StopsAtBoundaryExactly | src/server/server.c:501-535 | For every message, from a user or an admin, what the server leaves unread; it stops at the message's end if and only if the message has no payload, or comes from a user and is within the size limits (or skipped with a total below 2^64). |
| Blocklist.List.Add | src/server/server.c:100-126 | Appends the truncated address unless it is present, empty, or the list is full. |
| Blocklist.List.Remove | src/server/server.c:129-150 | The shifting loop removes the first occurrence. |
| Blocklist.List.Contains | src/server/server.c:152-169 | Membership. |
| Blocklist.AddIsInsert | src/server/server.c:100-126 | For addresses under 64 characters the list stays a duplicate-free set of at most 32 and gains the address. |
| Blocklist.RemoveIsDelete | src/server/server.c:129-150 | On a duplicate-free list removal deletes exactly the address. |
| Blocklist.BlockedIsFound | src/server/server.c:117-121 | A newly blocked address is found afterwards if and only if it has at most 63 characters. |
| Blocklist.AddKeepsDistinct | src/server/server.c:108-122 | Exactly when an addition keeps the list duplicate-free. |
| Sessions.Server.AddClient | src/server/server.c:222-242 | The first free slot is filled; otherwise nothing changes. |
| Sessions.Server.AcceptInet | src/server/server.c:1004-1052 | Blocked users and a second admin are turned away; others get the first free slot. |
| Sessions.Server.KickCommand | src/server/server.c:909-932 | Marks the first active user with the descriptor, and no one else. |
| Sessions.Server.BlockIpCommand | src/server/server.c:934-954 | Adds the address and, if that succeeds, marks every active user there. |
| Sessions.Server.Sweep | src/server/server.c:1347-1351 | Frees exactly the slots of marked active sessions and leaves the others as they are. |
| Sessions.PollLoopKeeps | src/server/server.c:1291-1352 | Iterations of any events followed by the sweep keep the loop-head invariant. |
| Sessions.BlockBreaksLoopHead | src/server/server.c:934-949 | It need not hold in between: BLOCKIP breaks it exactly when the address is newly blocked while an INET user is connected from it. |
| Sessions.LoopHeadInvariant | src/server/server.c:1291-1352 | At every head of the poll loop at most one admin is connected, no INET user has a blocked address, and the blocklist has at most 32 entries; if every blocked address has at most 63 characters, it is duplicate-free and as a set the fold of all insertions, as far as there was room, and deletions. |
| SessionRuns.SessionStaysOrEnds | src/server/server.c:1310-1351 | From one head of the poll loop to the next a session stays in its slot, unchanged, unless it leaves, is the first user with a kicked descriptor, or is a user at an address that is blocked; then the slot is free. |
| SessionRuns.SessionStays | src/server/server.c:1291-1351 | The same over any number of iterations. |
| SessionRuns.FreeSlotStaysFree | src/server/server.c:1310-1351 | A free slot stays free in an iteration that accepts no connection. |
| SessionRuns.HeadsAreUnmarked | src/server/server.c:1347-1351 | At no head of the poll loop is a session marked. |
| SessionRuns.ArrivalGetsFirstFreeSlot | src/server/server.c:1004-1075 | A connection that is not turned away gets the first free slot with its descriptor, kind and address, unmarked; otherwise nothing changes. |

## Left out

- libpng decoding, encoding and format normalisation, and reading and writing of files: foreign calls. Failures of codec, validation and file operations inside workers are nondeterministic.
- An image row is assumed to have at most 2^31-1 samples, so that the column's conversion to int in `is_data_channel` is exact.
- Memory exhaustion in the codec: its buffers are assumed to be allocated.
- The mutex around the first building of the CRC table: the model's table is used by one thread at a time.
- Tampering with the hidden container's two length fields, and windows that straddle them: not claimed to be detected.
- The 64-bit width of `size_t` in the codec: no length reaches it, since the image's capacity bounds every container that is embedded.
- Engine: time stamps, average durations, worker and payload texts inside messages (a message is an arbitrary nonempty text), owner descriptors and addresses. The TEXT, VALIDATE_IMAGE and ANALYZE_CAPACITY paths a client types itself are opaque and are not compared with upload names.
- Engine: failure of `pthread_create` during start-up, and the freeing of tables after the joins.
- `job_table_cancel_by_owner` is called nowhere in the server; LISTJOBS and HISTORY only format text.
- After a hard error of a connection or the disk nothing is claimed of the commands that follow on that connection, except that the failed one makes no job. A path that does not fit its buffer counts as a failure of the file operation that follows.
- Admin commands are parsed but their text answers are not modelled; answers to users are reduced to the outcome of the command.
- The alignment of poll results with client slots: commands are dispatched to any client in any order.
- UNIX-socket users are not subject to the blocklist, as in the server, and are outside its invariant.
- Logging, inotify, signals, configuration, the admin console, the C and ncurses clients and the REST gateway.
