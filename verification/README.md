# NERV-FS: a verified model

NERV-FS is a multi-threaded file server written in C. One thread runs a `select` loop and hands sockets to a
pool of workers; workers run upload, download, delete, chmod and list under a home-made reader/writer lock per
file name; clients in C and JavaScript speak a length-prefixed binary protocol with it. This project models the
server and both clients in Dafny and proves what they promise together.

## How it is built

| file | what it models |
|---|---|
| `Bytes`, `Protocol`, `Payloads`, `Listing` | byte order, header, full-transfer loops, names, request and reply payloads, LIST |
| `LockRules`, `LockTable` | the lock rules, and the linked lock table as a heap structure |
| `JobQueue` | the head/tail job queue as a heap structure |
| `Regions` | both heap structures driven by every run of `Server`, step for step |
| `Server` | the running server as a transition system: pool, lock table, storage, any number of workers |
| `Calls` | what each file system call and each commit of a handler does, for every directory and every answer of the kernel |
| `Handlers` | the handlers and `process_job` as sequential code whose every call is a step of `Server`, with the other threads running between any two calls |
| `LockSafety`, `Atomicity`, `Traces`, `Linearizability` | what every step and every run of the server keeps |
| `WholeFiles` | exactly when an upload, or a later download of it, is whole |
| `Liveness`, `Shutdown` | deadlock freedom, wakeups, termination |
| `Paths`, `Overtaking` | runs built step by step, and those in which readers overtake a waiting writer |
| `Descriptors`, `SelectLoop`, `HandOver` | who owns which descriptor number, the select loop over its array, and a client that reaches a worker |
| `Bridge`, `Clients`, `EndToEnd`, `Feasibility` | both clients, the law from one client to the other, and runs of every server: uploads whole and half-written, deletes, chmods, listings, refusals, shutdown |
| `Timing` | the clock arithmetic |

One step of `Server` is one mutex-protected region, one system call, or one piece of a transfer. What the kernel,
the clock, the peers and the scheduler decide is left open: which call fails, how many bytes a `read` or `write`
moves (for an upload's one `write`, any count up to the size), whom a signal wakes, who runs next. A condition
wait is a state (asleep, woken, about to re-check), and a waiter may wake for no reason. A run is any sequence of
enabled steps from any start (`Init`): any number of workers, any storage directory whose files are small enough
to be downloaded.

The state carries a log of what happened. A request is *committed* at one entry of that log: an upload, delete or
chmod when it releases its lock, a download when its file is mapped under the read lock. `Atomicity.Legal` is the
sequential specification: what a request may answer and do to a map from name to bytes and mode when it runs
alone. It lets an upload that fails leave its file untouched (the open failed), empty, or a proper prefix of the
new data, because that is what the code does (`src/handlers.c:163-188`).

`Server.Do`, `Descriptors.Do`, `Payloads.ParseRequest`, `Protocol.ParseHeader` and the other functions without an
`ensures` are the model itself; the lemmas and methods below are what is proved about them.

## Assumptions

- Allocation of a lock-table entry succeeds; the code goes on without any lock when it does not (`src/fileops.c:325-329`).
- A `write` returns a positive count or an error, and a connection that failed once keeps failing.
- Names are byte sequences; two paths are the same file exactly when they are the same string (no links, no case folding).
- Only the server touches the storage directory. Nothing but the server's own `chmod` changes a mode, and the umask leaves 0644 as it is.
- An inode that lost its name is not given to a new file within the run.
- For deadlock freedom and termination, every socket delivers, takes or closes: a client that stops in the middle of its payload and keeps the connection open holds a worker, and with it the shutdown, for ever (`src/protocol.c:13-22`).
- Descriptor numbers fit a `select` set. A signal wakes at least one waiter if there is one.
- The five clock readings of an upload are taken from one clock that does not go back (`Timing.UploadTotal` only).
- In `Handlers` and `SelectLoop` the answers of the kernel, the clock and the allocator are arguments, so their contracts hold for each of them.

## Where the code and its documentation differ

The model follows the code.

- A successful upload has a 24-byte body (`src/handlers.c:199-205`); the protocol document has none.
- The bridge reads a download wrongly when its size plus 8 does not fit 32 bits, since the header's length is cast; the C client reads it rightly (`Clients.DownloadRoundTrip`). No file the server itself stored is that large (`WholeFiles.StoreFits`).
- The `reserved` field of a response carries microseconds (`src/handlers.c:83`); the document says always zero (`docs/api_reference.md:31`).
- The document promises that no half-written file is ever read (`docs/api_reference.md:158-160`). It fails when the one `write` of an upload takes fewer bytes than there are: `Feasibility.HalfWrittenDownload` gives the run, for every server, name, data and cut. `WholeFiles.DownloadIsWhole` and `EndToEnd.UploadThenDownload` say exactly when it holds: if and only if the upload was answered with success, or had nothing to write and did open the file, or did not open it and the file already was that data. `EndToEnd.UploaderKnows` says that the upload's own response decides which. A download is never torn in any case (`Linearizability.DownloadIsOneVersion`).
- "A pending writer blocks new readers" (`include/fileops.h:58`) is false: `Linearizability.ReadersPassWaitingWriters` gives the exact condition, and `Overtaking.WritersCanStarve` a run for every number of readers.
- The readme says names are checked with `realpath()` and that `..` anywhere is refused (`readme.md:33`, `readme.md:304`); the code compares whole names only, and `Payloads.ResolveAcceptsValidNames` is exact about it.

## Model

| member | source | states |
|---|---|---|
| Bytes.ReadAfterPrint | src/handlers.c:23-60 | A number written into a k-byte field is read back unchanged if and only if it fits k bytes. |
| Bytes.PrintAfterRead | src/handlers.c:23-60 | Every k-byte field is the big-endian form of the number read from it, so there is one encoding per value. |
| Bytes.FieldRoundTrip | src/handlers.c:23-60 | 16, 32 and 64-bit values survive their fields. |
| Bytes.PrintInjective | src/handlers.c:44-60 | Two values with the same field bytes are the same value. |
| Bytes.ShiftedIsValue | client/nervfs_client.c:175-188 | The shift-and-or reading of four bytes in `do_list` is the network-order value. |
| Bytes.WriteBig | src/handlers.c:44-60 | The writer stores the k big-endian digits at the offset and leaves the bytes before and after alone. |
| Bytes.PutBytes | client/nervfs_client.c:224-228 | A copied field extends the filled part of a buffer by exactly its bytes. |
| Protocol.RawHeaderRoundTrip | src/protocol.c:43-83 | All five header fields are recovered from a printed header, whatever follows on the stream. |
| Protocol.HeaderRoundTrip | src/protocol.c:43-83 | A printed header is accepted if and only if it has this protocol's magic and version, and then unchanged. |
| Protocol.HeaderCanonical | src/protocol.c:43-83 | The 16 bytes of an accepted header are the ones the serializer prints for it. |
| Protocol.SerializeInto | src/protocol.c:70-83 | The in-place writer leaves the printed header in the first 16 bytes and the rest of the buffer untouched. |
| Protocol.RecvFull | src/protocol.c:8-25 | For every way the stream is cut: the full count and exactly those bytes, the short count at its end, or -1 on an error; the stream has moved on by what was read. |
| Protocol.SendFull | src/protocol.c:27-41 | All bytes go out in order, or -1 after a prefix; nothing goes out on a connection that had failed. |
| Payloads.ResolveAcceptsValidNames | src/fileops.c:36-66 | A name is accepted if and only if it obeys the documented rules and the path fits; the path is root, slash, name. |
| Payloads.ResolveStaysInRoot | src/fileops.c:36-66 | Splitting an accepted path at its last slash gives the storage root and the name: no name leaves the directory. |
| Payloads.PathsAreDistinct | src/fileops.c:36-66 | Two accepted names never share a path, so a lock per name is a lock per file. |
| Payloads.UploadVerdict | src/handlers.c:125-153 | Every well-formed upload payload is accepted with its name and data, or refused with 403 exactly for a bad name. |
| Payloads.UploadCanonical | src/handlers.c:125-153 | In 32-bit arithmetic: a payload is accepted as an upload of name and data if and only if it is the encoding of a valid name and that data. |
| Payloads.NameCanonical | src/handlers.c:210-225 | The same both ways for the name-only payload of download (and, in its own words, delete). |
| Payloads.ChmodCanonical | src/handlers.c:374-391 | The same both ways for chmod. |
| Payloads.ParseIsCanonical | src/handlers.c:413-435 | For every opcode: a request is served with these arguments if and only if opcode and payload encode exactly them. |
| Payloads.ParsedIsWellFormed | src/handlers.c:125-153 | Whatever arrives, an accepted request has a valid name and data of at most 2^32 - 12 bytes. |
| Payloads.UploadRefusals | src/handlers.c:125-153 | For every upload payload, in numbers that do not wrap: which refusal, code and text, it gets, if and only if which of the four checks is the first to fail. |
| Payloads.DownloadRefusals | src/handlers.c:210-225 | The same for every download payload. |
| Payloads.DeleteRefusals | src/handlers.c:335-350 | The same for every delete payload. |
| Payloads.ChmodRefusals | src/handlers.c:374-389 | The same for every chmod payload. |
| Payloads.OtherOpcodes | src/handlers.c:413-435 | A request is a listing if and only if its opcode says so, and refused as unknown if and only if its opcode is none of the five. |
| Payloads.FrameRoundTrip | src/handlers.c:75-92 | A receiver recovers opcode, length, elapsed time and body of any reply shorter than 2^32. |
| Listing.ListDir | src/fileops.c:210-265 | The growing array ends up with the reportable items of the directory in order, each with its own name, size and twelve mode bits, and none left out; with room between count and twice that. |
| Listing.CollectedReports | src/fileops.c:226-259 | A strictly increasing index leads from the entries to the items they stand for, with the same name, size and mode modulo 4096; it reaches exactly the items that are examined regular files with a usable name and path. |
| Listing.ManyEntriesFit | src/handlers.c:299-302 | 15,966,421 entries always fit a 32-bit payload, and with longest names no more do. |
| Listing.ListLength | src/handlers.c:299-302 | The 32-bit length pass equals the true length if and only if that is below 2^32. |
| Listing.PrintEntry | src/handlers.c:316-324 | One round of the write pass appends exactly one printed entry, in bounds. |
| Listing.PrintList | src/handlers.c:304-325 | With the length from the first pass every write is in bounds, the last ends at the end of the buffer, and the buffer is the printed list. |
| Listing.EntryRoundTrip | src/handlers.c:315-325 | A printed entry is read back, with its exact length, from any stream that starts with it. |
| Listing.EntriesRoundTrip | src/handlers.c:315-325 | A printed sequence of entries is read back as that sequence. |
| Listing.ListRoundTrip | src/handlers.c:299-327 | A body is read as a list of entries if and only if it starts with the printed form of that list. |
| Listing.ReadEntriesInC | client/nervfs_client.c:179-191 | The C loop over its buffer returns the entries the format defines. |
| Listing.ReadListInC | client/nervfs_client.c:167-193 | The C client reads exactly that list from a body that holds one. |
| Listing.ReadEntryInJs | bridge/nervfsClient.js:184-194 | One round of the JavaScript loop reads the same entry, or throws exactly when a field would leave the buffer. |
| Listing.ReadListInJs | bridge/nervfsClient.js:175-197 | The JavaScript client reads the same list, or throws exactly when the body holds none. |
| Listing.HandleList | src/handlers.c:282-331 | The reply to LIST decodes to the reportable items of the directory in order, each with its own name, size and mode bits, and none left out. |
| LockTable.Table.Find | src/fileops.c:317-323 | The search finds the entry of a name if and only if the table has one. |
| LockTable.Table.GetEntry | src/fileops.c:317-338 | The list refines a map: an existing entry is found unmoved, a missing one is created free at the head, and no other name changes. |
| LockTable.Table.CondWait | src/fileops.c:345-347 | Any number of inserts and counter changes by other threads leave every old entry in its place in the list. |
| LockTable.Table.AwaitFree | src/fileops.c:340-381 | The entry pointer kept across the waits is still the entry of its name; a free entry is not waited for. |
| LockTable.Table.AcquireWrite | src/fileops.c:340-353 | A granted writer found the entry free and is its only holder; nothing else changed since the wait ended. |
| LockTable.Table.AcquireRead | src/fileops.c:368-381 | A granted reader found no writer and adds exactly one to the readers; nothing else changed since the wait ended. |
| LockTable.Table.Release | src/fileops.c:355-394 | A release changes one name's counters, and only as its kind of lock says. |
| JobQueue.Queue.Submit | src/threadpool.c:120-131 | The queue becomes the old sequence with the job at its end, and tail is its last node. |
| JobQueue.Queue.PollQueue | src/threadpool.c:64-81 | A worker takes the oldest job, waits exactly while the queue is empty and the pool runs, and leaves exactly when it is empty and the pool is stopped. |
| JobQueue.Queue.Stop | src/threadpool.c:134-139 | Stopping keeps every queued job. |
| LockSafety.Granting | src/fileops.c:340-381 | A grant where the code does not wait keeps the counters equal to the holders and a writer alone. |
| LockSafety.Dropping | src/fileops.c:355-394 | A release with its broadcast does, too, and no waiter is left asleep for a lock that became free. |
| LockSafety.LockInvStep | src/fileops.c:303-394 | Every step of the server keeps: counters are holders, a writer is alone, whoever sleeps is in conflict. |
| Atomicity.GrantIsClean | src/handlers.c:158-159 | A granted lock finds the file as the atomic store has it: no half-done upload is ever visible to a holder. |
| Atomicity.WriteIsPrefix | src/handlers.c:178-188 | After the one `write` of an upload the file is exactly the prefix that was written, and the reply is success only for all of it. |
| Atomicity.CallIsLocal | src/handlers.c:117-411 | Every file system call of every handler touches no name but its own, and leaves the handler where its outcome is a legal one. |
| Calls.UnlinkOutcome | src/handlers.c:357-369 | In every directory, for either answer of `unlink`: on success the name is gone and the client will be told OK with the time of the call, on failure the file is as before and it will be told 404; nothing else changes. |
| Calls.ChmodOutcome | src/handlers.c:398-410 | The same for `chmod`: on success the file has its old bytes and the mode asked for modulo 4096. |
| Calls.OpenOutcome | src/handlers.c:163-168 | After the `open` of an upload the file is there and empty, with its old mode or 0644; or nothing happened and the client will be told 500. |
| Calls.WriteOutcome | src/handlers.c:178-188 | For every count the one `write` may take: the file holds just those bytes, and the reply is success if and only if it was all of them. |
| Calls.FstatOutcome | src/fileops.c:157-164 | The size a download goes by is that of the file of its name; a failure is told as 404. |
| Calls.ReleaseOutcome | src/handlers.c:195-205 | What is committed and answered at the end of a critical section is what was decided inside, with these clock readings. |
| Atomicity.ReleaseStep | src/handlers.c:195-206 | Leaving the critical section is where the request takes effect in the atomic store, with a legal reply. |
| Atomicity.SimulationStep | src/handlers.c:117-411 | Every step of the server is one legal request on the atomic store, or none. |
| Traces.ReaderUndisturbed | src/handlers.c:230-279 | No step of anybody truncates, writes, unlinks, creates or re-modes a file while a worker holds its read lock. |
| Traces.OneVersion | src/handlers.c:230-279 | Over any stretch of a run with the read lock held, the file is one version. |
| Traces.ImageIsFrame | src/handlers.c:258-275 | The bytes a download sends in three calls, with the 32-bit cast of its length, are the frame of one reply, for a file of any size. |
| Traces.TraceStep | src/handlers.c:117-411 | Every step keeps every job's history in order (submit, take, acquire, commit, release, close, each at most once) and every client's bytes a prefix of its committed reply. |
| Traces.BytesAreCommitted | src/handlers.c:75-92 | Any bytes a client received are the start of the one committed, legal reply to its own request. |
| Linearizability.JobLifecycle | src/handlers.c:117-411 | In every reachable state each submitted request is somewhere on its one possible life: every acquire has its one release of the same name on every exit, or the payload never came. |
| Linearizability.CommitInside | src/handlers.c:158-195 | A commit stands for its own request, happens once, after submit, take and acquire, and before release and close. |
| Linearizability.RealTimeOrder | src/threadpool.c:53-56 | A request closed before another was submitted commits before it. |
| Linearizability.ResponseOrder | src/handlers.c:75-92 | In every run, a request of whose response any byte was sent before another request was submitted commits before it. |
| Linearizability.Linearizable | src/handlers.c:117-411 | In every run the commits in log order are legal requests on an atomic map, and the directory shows that map wherever no writer is at work. |
| Linearizability.LocksAccounted | src/fileops.c:340-394 | In every reachable state writers is 0 or 1 and equals the write holders, readers equals the read holders, and never both are positive. |
| Linearizability.DownloadsAreSafe | src/handlers.c:258-276 | In every reachable state no download reads past the end of its file, and every file fits the narrowing cast of its length. |
| Linearizability.SendingShowsFile | src/handlers.c:253-279 | What a sending worker has sent is the start of the reply for the file as it is now. |
| Linearizability.DownloadIsOneVersion | src/handlers.c:230-279 | From the grant of its read lock on, everything a download sends comes from the one version the file had then. |
| Linearizability.DownloadLengthAgrees | src/handlers.c:258-275 | For a file of any 64-bit size: the size prefix and the bytes are right, and the announced length is right if and only if size plus 8 fits 32 bits. |
| Linearizability.ReadersPassWaitingWriters | src/fileops.c:368-381 | A read lock is granted if and only if no write lock is held, whoever sleeps on the name. |
| Liveness.CanMove | src/handlers.c:117-411 | A worker that is neither gone nor in a condition wait always has a step to take. |
| Liveness.HolderMoves | src/fileops.c:340-394 | Whoever sleeps for a lock sleeps because another worker holds that very name, and that worker can move. |
| Liveness.SignalSuffices | src/threadpool.c:120-131 | One signal for one more job keeps the pool's wakeup invariant, whichever sleepers it wakes. |
| Liveness.PoolStepKeeps | src/threadpool.c:59-144 | Every step keeps: queued jobs beside a sleeper have as many wakeups on the way, nobody sleeps after shutdown, nobody leaves while there is work, jobs are taken in submit order. |
| Shutdown.JobsAreFetched | src/threadpool.c:66-81 | In every reachable state, when jobs wait beside a sleeping worker there are as many woken workers on their way. |
| Shutdown.NoDeadlock | src/fileops.c:340-394 | In every reachable state a waiter for a lock waits for a worker that holds that name and has an enabled step, although one condition variable serves all names. |
| Shutdown.HandlerRank | src/handlers.c:117-411 | Every handler step uses up rank, except a re-check that finds its entry still taken. |
| Shutdown.StepProgress | src/threadpool.c:59-88 | After shutdown every step lowers the pair (work left, woken waiters still to re-check). |
| Shutdown.RunsAreFinite | src/threadpool.c:59-144 | After shutdown a run without spurious wakeups is no longer than the measure of its start. |
| Shutdown.StuckIsDrained | src/threadpool.c:134-144 | Where nothing can move any more all workers are gone, the queue is empty and every job ever submitted went through exactly once, in order. |
| Shutdown.ShutdownDrains | src/threadpool.c:59-144 | The two together, from the start of the server: every run after shutdown ends, and it cannot go on if and only if everything is drained. |
| Overtaking.OneMoreReader | src/fileops.c:368-394 | Another reader enters before the last one leaves; the writer that is woken finds the name taken again. |
| Overtaking.WritersCanStarve | src/fileops.c:340-394 | For every existing file and every k there is a run in which a writer still sleeps when k downloads submitted after it have had their lock. |
| Handlers.Thread.AcquireLock | src/fileops.c:340-381 | The wait loop only ever leaves the worker holding its lock, or still waiting for it. |
| Handlers.Thread.SendMessage | src/handlers.c:75-92 | The client got the start of the one committed reply, all of it if no write failed. |
| Handlers.Thread.SendError | src/handlers.c:99-115 | A refused request is answered with its code and message and holds no lock. |
| Handlers.Thread.ReleaseAndSend | src/handlers.c:195-205 | The critical section is left once, and the client answered with what was decided inside it and these times. |
| Handlers.Thread.WriteFile | src/handlers.c:170-206 | For every answer of `fcntl` and `write`: an upload that opened its file is answered with lock failure, write failure, or success and the times between its clock readings, each exactly when the calls went that way. |
| Handlers.Thread.HandleUpload | src/handlers.c:117-206 | For every payload and every answer of the kernel, with the checks in order: the refusal the payload deserves, or the one reply that belongs to how `open`, `fcntl` and `write` went. |
| Handlers.Thread.OpenForMmapRead | src/fileops.c:150-184 | The return code is -1 exactly when there is no such file or `open` or `fstat` fails, -2 exactly when a non-empty file cannot be mapped, 0 otherwise; and the file stays the one seen at the `open`. |
| Handlers.Thread.HandleDownload | src/handlers.c:208-280 | The same for download: the answer is the refusal, the error of the call that failed, or the file there was at the `open`, with the time of the clock readings; the read lock is held until everything was sent. |
| Handlers.Thread.UnlinkName | src/fileops.c:194-200 | `unlink` succeeds if and only if the kernel lets it and the file is there, and then the name is gone; the outcome settled on is OK or 404 accordingly. |
| Handlers.Thread.HandleDelete | src/handlers.c:333-370 | For every payload and every answer of `unlink`: the refusal, or OK with the time of the call exactly when the file was there and `unlink` succeeded, 404 otherwise. |
| Handlers.Thread.ChangeMode | src/fileops.c:202-208 | `chmod` succeeds if and only if the kernel lets it and the file is there, and then the file has its old bytes and the mode asked for modulo 4096. |
| Handlers.Thread.HandleChmod | src/handlers.c:372-411 | The same for chmod. |
| Handlers.Thread.HandleList | src/handlers.c:282-331 | A listing takes no lock and is answered with its own items and the time of the reading, or with the error exactly when the reading failed. |
| Handlers.Thread.Dispatch | src/handlers.c:413-435 | For every opcode and payload the one answer is that of the opcode's handler; any other opcode is refused. |
| Handlers.Thread.ReceivePayload | src/threadpool.c:36-51 | A payload is taken if and only if it is empty, or there is memory for it and its stream brings all of it; otherwise the socket is closed with nothing sent and nothing done. |
| Handlers.Thread.ProcessJob | src/threadpool.c:24-57 | A job whose handler gets its lock is finished: history complete, socket closed once, bytes sent a prefix of its reply; a payload cut short closes the socket with nothing sent. |
| Descriptors.OneOwner | src/net.c:120-206 | In every reachable state two places (slot, hand-over, queue entry, worker) never share a connection or a number, and no client number is a file a worker has open. |
| Descriptors.AcceptedNotReady | src/net.c:144-182 | In every reachable state a number accepted in an iteration has no ready bit in that iteration's set and is no watched number, although numbers are reused: no watched descriptor can close between select and accept. |
| Descriptors.ReadOnlyIfReady | src/net.c:184-194 | A header is read only from a connection that this iteration's select reported ready, and that its slot still owns. |
| Descriptors.PoolOwnsHanded | src/threadpool.c:107-132 | In every reachable state the connections given to the pool are all different, the ones not yet taken are its queue in order, and each is queued, with a worker or closed; no slot holds one. |
| Descriptors.InvStep | src/net.c:120-206 | Every step of the loop, the workers and the kernel keeps ownership: places hold open connections, each connection is at its place or was closed once, and every close hit what it was meant for. |
| Descriptors.ExitClosesAll | src/net.c:197-203 | At server exit the connections closed are exactly the connections accepted, each closed once, and none is open. |
| SelectLoop.ClientTable.BuildSet | src/net.c:130-142 | The set handed to select is the listener and the watched descriptors, and the maximum is its largest member. |
| SelectLoop.ClientTable.FreeSlot | src/net.c:162-168 | The search returns the first empty slot, or -1 when there is none. |
| SelectLoop.ClientTable.AcceptClient | src/net.c:154-182 | For every answer of `accept`: nothing changes, or the new connection is in the first free slot under its number, or it is closed because no slot is free. |
| SelectLoop.ClientTable.HandleReadable | src/net.c:93-118 | For every stream of a ready client: if it brings a whole header with the right magic and version, and there is memory for the job, its connection is given to the pool behind all earlier ones; otherwise it is closed here and the pool gets nothing. Its slot is emptied in both cases. |
| SelectLoop.ClientTable.Scan | src/net.c:184-194 | The scan takes every client reported ready out of its slot and no other, and is a run of the ownership system back to the top of the loop, whatever the workers do meanwhile. |
| SelectLoop.ClientTable.Iterate | src/net.c:129-195 | For every report of `select` and answer of `accept`: a failed select changes nothing; otherwise exactly the reported clients leave their slots, and only a free slot may get the accepted one. |
| SelectLoop.ClientTable.Sweep | src/net.c:197-203 | Leaving the loop closes every client still watched and ends with every slot empty. |
| HandOver.ClientReachesWorker | src/net.c:93-194 | On every server with a slot and a worker, for every number the kernel may give, some run takes a client from accept through slot and queue to a worker under its own number. |
| Bridge.BuildersAgree | bridge/nervfsClient.js:21-28 | The JavaScript header builder prints what the C one prints, or throws exactly when a field does not fit. |
| Bridge.ReadersAgree64 | bridge/nervfsClient.js:40 | The big-integer reader, digit by digit in two halves, reads the number the C reader reads. |
| Bridge.ParsersAgree | bridge/nervfsClient.js:30-48 | The two header parsers, the one digit by digit and the other by network order, accept the same headers and read the same fields. |
| Bridge.JudgeIsFinal | bridge/nervfsClient.js:78-97 | Once the bytes amount to a whole response or a bad header, later bytes change nothing. |
| Bridge.JudgeIsCanonical | bridge/nervfsClient.js:78-97 | A stream holds a whole response if and only if it starts with the printed form of its header and its body. |
| Bridge.BadIsCanonical | bridge/nervfsClient.js:43-45 | It is bad if and only if a whole header begins with the wrong two bytes. |
| Bridge.ResponseReader.OnData | bridge/nervfsClient.js:99-107 | While pending, total is below expected and the bytes so far are short; each chunk is kept, and the promise settles as soon as all bytes together decide it, once. |
| Bridge.ResponseReader.OnOther | bridge/nervfsClient.js:109-123 | An error, end or close rejects a pending promise and changes a settled one not at all. |
| Bridge.ReadResponse | bridge/nervfsClient.js:59-130 | For every sequence of events the outcome depends only on the bytes and on whether the stream ended, never on how it was cut. |
| Clients.SendRequest | client/nervfs_client.c:72-95 | On success header and payload went out in order; a failure leaves a failed connection. |
| Clients.UploadLengthIsExact | client/nervfs_client.c:215-216 | For any name and file: the C client announces the true payload length if and only if the name fits 16 bits and the payload 32. |
| Clients.BuildUploadInC | client/nervfs_client.c:215-234 | The C client's buffer is the canonical upload encoding. |
| Clients.SendUploadInC | client/nervfs_client.c:236-240 | What the C client puts on the wire is the protocol's upload request. |
| Clients.UploadInJsIsCanonical | bridge/nervfsClient.js:199-208 | The bridge sends the same bytes, or throws exactly when the request does not exist. |
| Clients.NameRequestInJsIsCanonical | bridge/nervfsClient.js:167-173 | So for download and delete. |
| Clients.ChmodInJsIsCanonical | bridge/nervfsClient.js:243-247 | So for chmod, where a mode too large throws. |
| Clients.ReceiveRequest | src/net.c:93-118 | Header in the loop and payload in the worker give exactly the request on the stream, however it was cut, or drop the connection. |
| Clients.RequestArrives | src/threadpool.c:36-53 | The server gets exactly the opcode and payload that were sent, whatever follows on the connection. |
| Clients.AcceptedIsCanonical | src/net.c:93-118 | The server takes a request off a stream if and only if the stream starts with its header, reserved field aside, and its payload. |
| Clients.PrintSimpleResult | client/nervfs_client.c:114-150 | The C client's result for a header and the bytes after it: success with or without the breakdown, the server's error, or nothing usable. |
| Clients.OkRoundTrip | client/nervfs_client.c:116-131 | Both clients take the plain OK of any delete or chmod for a success with its time, whatever follows it. |
| Clients.SuccessIsCanonical | client/nervfs_client.c:116-131 | The C client reports success if and only if the header says OK, with its time, and the breakdown if and only if its 24 bytes are announced and there. |
| Clients.ErrorIsCanonical | client/nervfs_client.c:133-146 | It reports an error with this code and message if and only if the header says so and the announced bytes are there and start with them. |
| Clients.FileIsCanonical | client/nervfs_client.c:267-309 | It reports a file if and only if the header says so and size prefix and that many bytes follow; anything else is reported as for the other requests. |
| Clients.WrongAnswerInJs | bridge/nervfsClient.js:159-165 | The bridge takes no response of another kind than its request asks for. |
| Clients.ErrorInJsDefaults | bridge/nervfsClient.js:151-153 | An error body too short for code or message gets 500 and the default text. |
| Clients.DownloadInC | client/nervfs_client.c:250-309 | The C client's three receives give what the response stream holds, however it was cut. |
| Clients.UploadedRoundTrip | client/nervfs_client.c:114-131 | Both clients read the total and the three measured times the server reported. |
| Clients.ErrorRoundTrip | bridge/nervfsClient.js:146-157 | Both clients report exactly the server's error code and message, for every request kind. |
| Clients.DownloadSeenInJs | bridge/nervfsClient.js:224-233 | For a file of any 64-bit size: from a complete response the bridge takes the part that the 32-bit length announces, or fails when that does not cover the size prefix. |
| Clients.DownloadRoundTrip | bridge/nervfsClient.js:224-233 | From a complete response the C client gets exactly the file, whatever its size; the bridge does if and only if size plus 8 fits 32 bits. |
| WholeFiles.WholeAfterUpload | src/handlers.c:163-205 | Every legal outcome of an upload: the store holds exactly its data afterwards if and only if it was answered with success, or had nothing to write and did not fail to open, or failed to open and the file already was that data. |
| WholeFiles.UploadIsWhole | src/handlers.c:163-205 | The same at every commit of an upload in every run. |
| WholeFiles.DataKept | src/handlers.c:158-195 | Between two points of a log with no upload or delete of a name that took effect, chmods allowed, its bytes in the atomic store are the same. |
| WholeFiles.DownloadIsWhole | src/handlers.c:230-279 | In every run, a download that finds the file as the last upload left it returns all of that upload if and only if that condition holds of the upload's reply. |
| WholeFiles.DeletedIsNotFound | src/handlers.c:355-370 | In every run, after a delete that took effect a download is answered 404 until an upload takes effect. |
| WholeFiles.StoreFits | src/handlers.c:262 | At every point of every run each file of the atomic store has at most 2^32 - 12 bytes. |
| EndToEnd.UploadIsUnderstood | src/handlers.c:125-153 | An upload request of either client, with a valid name, is that upload in the server. |
| EndToEnd.UploaderKnows | bridge/nervfsClient.js:199-222 | In every reachable state, a client with a whole response to its upload can tell from it whether the file was all of its data at the commit: if and only if it was told success, or had sent nothing and was not told that the open failed, or was told that and the file already was the data. Both clients are told the same. |
| EndToEnd.DeleterKnows | client/nervfs_client.c:114-150 | In every reachable state, a client with a whole response to its delete was told success if and only if the file was there and is gone, and nothing else changed; otherwise 404 and nothing changed. Both clients are told the same. |
| EndToEnd.ChmodderKnows | client/nervfs_client.c:114-150 | The same for chmod: success if and only if the file was there and now has its old bytes and the mode asked for. |
| EndToEnd.UploadThenDownload | bridge/nervfsClient.js:199-233 | An upload answered in any way, then a download submitted later and answered with a file, with no other upload or delete of that name taking effect between the two commits: both clients' decoders return the same bytes, which are exactly the uploaded ones if and only if the upload's response said so, as success does; for every schedule and every cut of every stream. |
| Feasibility.UploadThenDownloadHappens | bridge/nervfsClient.js:199-233 | The premises of that law can all be met with success, on every server, for every valid name and data that fit an upload; both clients then hold the data. |
| Feasibility.HalfWrittenDownload | src/handlers.c:178-188 | On every server, for every valid name, data and j short of its length, there is a run in which the upload is answered with a write failure and a later download gives either client the first j bytes as a complete file. |
| Feasibility.DeleteHappens | src/handlers.c:333-370 | On every server, every file can be deleted: its client holds the OK, the name is gone from the directory, and a later download is answered 404. |
| Feasibility.ChmodHappens | src/handlers.c:372-411 | On every server, every file can be given any mode: its client holds the OK, and the directory shows the old bytes with the new mode. |
| Feasibility.AnswerHappens | src/handlers.c:413-435 | On every server, a listing with any reply and every refused request is answered in full in some run that changes nothing. |
| Feasibility.ShutdownHappens | src/threadpool.c:134-144 | On every server, shutdown can come and the server end drained. |
| Regions.PassShows | src/fileops.c:340-381 | A pass over an entry, new or kept, changes the map of counters exactly as the server's step does. |
| Regions.WaitersBefore | src/fileops.c:344-347 | Whoever waits after a step has waited before it for the same lock, or has just passed over it: so its kept pointer stays the right one. |
| Regions.LockRegions.Perform | src/fileops.c:303-394 | One step of the server, done on the linked table as well: the table goes on showing the lock map, and every waiter's kept pointer is the entry of the name it waits for. |
| Regions.MirrorLocks | src/fileops.c:303-394 | At the end of every run of the server the linked table shows exactly its lock map. |
| Regions.QueueRegions.PollRegion | src/threadpool.c:64-81 | What a worker finds in the linked queue (a job, nothing, or nothing after shutdown) is what it does next in the server: that job, sleep, or leave. |
| Regions.MirrorQueue | src/threadpool.c:59-139 | At the end of every run of the server the linked queue shows exactly its queue, and the flag is the pool's. |
| Timing.ElapsedWraps | src/handlers.c:62-73 | Between any two normalised readings, also out of order, the result is the difference in whole microseconds, rounded down, in 64 bits. |
| Timing.ElapsedIsFloor | src/handlers.c:62-73 | Between two readings in order the result is the whole number of microseconds between them if and only if that fits 64 bits. |
| Timing.UploadTotal | src/handlers.c:121-204 | The reported total leaves the lock wait out: never more than the time passed without it, and less than three microseconds short of that. |

## Left out

- The `fcntl` layer as a source of safety: its failure paths are modelled, but uploads truncate before taking it, and such locks belong to the whole process. All safety rests on the in-process lock.
- Fairness between waiters: not promised by the code; `Overtaking.WritersCanStarve` proves the contrary for writers.
- A snapshot for LIST: the handler takes no name lock, so sizes may be of half-written files. Its directory reading is an arbitrary sequence of entries; `Listing` proves only what is done with it.
- The storage-level meaning of `fsync`, and what a crash leaves.
- The echo loop, the listener, signal set-up, logging, `main` and argument parsing.
- `fileops_write_file`, `fileops_write_fd` and `fileops_read_file`, which no handler calls.
- Express routes, login, tokens and rate limits of the bridge, and the React front end.
- UTF-8 decoding of names and messages, and the conversion of 64-bit values to JavaScript numbers: names stay bytes, sizes and times stay naturals.
- `Server` and `Descriptors` are two transition systems of one program: the first has jobs and no numbers, the second has numbers and no payloads. The queue of each is the sequence `JobQueue` implements.
- `Regions` drives each heap structure from the runs of `Server`; the clock readings of `Handlers` are any readings, ordered or not.
- Handlers.Thread.AcquireLock: followed for a given number of rounds of waiting; that waiting ends after shutdown is `Shutdown.RunsAreFinite`.
- LockTable.Table.AwaitFree: the same bound on its rounds of waiting.
- SelectLoop.ClientTable.Run: followed for a given number of iterations.
- Handlers.Thread.HandleList: as Listing.HandleList below; Handlers.Thread.Dispatch and Handlers.Thread.ProcessJob ask for it only when the request is LIST.
- Handlers.Thread.Dispatch: see the line above.
- Handlers.Thread.ProcessJob: see the line above.
- Listing.HandleList: stated for directories whose listing is shorter than 2^32 bytes; beyond that `Listing.ListLength` says the announced length is wrong, and the write pass would leave the buffer.
- Listing.ReadEntriesInC: as Listing.ReadListInC below.
- Listing.ReadListInC: stated for bodies that hold a whole list, since the C client trusts the server and would read past a shorter one; its 256-byte name buffer for longer names is not modelled.
- Clients.PrintSimpleResult: an error body that the C client would read past the end of counts as unusable; text after a zero byte in a message is kept.
- Clients.BuildUploadInC: stated for the sizes its 32-bit length can hold, the other ones being `Clients.UploadLengthIsExact`; names of 65,536 bytes and more are cut by a 16-bit cast before that.
- Clients.SendUploadInC: the same bounds as Clients.BuildUploadInC.
- Failed allocations in `send_error`, LIST and the job queue appear as responses that send nothing, error replies and closed sockets, not as calls of their own.
