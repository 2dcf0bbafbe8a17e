# flit, verified

flit is a remote-file system for Emacs: an Emacs Lisp client and a Go server speak flitrpc, a binary
RPC protocol, over one byte stream. This project models the four parts of flit whose correctness
spans several functions, and proves what they promise.

**The wire protocol** (`flitrpc.el`, `server/flitrpc/flitrpc.go`). `Msgpack` holds the reader and the
writer of the metadata as recursive functions, `MsgpackLoops` the loops they are in the source.
`Frames` is the 8-byte header and the head of the parse loop; `Reassembly` the chunk table;
`RpcServer` the server as a step machine over any schedule of goroutines; `FrameWriter` its writer;
`Connection` the client's connection object, whose handlers may run the process filter again to any
depth, leave by an error or a throw, and interrupt the parse loop. `EndToEnd` joins them: the chunked,
concurrent, re-entrant wire refines "each message is delivered once, whole, and its handler is called
once". `FrameReader` is the other direction, and `Callbacks` the server's own requests.

**The file watcher and its session** (`server/fs/watcher.go`, `server/server/jsonrpc.go`). `WatchTable`
gives every locked operation as a function on the table and the set of paths fsnotify watches;
`FileWatcher` and `Sessions` are the objects, proved against it. `EventLoop` is one turn of the event
loop, with whom it notifies; `WatchRace` runs the loop, cut at every lock, stat and Add, against a tree
that changes in between, and leaves to the run what fsnotify may or may not report; `Registrations` follows the registrations of paths that do not exist
through those runs, `SessionRace` the session's list of watched paths, and `WatchRaceRuns` has the runs
that go wrong. `PendingCreation` is the waiting for paths that do not exist; `Debounce` the notification
timers, which outlive the state that armed them.

**The process manager** (`server/exec/handler.go`). `Processes` interleaves the read loop, the
goroutines of close requests, the writer, the readers and the waiter; `ProcessManager` has the objects.

**The client cache** (`flit.el`, with the server's `server/fs/handler.go`). `Cache` works on path
strings as Emacs cuts them; `ChildEntries` is the fan-out that fills the cache.

A *step machine* here is a state, a set of steps with the condition under which each can happen, and
`After`, the state after any sequence of steps; a step that cannot happen is skipped, so a theorem
about `After(steps)` for all `steps` is one about every schedule.

## What turned out not to hold

The code is modelled as it is. Where a promise fails, a lemma gives an input and another one says
exactly when it does hold.

- The reader accepts a buffer that ends in a uint8 tag: it returns nil and a position one past the end
  (`MsgpackReader.OvershootsExactly`).
- A plist whose first key is `:bin` is taken for the binary wrapper, and integers beyond 64 bits and
  lengths beyond 32 are cut off without an error (`MsgpackRoundTrip.RoundTripExactly`,
  `MsgpackRoundTrip.BinPlistExample`).
- A directly watched path can be forgotten (`WatchRace.ForgottenExactly` says when). Whether or not
  fsnotify drops the queued events of a watch that is removed, creations and deletions in quick
  succession are enough (`WatchRaceRuns.DroppedReportForgets`, `WatchRaceRuns.KeptReportForgets`); a
  directory with registrations below it is watched without an Add
  (`WatchRaceRuns.SkippedAddForgets`).
- `ClearPending` during a re-creation can forget a directory, and can make the loop drop an entry that
  holds a reference (`WatchRaceRuns.ClearedRegistrationForgets`, `WatchRace.ReferencesLostExactly`).
- A registration can be lost before any pop returns it: a cleanup or undo through an entry that has left
  the table drops the new entry with its lists, and a failed Add of the directory drops the child's whole
  list, paths of other callers included (`Registrations.RegistrationsLostExactly` says when,
  `WatchRaceRuns.CleanupDropsRegistration` is a run in which the creation then goes unseen).
- A path created between the walk of `WatchPendingFile` and its watch on the ancestor can go unseen
  (`PendingCreation.UnseenExactly`).
- A failed fsnotify Remove, and a failed Add of an entry that `ClearPending` left idle, part the table
  from the fsnotify set (`WatchTable.ApplyAgrees`).
- A file found back at once moves behind the paths registered after it
  (`PendingCreation.PopKeepsOrderExactly`).
- When the process dies, an error callback that signals leaves ended requests in the table, and one
  that makes a request may lose it (`Connection.Conn.FailPending`, `Connection.SignalDisorders`,
  `Connection.RequestDisorders`).
- A failed fsnotify Remove leaves the path in the session's `watchedPaths`, and the session then never
  watches it again (`Sessions.StaleStays`); so does a cleanup of the event loop that drops an entry with a
  reference, with no failing Remove (`SessionRace.ExactlyBroken`, `SessionRace.CleanupBreaks`).
- `flit--cache-invalidate` normalizes a path once, but the cache normalizes it twice when it stores it
  (`Cache.InvalidatedExactly`); a path with a dot component is answered wrongly (`Cache.DotIsMisread`).
- A client that answers one server request twice can block the server's read loop
  (`Callbacks.SecondAnswerBlocks`).

The comment at the head of `flitrpc.el` gives each frame a magic number; the code writes and reads an
8-byte header without one, and so does the model.

## Model

| member | source | states |
|---|---|---|
| MsgpackReader.DecodeStops | flitrpc.el:21-159 | on any bytes, whatever counts they declare, the reader terminates and fails, or stops after its start and inside the buffer, or overshoots by the one missing byte of a uint8 |
| MsgpackReader.DecodeStaysInside | flitrpc.el:21-159 | a buffer whose last byte is not 0xcc is never overrun |
| MsgpackReader.DecodeExtends | flitrpc.el:21-159 | a read that stopped inside the buffer gives the same value and position when any bytes are appended |
| MsgpackReader.OvershootsExactly | flitrpc.el:64-65 | the returned position lies past the end exactly when the buffer ends in a uint8 tag whose byte would complete the value |
| MsgpackReader.NodesWithinBytes | flitrpc.el:137-159 | the value read has no more nodes than bytes were consumed, equal map keys merged included |
| MsgpackReader.RefusedExactly | flitrpc.el:21-121 | with enough bytes behind it, a tag is refused if and only if it is the reserved one, an extension type or float32 |
| MsgpackReader.KeyNameExactly | flitrpc.el:137-149 | a map key names a keyword if and only if it is nil, a string or an array of characters; any other key is an error |
| MsgpackReader.EqualKeysMerge | flitrpc.el:137-149 | of equal keys in a map the last value is kept, under one key; a map without pairs is nil |
| MsgpackReader.CharsNameConcat | flitrpc.el:143 | an array's name is made of its characters in order |
| MsgpackReader.CharBytesAreUtf8 | flitrpc.el:143 | each with the bytes of its UTF-8 sequence, which decode to it, or its one raw byte |
| MsgpackWriter.IntHead | flitrpc.el:256-303 | every integer the writer emits is read back modulo 2^64, and in full when it fits |
| MsgpackWriter.StrHeadRead | flitrpc.el:358-375 | a string head of any length class announces the length modulo 2^32 and the reader stops at its end |
| MsgpackWriter.BinHeadRead | flitrpc.el:342-356 | the same for bin heads, which read as strings |
| MsgpackWriter.ArrHeadRead | flitrpc.el:377-390 | the same for array heads |
| MsgpackWriter.PlistHeadRead | flitrpc.el:407-418 | the same for map heads |
| MsgpackWriter.HeadsAreShortest | flitrpc.el:342-418 | no head that the reader takes for the same shape and length is shorter, for strings, arrays and maps, and for binary strings among the binary tags |
| MsgpackRoundTrip.RoundTrip | flitrpc.el:226-421 | a supported value, followed by any bytes, reads back and the reader stops exactly at its end |
| MsgpackRoundTrip.UnsupportedIsLost | flitrpc.el:226-421 | an unsupported value with distinct keys fails to be written or read, or reads back as something else |
| MsgpackRoundTrip.RoundTripExactly | flitrpc.el:226-421 | values with distinct keys survive the round trip if and only if integers fit 64 bits, lengths 32, and no plist begins with :bin |
| MsgpackRoundTrip.CanonicalUnchanged | flitrpc.el:226-254 | what comes back is the value itself when it holds no binary wrapper and no empty plist |
| MsgpackRoundTrip.MistakenIsLost | flitrpc.el:245-253 | a plist that begins with :bin comes back as a string, if it makes a byte string at all |
| MsgpackRoundTrip.BinPlistExample | flitrpc.el:245-247 | the plist (:bin 65) is written as a binary string and read as "A" |
| MsgpackIntegers.AcceptedForms | flitrpc.el:61-120 | the reader takes k bytes for the integer n if and only if they are a fixint or one of the widths of uint or two's-complement int that n fits |
| MsgpackIntegers.FormIsRead | flitrpc.el:61-120 | every such form, followed by any bytes, reads as n and ends at its last byte |
| MsgpackIntegers.ShortestForm | flitrpc.el:256-303 | the writer's form is accepted, and no byte string the reader accepts for the integer is shorter |
| MsgpackLoops.ReadArray | flitrpc.el:151-159 | the loop reads what the recursive definition reads, and fails where it fails |
| MsgpackLoops.ReadMap | flitrpc.el:137-149 | the same for the map loop with its plist-put |
| MsgpackLoops.WriteArray | flitrpc.el:377-392 | the loop emits head and items of the recursive definition, or an error |
| MsgpackLoops.WritePlist | flitrpc.el:394-421 | the same for the pairs of a plist |
| Frames.NextOfEncode | flitrpc.el:530-551 | a written frame followed by anything parses as that frame, ends at its last byte, and the metadata reader, which is not given the length, does not leave the metadata |
| Frames.NextOfInvalid | flitrpc.el:534-551 | a whole frame whose metadata the reader rejects signals an error and is not waited for |
| Frames.NextOfPartial | flitrpc.el:534-542 | a frame that has not arrived in full is left in the buffer |
| Frames.FramesInWire | flitrpc.el:523-556 | uninterrupted parsing of a wire image yields its frames |
| Frames.DispatchedThenBuffered | flitrpc.el:498-556 | frames dispatched so far followed by those in the buffer are the frames of all bytes received, for any split into deliveries |
| Reassembly.PieceCount | server/flitrpc/flitrpc.go:148-178 | a payload of n bytes is cut into ceil(n / 256K) pieces of 1 to 256K bytes |
| Reassembly.PiecesAssemble | flitrpc.el:622-631 | prepending the pieces and reversing the list at the end restores the payload |
| Reassembly.ReplayAppends | flitrpc.el:558-631 | dispatching only ever adds deliveries |
| Reassembly.StrayFrames | flitrpc.el:568-631 | a frame that is no part of a message signals an error exactly if its type is no number or it continues an unknown id, and changes nothing |
| Reassembly.ChunkIdsFound | flitrpc.el:563-620 | a chunked message is found again exactly if its id is a number, nil, t or false |
| Reassembly.WholeExactly | flitrpc.el:568-601 | a float64 is one of the types exactly if the number that it denotes is |
| Reassembly.EmitKeepsTrack | flitrpc.el:558-631 | the next frame of any message in flight, in any interleaving, never signals an error, keeps the chunk table equal to the unfinished chunked messages, and delivers a message exactly at its last frame |
| Reassembly.AllFinished | flitrpc.el:558-631 | once all messages are finished the table is empty and each was delivered exactly once, byte for byte |
| RpcServer.EveryRunIsSafe | server/flitrpc/flitrpc.go:255-443 | under every schedule of handlers, notifications and server requests, chunked messages have pairwise distinct ids, and the client's chunk table tracks what is on the wire |
| RpcServer.StepIsSafe | server/flitrpc/flitrpc.go:255-443 | each step keeps that invariant |
| RpcServer.NewJobIsSafe | server/flitrpc/flitrpc.go:255-277 | negated counter values and once-answered client ids never collide |
| RpcServer.RunRecords | server/flitrpc/flitrpc.go:255-443 | after any schedule the server's state is what the events that happened make it: one message for each notification, server request, answer or complaint, in order, with as many frames out as were written of it; one id for each draw of the counter; an open request for each that was read and not answered |
| Connection.Conn.constructor | flitrpc.el:477-496 | a new connection is valid and has seen nothing |
| Connection.Conn.Filter | flitrpc.el:498-507 | the next bytes arrive; nested filter calls keep every invariant; with no early exit the buffer ends without a complete frame |
| Connection.Conn.ParseFrames | flitrpc.el:523-556 | frames are dispatched once each and in wire order at any nesting depth, the state is the replay of the dispatched prefix, and a handler was called once, in order, for each message but a response to no open request; the loop is left when a synchronous request is done, and, with handlers that do nothing, exactly at the first frame that signals an error |
| Connection.Conn.TakeFrame | flitrpc.el:531-551 | the frame leaves the buffer before it is dispatched |
| Connection.Conn.DispatchFrame | flitrpc.el:558-601 | does what the replay of one frame does, whatever its handlers do meanwhile; says which frames call a handler, that it is called before anything that its own actions bring, and which of its errors leave the loop |
| Connection.Conn.DispatchMessage | flitrpc.el:568-595 | a handler is called for every notification and request, and for a response exactly if its request is pending; an error of a notification's handler stays inside, any other leaves the loop |
| Connection.Conn.CompleteRequest | flitrpc.el:603-609 | the callback is called if and only if the id is pending |
| Connection.Conn.TakePending | flitrpc.el:605-606 | the entry ends, with the response that carries its own id, before its callback runs |
| Connection.Conn.AccumulateChunk | flitrpc.el:613-620 | fails exactly on an unknown id, else puts the piece in front of the others |
| Connection.Conn.FinishChunks | flitrpc.el:622-631 | the entry leaves the table before the assembled message is dispatched |
| Connection.Conn.RunHandler | flitrpc.el:573-609 | the call is noted and all its actions are performed: requests registered and sent, timeouts given up, bytes delivered, the sentinel run, whatever nested handlers do; a handler with no nested ones does that and nothing else |
| Connection.Conn.Perform | flitrpc.el:498-687 | the same for each single action |
| Connection.Conn.SeedChunks | flitrpc.el:564-567 | the first piece of a chunked message is stored and not dispatched |
| Connection.Conn.SendRequest | flitrpc.el:636-648 | a fresh id is registered, then one frame with it goes out; if the frame cannot be written or the process is dead, the id stays registered |
| Connection.Conn.GiveUp | flitrpc.el:679-683 | a timed-out request ends once; one that has ended is not ended again |
| Connection.Conn.FailPending | flitrpc.el:516-521 | each pending request ends and its callback runs with its entry still in the table; afterwards every request is pending or has ended once if and only if every callback that ran returned and every request they made was visited |
| Connection.Conn.Sentinel | flitrpc.el:509-521 | the shutdown function runs first, and only if it returns are the pending requests failed; afterwards the table is empty if every callback returned, and the requests are in order under FailPending's condition; a second sentinel does nothing |
| Connection.Conn.FailOne | flitrpc.el:517-519 | one entry: the request ends, its callback runs, and the entry stays |
| Connection.Conn.ClearTable | flitrpc.el:521 | the table is emptied; the requests are in order exactly when none was made that maphash did not visit |
| Connection.SignalDisorders | flitrpc.el:517-521 | a callback that signals leaves a request that has ended and is pending |
| Connection.RequestDisorders | flitrpc.el:517-521 | a callback that makes a request which is not visited leaves one that neither is pending nor has ended |
| EndToEnd.DeliversInOrder | flitrpc.el:498-631 | for every server schedule, split of the bytes and nesting of handlers, the handlers called are those of a prefix of the messages begun, in the order of their final frames, each called once with the bytes sent, but for responses whose request had ended or not been made |
| EndToEnd.NothingHeldBack | flitrpc.el:523-556 | when all bytes are in and the buffer has no whole frame, every frame was dispatched |
| EndToEnd.EachMessageOnce | server/flitrpc/flitrpc.go:126-178 | once every message that the schedule begins is written to its last frame, the chunk table is empty, every message is delivered exactly once, and its handler was called once |
| EndToEnd.FinishedBeforeBegun | server/exec/handler.go:311-340 | a message completely written before another begins is handled first, however both are cut |
| EndToEnd.ClientIdsAreFresh | flitrpc.el:641-647 | whenever the server comes to the next request of the client, its id is positive and none it has read before, which is what the schedules of the server assume |
| EndToEnd.RequestIsRead | flitrpc.el:438-459 | a reader of a request frame finds the request's id, metadata and payload |
| FrameWriter.Writer.WriteRaw | server/flitrpc/flitrpc.go:126-146 | header, metadata and payload appear on the stream as one frame if the connection takes them; if it breaks, the stream ends in the beginning of one frame and every later write fails |
| FrameWriter.Writer.WriteChunked | server/flitrpc/flitrpc.go:150-178 | this call's frames are the pieces in order and the end frame, up to the first failing write, whatever frames of others come in between |
| FrameWriter.Writer.Send | server/flitrpc/flitrpc.go:255-277 | the frames written for a message are its first parts in order, all of them if and only if the call succeeds; it fails only when nothing can be marshalled, or the connection has taken all the bytes it will |
| FrameWriter.CutIsParts | server/flitrpc/flitrpc.go:150-178 | the frames of the loop are parts the client's chunk table accepts |
| FrameReader.ReadOfEncode | server/flitrpc/flitrpc.go:63-96 | ReadFrame returns a written frame's metadata and payload, followed by anything |
| FrameReader.ReadOfPartial | server/flitrpc/flitrpc.go:63-96 | a stream that ends inside a frame is a truncation, one that ends before it a clean end |
| FrameReader.ReadOfInvalid | server/flitrpc/flitrpc.go:63-96 | a frame whose metadata cannot be unmarshalled is that error and no other |
| FrameReader.ServesWholeFrames | server/flitrpc/flitrpc.go:289-310 | wherever the stream ends, exactly its whole frames were read, in order; the end is clean if and only if it is a frame boundary |
| FrameReader.Reader.ReadFrame | server/flitrpc/flitrpc.go:63-96 | the buffered reader does the same and is left at the frame's last byte |
| FrameReader.FourBytesAreBigEndian | flitrpc.el:448-456 | the shifts and masks of the client's header are the big-endian length modulo 2^32 |
| FrameReader.ClientWriter.WriteFrame | flitrpc.el:438-459 | the three sends make one frame, which a reader takes for the caller's payload and metadata with :t and :id put in; a value that cannot be written sends nothing |
| FrameReader.ClientFrameIsRead | flitrpc.el:438-459 | for metadata that survives the wire, the frame can be written, and ReadFrame gives the payload, the type, the id, and under every other key what the caller put there |
| Callbacks.BlocksOnlyOnSecondAnswer | server/flitrpc/flitrpc.go:407-416 | the read loop can only block on a response whose id was answered before |
| Callbacks.OneReturnEach | server/flitrpc/flitrpc.go:418-454 | a call returns at most once, and only with a response that carried its id |
| Callbacks.RegisteredExactly | server/flitrpc/flitrpc.go:418-454 | a call is registered from its beginning until it unregisters, and waits until it takes a response or gives up |
| Callbacks.EachResponseAccounted | server/flitrpc/flitrpc.go:407-454 | over every schedule each response read is in its channel, in the read loop's hand, returned by its call, or dropped |
| Callbacks.DroppedExactly | server/flitrpc/flitrpc.go:407-416 | a response is dropped if and only if no call is registered for it, and a call that waits is registered |
| Callbacks.AnswerReturns | server/flitrpc/flitrpc.go:418-454 | a call waits under a new id, and from every reachable state the first response to it can be read, sent and returned |
| Callbacks.SecondAnswerBlocks | server/flitrpc/flitrpc.go:407-416 | a second answer to one id does block it in some schedule |
| WatchTable.KernelCoversTable | server/fs/watcher.go:56-64 | over every sequence of operations every entry is watched by fsnotify; the two are equal in every state that no parting operation led to; without ClearPending the entries are exactly the paths with a reference or a pending child, and only a failed Remove can part the two |
| WatchTable.ApplyAgrees | server/fs/watcher.go:149-460 | one operation parts table and fsnotify set if and only if it is an Unwatch whose Remove fails or a failed Add of an entry that ClearPending left idle |
| WatchTable.ApplyNeeded | server/fs/watcher.go:229-255 | without clearing, an entry goes as soon as nothing needs it |
| WatchTable.CountIsHeld | server/fs/watcher.go:149-460 | over every run a path's count is the number of its Watches that succeeded, less those given back, whatever the event loop does in between |
| WatchTable.WatchEffect | server/fs/watcher.go:151-170 | a Watch adds one reference, keeps the registrations, and has fsnotify watch an unused path; it fails exactly if that Add does, and then leaves no entry; no other path changes |
| WatchTable.UnwatchEffect | server/fs/watcher.go:229-255 | an Unwatch takes one reference back; the last use takes entry and fsnotify watch along; no other path changes |
| WatchTable.WatchPendingEffect | server/fs/watcher.go:188-212 | the path is the last one registered for its child, and nothing else changes |
| WatchTable.ReAddEffect | server/fs/watcher.go:539-549 | after a pop exactly the popped paths that are referenced and exist are watched again |
| WatchTable.OthersStayPending | server/fs/watcher.go:353-444 | a pop or cleanup for one child leaves every other registration and its parent watch alone |
| WatchTable.Unregistered | server/fs/watcher.go:395-406 | the undo after a failed Add restores the table |
| FileWatcher.Watcher.GetOrCreateWatch | server/fs/watcher.go:138-147 | the entry, or a new empty one |
| FileWatcher.Watcher.IsDirectlyWatched | server/fs/watcher.go:343-349 | whether the path has a reference |
| FileWatcher.Watcher.Watch | server/fs/watcher.go:151-170 | does the table's Watch; a failed Add leaves no entry |
| FileWatcher.Watcher.Unwatch | server/fs/watcher.go:229-255 | does the table's Unwatch and drops the notification state of a path it releases; the entry goes even if Remove fails |
| FileWatcher.Watcher.WatchPending | server/fs/watcher.go:188-212 | registers the path under the ancestor's child, at the end of the list |
| FileWatcher.Watcher.ClearPending | server/fs/watcher.go:216-225 | empties every pending map and drops no entry |
| FileWatcher.Watcher.PopPendingForChild | server/fs/watcher.go:353-379 | returns the whole list, and releases a parent nobody needs together with its notification state |
| FileWatcher.Watcher.ReAddPopped | server/fs/watcher.go:539-559 | watches again exactly the popped paths that are directly watched and exist, and notifies of every popped path |
| FileWatcher.Watcher.WatchParentForPending | server/fs/watcher.go:385-460 | the whole of the re-creation protocol on its own, in all its outcomes, with its notification; WatchRace has the calls in between |
| EventLoop.HandleEvent | server/fs/watcher.go:462-591 | one turn of run with no call in between, for any event: the table, the paths notified of at once, the path that the debouncer is told of, and the debouncer's state |
| EventLoop.ChangeIsTold | server/fs/watcher.go:476-581 | no change of a referenced path is passed over: it is notified of, or the debouncer is told, or the path was renamed away and its creation is awaited, unless its directory cannot be or is not watched |
| EventLoop.ChangeIsToldForDir | server/fs/watcher.go:562-581 | a change of any other path is told for its directory, if and only if that is referenced |
| EventLoop.CreationIsPopped | server/fs/watcher.go:535-560 | a Create pops all that is registered for its path, leaves none, and watches again what is referenced and there |
| EventLoop.LoopIsTurn | server/fs/watcher.go:462-591 | the event loop of WatchRace, left alone, does to the table what one turn does, for any event and table |
| EventLoop.LoopRecreates | server/fs/watcher.go:385-460 | and what the atomic re-creation does, whatever tree the second stat finds |
| WatchRace.InvKept | server/fs/watcher.go:385-560 | for any path, file or directory, the invariant of the event loop holds after every step of tree, session and loop |
| WatchRace.ForgottenExactly | server/fs/watcher.go:385-560 | a step makes a directly watched path forgotten if and only if it is one of six: a replacement its own watch does not tell, a Watch that leaves out the Add, an Unwatch of its directory that drops the last report of its deletion, a second stat after its registration was cleared, or a cleanup or pop in its directory that takes away what kept it |
| WatchRace.RunForgetsExactly | server/fs/watcher.go:385-560 | over any run in which its directory stays, the path is forgotten in some state if and only if some step is one of those six |
| WatchRace.NeverForgotten | server/fs/watcher.go:385-560 | over every run that the path is observed in, whatever fsnotify drops otherwise, it is in the fsnotify set, or its removal is queued or handled, or it is pending under a watched parent and absent or known to be created |
| WatchRace.NeverForgottenWhileListed | server/fs/watcher.go:385-560 | in particular in every run in which its directory stays watched by the client, with replacements told by its own watch |
| WatchRace.ReferencesLostExactly | server/fs/watcher.go:385-444 | a path loses a reference if and only if it is unwatched, or the loop cleans up an entry that has left the table in the meantime |
| Registrations.ListAfterStep | server/fs/watcher.go:188-444 | over any interleaving, a step empties a child's list (a clear, the child's pop, the undo after a failed Add, or a cleanup or undo through an entry that has left the table), takes out the first occurrence of a path that was found back, or adds at the end what it registers, and leaves the other paths in order |
| Registrations.RegistrationsLostExactly | server/fs/watcher.go:188-444 | a step over any interleaving takes a registration of a path away if and only if it is a clear, the pop for its child, its own cleanup, the undo of its child after a failed Add, or a cleanup or undo in its directory through an entry that has left the table; it adds one if and only if it registers the path, and else keeps the count |
| Registrations.PopReturnsAllExactly | server/fs/watcher.go:353-379 | after any run of interleaved calls, events and loop actions, the pop for a child returns the path once for each registration if and only if no step of the run was one of those while it was registered |
| Registrations.PopKeepsListExactly | server/fs/watcher.go:188-444 | it returns all that was registered, in the order of registration, if and only if no step of the run made the list shorter |
| WatchRaceRuns.DroppedReportForgets | server/fs/watcher.go:353-376 | if Remove drops events: delete, create, delete, each seen by a watch, forgets the file |
| WatchRaceRuns.KeptReportForgets | server/fs/watcher.go:412-560 | if Remove drops none: a Create that is out of date takes the registration of an absent file away |
| WatchRaceRuns.SkippedAddForgets | server/fs/watcher.go:155-167 | a directory deleted with a registration below it is watched again without an Add |
| WatchRaceRuns.ClearedRegistrationForgets | server/fs/watcher.go:216-225 | clearing while the loop looks for the deleted directory forgets it |
| WatchRaceRuns.SilentReplacementForgets | server/fs/watcher.go:479-503 | a replacement that only the directory tells, as a Create, forgets the file |
| WatchRaceRuns.CleanupDropsReference | server/fs/watcher.go:420-443 | the cleanup through an old entry drops a new one that holds a reference, and its watch |
| WatchRaceRuns.CleanupDropsRegistration | server/fs/watcher.go:420-443 | it also drops a registration made after the last clear, and the creation of that path then raises no event |
| WatchRaceRuns.QuietIsSound | server/fs/watcher.go:117-134 | a new watcher is in a state that the theorems about runs can start from |
| Debounce.StepKeepsInv | server/fs/watcher.go:274-341 | a recorded timer implies a spent burst, the count never exceeds the limit, and each waiting event has a timer that will fire in time, across resets and replaced states |
| Debounce.BoundedStaleness | server/fs/watcher.go:110-114 | every triggered event on a path that stays watched is followed by a notification within 2 s |
| Debounce.BoundIsAttained | server/fs/watcher.go:274-341 | and some event waits that long |
| Debounce.WaitsUntilNotified | server/fs/watcher.go:274-341 | an event waits exactly until a notification for its own path, or until the path is dropped |
| Debounce.AtOnceExactly | server/fs/watcher.go:274-318 | a trigger notifies at once if and only if the path is new, its window is over, or its burst is not spent and no timer recorded; otherwise a timer of the path runs for one interval |
| Debounce.QuietThenAtOnce | server/fs/watcher.go:281-288 | in every run, the first event after more than a window without one is notified of at once |
| Debounce.BurstsAreBounded | server/fs/watcher.go:110-114 | in every run, no stretch of a window's length without a reset has more than two bursts of notifications at once |
| Debounce.FireThenClear | server/fs/watcher.go:319-330 | a fired timer is gone, and its closure goes on to reset the path |
| Debounce.ClearResets | server/fs/watcher.go:331-338 | after the reset three triggers notify at once and the fourth does not, and no other path changes |
| Debounce.ForgetStops | server/fs/watcher.go:242-247 | a dropped path has no state and no recorded timer, and the others keep theirs |
| Debounce.Debouncer.Trigger | server/fs/watcher.go:274-341 | the method does the trigger step and notifies at once exactly when nothing is left waiting |
| Debounce.Debouncer.Fire | server/fs/watcher.go:319-330 | the closure notifies for the path that armed the timer |
| Debounce.Debouncer.Clear | server/fs/watcher.go:331-338 | then it resets whatever state the path has by now |
| Debounce.Debouncer.Forget | server/fs/watcher.go:242-247 | dropping a path stops the timer it records |
| Sessions.OneReference | server/server/jsonrpc.go:352-537 | over any sequence of calls and of re-creations and pops of the loop, each one step, each count is 0 or 1, and 1 only for a path in watchedPaths |
| Sessions.ExactUnlessRemoveFails | server/server/jsonrpc.go:464-537 | the converse, a reference for every listed path, breaks if and only if fsnotify's Remove fails in an Unwatch or CloseFile, where no call falls into the event loop's work on a path; SessionRace.ExactlyBroken has the condition where calls do |
| Sessions.StaleStays | server/server/jsonrpc.go:352-370 | from then on the session takes the path for watched and never watches it again |
| SessionRace.MovesAreCalls | server/server/jsonrpc.go:352-537 | each move of the session in the interleaved machine does what the call does: one reference taken or given back, the list kept, the path registered |
| SessionRace.OneReferenceInterleaved | server/server/jsonrpc.go:352-537 | over every interleaving of session calls, tree changes, and actions of the event loop, also within ClearCacheState and WatchPendingFile, each count is 0 or 1, and 1 only for a path that the session lists |
| SessionRace.ExactlyBroken | server/fs/watcher.go:385-444 | a move parts the list from the references if and only if it is an Unwatch or CloseFile whose Remove fails, or a cleanup or undo of the event loop through an old entry that drops one with a reference |
| SessionRace.RunBrokenExactly | server/server/jsonrpc.go:352-537 | list and references agree in every state of a run if and only if no move of it is one of those |
| SessionRace.ClearMeetsNoReference | server/server/jsonrpc.go:863-868 | in every run, ClearPending comes when no count is above 0, which is what the watcher's step machine assumes |
| SessionRace.CleanupBreaks | server/fs/watcher.go:420-443 | in a state that a run of the watcher reaches, the cleanup leaves a listed directory without its reference, though no Remove fails |
| Sessions.ClearLeavesNothing | server/server/jsonrpc.go:854-879 | after ClearCacheState no reference and no registration is left, whatever fsnotify says |
| Sessions.Session.Watch | server/server/jsonrpc.go:352-370 | a path that is not listed gets one reference, is listed and, if unused, watched by fsnotify; a failing Add lists nothing; a listed path stays as it is, and so do all others |
| Sessions.Session.WatchFileOrDir | server/server/jsonrpc.go:373-418 | the same, but volatile paths are skipped |
| Sessions.Session.Unwatch | server/server/jsonrpc.go:464-483 | a listed path gives its reference back and is not listed any more, and its last use takes the fsnotify watch along; a failed Remove keeps it listed; no other path changes |
| Sessions.Session.OpenFile | server/server/jsonrpc.go:486-518 | opens, watches once as Watch does, and records the file's time and size |
| Sessions.Session.CloseFile | server/server/jsonrpc.go:521-537 | closes and gives the reference back as Unwatch does |
| Sessions.Session.RegisterPending | server/server/jsonrpc.go:447-460 | the ancestor is watched as by Watch, and then the path is the last one registered for its child |
| Sessions.Session.ClearCacheState | server/server/jsonrpc.go:854-879 | the loop over watchedPaths, in any order, takes one reference from each listed path, drops the entries and fsnotify watches of last uses, and empties every list |
| PendingCreation.ClosestDirectory | server/server/jsonrpc.go:432-445 | the walk stops at the deepest existing directory above the path |
| PendingCreation.WalkWaits | server/server/jsonrpc.go:432-460 | where it stops, an absent file is waited for under the right child name |
| PendingCreation.CreationIsSeen | server/fs/watcher.go:43-54 | any run of tree changes that brings the file into being, while the ancestor stays, contains a creation of the ancestor's child |
| PendingCreation.UnseenExactly | server/server/jsonrpc.go:432-460 | a creation of the file after the watch on the ancestor can go without a creation of its child if and only if the child is already there, as the file or as a directory, when that watch begins |
| PendingCreation.CreatedInWindow | server/server/jsonrpc.go:432-460 | and then the child was created between the walk and the watch |
| PendingCreation.PopReturnsRegistrations | server/fs/watcher.go:188-379 | in runs in which each re-creation is one step, of whatever outcome, the pop for a child returns every path registered under it since the last pop, once per registration, and leaves none; Registrations.PopReturnsAllExactly has the calls that fall into a re-creation |
| PendingCreation.PopKeepsOrderExactly | server/fs/watcher.go:420-429 | in those runs it returns them in the order of registration if and only if no re-creation found the child back while another path was registered behind it |
| Processes.NeverPanics | server/exec/handler.go:351-376 | no schedule sends on the closed input channel, closes it twice, or queues more than 1024 inputs |
| Processes.StdinIsPrefix | server/exec/handler.go:381-393 | the process is given a prefix, byte for byte, of the accepted inputs in wire order |
| Processes.NoneLostBeforeClose | server/flitrpc/flitrpc.go:296-305 | an input ahead of every close request on the wire of a running process is queued, or refused because the process is not in the table or 1024 inputs are queued |
| Processes.SettledBeforeClose | server/flitrpc/flitrpc.go:296-305 | when a close request's goroutine starts, every frame ahead of it is settled |
| Processes.EofAfterInput | server/exec/handler.go:381-393 | when the writer closes stdin the process has been given all accepted input, and nothing is accepted any more |
| Processes.ExitComesLast | server/exec/handler.go:293-340 | exec/exit is the last frame of its process, there is one, and each stream's frames then spell what was read from it |
| Processes.OutputInOrder | server/exec/handler.go:270-284 | at any time they spell it but for one read on its way, in payloads of at most 4096 bytes, which are never chunked |
| Processes.InputOutcome | server/exec/handler.go:351-376 | from every reachable state with the read loop free, the next input is queued if and only if the process is in the table, its channel open and not full; a refusal changes nothing and says why |
| Processes.WriterPasses | server/exec/handler.go:381-393 | the writer gives the process the first queued input, or ends at a closed and empty channel |
| Processes.CloseStarts | server/flitrpc/flitrpc.go:296-305 | a close request starts one goroutine of its own |
| Processes.CloseCloses | server/exec/handler.go:440-461 | which, if the process is in the table, closes the channel in three actions and leaves what was queued |
| Processes.ClosedIsShut | server/exec/handler.go:440-461 | in every run, a close request that is done leaves the channel closed |
| Processes.ReadIsSent | server/exec/handler.go:270-284 | what a read returns is the next frame of its stream, an empty read sends none, and the last one ends the reader |
| Processes.WaiterEnds | server/exec/handler.go:293-340 | once the process is dead and its readers have ended, the waiter closes the channel, removes the process and sends the exit notification |
| Processes.StepKeepsInv | server/exec/handler.go:270-461 | every step of every goroutine keeps the machine's invariant |
| ProcessManager.Process.Input | server/exec/handler.go:362-375 | the locked section does the machine's step and its send cannot panic |
| ProcessManager.Process.CloseInputCh | server/exec/handler.go:440-447 | the flag is set and the channel closed, with what was queued left for the writer; safe to repeat |
| ProcessManager.Process.InputWriter | server/exec/handler.go:381-393 | while inputs arrive and somebody may close the channel, the process is given the accepted inputs in order as far as it takes them, and stdin is closed exactly when the channel is and it got them all; with room for all, everything that arrives before a close is accepted |
| ProcessManager.Manager.Input | server/exec/handler.go:354-376 | finds the process or reports it missing, then queues, ignores or reports a full buffer |
| ProcessManager.Manager.CloseInput | server/exec/handler.go:450-461 | the same for closing |
| ProcessManager.Manager.ReadOutput | server/exec/handler.go:270-284 | the payloads sent spell what the reads returned, up to and with the one that failed, none empty or over 4096 bytes |
| ProcessManager.ReadsUpToError | server/exec/handler.go:270-284 | what is spelled is the data of all reads, if none fails, or of those up to and with the first that does |
| Cache.ParentOfSpell | flit.el:2686-2696 | what Emacs computes from a normalized path is the path above it and its last component |
| Cache.NegativeLookupIsSound | flit.el:2674-2721 | on a fixed tree, after any accurate puts, responses, queries and invalidations, every existence answer to a normalized absolute path is the uncached one |
| Cache.RuledOutIsAbsent | flit.el:2698-2711 | a path ruled out by its parent's or grandparent's entry does not exist, root cases included |
| Cache.EveryRunIsSound | flit.el:722-756 | accurate entries stay the only entries |
| Cache.ListingsStay | flit.el:722-746 | over any run, nothing but an invalidation makes the cache forget a known listing |
| Cache.PutEffect | flit.el:722-746 | an info with a path is stored under the normalized key, unless an entry with children is there and it has none; no other key changes |
| Cache.PutThenGet | flit.el:2674-2721 | after a put every spelling of the path is answered with the info, or with the fuller entry that was there, and nobody is asked |
| Cache.EntriesEffect | flit.el:861-880 | a response changes the cache only under the keys of its cacheable entries, and each of these is then known |
| Cache.ReplyIsRemembered | flit.el:2674-2721 | once the server has been asked and its reply may be cached, the next question gets the same answer and does not reach the server |
| Cache.VolatileIsNotCached | flit.el:2712-2716 | a reply marked as volatile is not stored |
| Cache.RuledOutExactly | flit.el:2684-2711 | a path is ruled out if and only if the entry of its directory says absent or lists no such child, or the entry above lists no such directory |
| Cache.HostIsForgotten | flit.el:752-760 | after a host's invalidation nothing of it is known, and everything of the others |
| Cache.DotIsMisread | flit.el:2703-2706 | a path with a dot component is answered as missing from a complete listing |
| Cache.InvalidatedExactly | flit.el:748-750 | an invalidated path is gone if and only if it is not a longer path that ends in two slashes, and no other key changes |
| Cache.FileCache.Put | flit.el:722-746 | rejects entries without a path, keeps one with children from one without, and else stores, as PutEffect says |
| Cache.FileCache.Invalidate | flit.el:748-750 | removes the once-normalized key |
| Cache.FileCache.InvalidateHost | flit.el:752-760 | removes exactly the host's entries |
| Cache.FileCache.FromResponse | flit.el:861-880 | the loop stores each entry that has a path and an info and may be cached, in order |
| Cache.FileCache.GetInfo | flit.el:2674-2721 | asks the server exactly when no entry answers, and caches what it says |
| ChildEntries.GetChildEntries | server/fs/handler.go:873-917 | whatever the workers' speed, the entries are those of the listing in its order |
| ChildEntries.FanOut | server/fs/handler.go:881-904 | each slot holds its own child's result when all workers are done, and at no time do more than 32 run |
| ChildEntries.EntryForEachChild | server/fs/handler.go:664-678 | an entry is sent if and only if it is one of a child that the stat finds, under its path or its known realpath, with that child's info |
| ChildEntries.EntriesInOrder | server/fs/handler.go:907-916 | the entries of earlier children come before those of later ones |
| ChildEntries.PathComesFirst | server/fs/handler.go:664-678 | a child's own path comes first, and no path is sent twice for it |
| ChildEntries.BoundedWaitGroup.Add | server/util/concurrency.go:40-49 | takes a token per worker, waiting for room; never returns if and only if it asks for more than the group holds |
| ChildEntries.BoundedWaitGroup.Done | server/util/concurrency.go:52-57 | gives both back |

## Left out

- Sockets, terminals, signals, ssh, deployment, logging, Eden, idle timeouts and the Emacs user interface: plumbing around the modelled parts.
- The Go MessagePack library: on the way to the client any encoding that the client's reader accepts is allowed; on the way to the server its verdict on the metadata is a parameter.
- float64: its eight bytes are carried as they are; but for a frame's type, which may be a float, the conversion to a number is not modelled, and different NaNs stay different.
- Strings are their UTF-8 bytes; map keys are compared as bytes, and the allocation of a declared array length is not modelled.
- MsgpackRoundTrip.RoundTripExactly: requires distinct keys in every plist; the reader merges equal ones.
- RpcServer.EveryRunIsSafe: the id counter does not wrap around at 2^63, and metadata stays under 2^32 bytes.
- EndToEnd.DeliversInOrder: the client's own frames are not interleaved with each other, and the response to a server request is written by the request's handler.
- MsgpackRoundTrip.MistakenIsLost: a plist (:bin N) with a lone character beyond ASCII makes a multibyte string, which the model takes for no byte string.
- Connection.Conn.FailPending: nothing arrives from a dead process and its sentinel runs once; after a disorder nothing more is claimed about the requests.
- FrameReader.ClientFrameIsRead: the keys of the caller's metadata are distinct, and the frame stays under 2^32 bytes.
- Connection.Conn.RunHandler: error and success callbacks of a request are one handler; what nested handlers do beyond their own actions is bounded, not spelled out.
- EventLoop.HandleEvent: Adds after a stat that finds the path succeed, and no call falls into a turn; WatchRace has those.
- Debounce.BurstsAreBounded: a stretch in which a timer's closure resets the path may have more.
- Connection.Conn.Filter: after an early exit a complete frame may wait for the next delivery; progress is not claimed.
- WatchRace.NeverForgotten: the path is not the root, its directory stays, and a stat or pop that succeeds is atomic with the Add after it; Write and Chmod events, which change nothing there, are left out.
- WatchRace.ForgottenExactly: fsnotify loses no event but those of a watch that is removed, and a deletion or replacement seen by two watches may be told by one.
- FileWatcher.Watcher.WatchParentForPending: runs with no call between its locked sections; WatchRace, Registrations and SessionRace have the interleavings, as step machines.
- PendingCreation.PopReturnsRegistrations: a re-creation is one step; Registrations.PopReturnsAllExactly is the statement for every interleaving.
- PendingCreation.PopKeepsOrderExactly: a re-creation is one step; Registrations.PopKeepsListExactly is the order for every interleaving, where a path that is found back counts as one taken away.
- Sessions.ExactUnlessRemoveFails: the event loop's work on a path is one step; SessionRace.ExactlyBroken and SessionRace.RunBrokenExactly are the statements for every interleaving.
- PendingCreation.WalkWaits: the stats of the walk see one tree; changes between the walk and the watch are those of PendingCreation.UnseenExactly.
- WatchTable.ApplyAgrees: the Removes of a pop and of the cleanup, whose errors the code ignores, succeed.
- Debounce.BoundedStaleness: timers fire on time.
- PendingCreation.CreationIsSeen: a subtree arrives or goes as a whole, and the ancestor stays.
- Delivery of pending notifications past the watcher: the session drops them while the path is missing.
- Processes.ExitComesLast: the process is in the table before it exits, and one process table entry per id.
- Callbacks.BlocksOnlyOnSecondAnswer: the waiter table is a step machine and has no class.
- Cache.NegativeLookupIsSound: the tree does not change; freshness of the cache against a changing disk is not claimed. Relative paths are out.
- server/tunnel/tunnel.go and server/exec/pty.go: a tunnel and a second, simpler process manager.
