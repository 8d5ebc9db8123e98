# Verified model of the pworld server core

This project models the parts of pworld's `public/libcore` on which every game server node rests, and
proves what they promise. `dafny verify dfyconfig.toml` checks it.

- **Byte buffer and Lua codec** (`Bytes`, `ByteBuffer`, `LuaCodec`, `LuaMeaning`, `LuaTable`,
  `ScriptParam`). The serializer walks a graph of Lua tables, possibly cyclic, and appends a tree with
  packed tags and terminators to a buffer; the deserializer rebuilds a table from it. `LuaCodec` has the
  grammar and its parser, `LuaMeaning` what a tree means to Lua and what is lost on the way, `LuaPlain` what
  is kept, told from the values alone, `LuaTable` the procedures over the buffer.
- **Stream framing** (`Framing`). The sender packs length-prefixed payloads into 4 KiB blocks, the receiver
  takes them out of chunks of any size. The reference parser takes one byte at a time.
- **Sessions.** `MessageQueue` is the pool of messages, `LinuxSession` the logic thread's part of a session
  with a history of what crossed the socket, `LinuxWorld` all interleavings with the poller thread, the
  one-shot registration and the driver, `LinuxDeletion` what can still be at work when the driver deletes a
  session, `Session` the object itself over pooled messages, `NetMgr` any number of them on the two pools they
  share, with the driver and the logic loop, `Server` what their calls come to, and `SessionRuns` the link
  between the object and the interleavings. `WindowsWorld` has all interleavings of the overlapped-I/O
  version with the kernel and any number of poller threads, `WindowsSession` the object. The record `Core`
  and the calls `Send` and `Disconnect` serve both systems, as session.cpp does. `SocketAnswers` says what an
  update comes to from the readiness word and the answers of the socket alone, and `LinuxRuns`, `WindowsRuns`
  and `ServerRuns` say from the steps of a run alone what a session accepted and received, how much it can
  have sent and why it closed.
- **Timers** (`TimerPass`, `TimerRuns`, `Timer`). A pass over the list of timers while callbacks create and
  cancel timers, over whole runs, with the timer sets of the script objects; how often a timer fires, and at
  which ticks.
- **Task pool** (`AsyncWorld`, `AsyncTask`, `AsyncOrder`). All interleavings of pushers, workers and the logic
  thread, up to destruction, and the order in which tasks are completed.

Concurrent parts are state machines: a value `World`, a datatype of steps, `Enabled` and `Apply`, and
`Exec` for runs, which skips a step where it is not possible, so every list of steps is a run and a
theorem about all lists is one about all reachable states. Answers of the system (bytes taken, call would
block, interrupted, error, end of the stream, completions) are parameters of the steps. Objects are
classes whose methods are proved to do what the specification functions and steps say; the properties are
proved about those.

Findings, each stated where it is proved:

- `_send` does not move `data` on after a block is full (session.cpp:27-28), so what goes beyond the tail
  block starts over at the first byte of the piece. `Framing.SendExact` says exactly when a frame is right
  nevertheless, from the room in the tail block and the size; `Framing.SendExample` is a payload it
  corrupts. The end-to-end theorems assume of each `Send` of the code as written that its frame fits; for
  the version that moves on, which is modelled too, they assume nothing.
- Integers from -2^31 to -32769 are tagged as unsigned (LuaTable.cpp:144) and come back 2^32 larger.
  `LuaMeaning.ExactTable` says exactly which tables are kept; `LuaMeaning.BandExample` is one that is not.
- On Windows a send completion frees the block whatever number of bytes it reports
  (session_win32.cpp:122-127). `WindowsWorld.SendConservation` says that no byte is lost exactly when every
  successful completion reports the full length of its block, and `WindowsWorld.ShortExample` is a run that
  loses bytes.
- A Linux session can be deleted while a report of its socket is on its way to the callback, or while the
  callback is at work in it; and after the callback the poller still writes to the session's key
  (poller.cpp:144-145), which the destructor deletes. `LinuxDeletion.DeletionExactly` says exactly when each can
  happen once the driver finds the session closed, by the mutex, the arming flag, the reports on their way and
  where the poller is; `LinuxDeletion.StaleExample`, `LinuxDeletion.InsideExample` and
  `LinuxDeletion.LateExample` are runs in which they do.
- Blocks in the queue of a session that is deleted are neither recycled nor freed (session_linux.cpp:30-42). So
  a block of the send pool is recycled, with one session or lost that way, as
  `NetMgrs.NetMgr.OnePlaceSending` says; `NetMgrs.NetMgr.Run` says that none is lost exactly when every session
  the driver finds closed has an empty queue, and `Servers.LossExample` is a run that loses one.
- `timer.cpp:138` fires a timer while its time has not passed yet. `TimerRuns.FiresAsWritten` says which
  timers fire, `TimerRuns.ElapsedExactly` exactly when these are the ones whose time has passed,
  `TimerRuns.PastNeverFires` that a timer whose tick was missed is listed and never fired, and
  `TimerRuns.EarlyExample` shows both. The theorems of `TimerPass` hold for any comparison.
- `Timer::once` has sixteen bits. `TimerRuns.OnceExactly` says that a timer fires at most once exactly when
  these are not all zero, and `TimerRuns.TwiceExample` is one created with a non-zero `once` that fires
  twice. `ScriptTimer::Create` hands its `loop` argument on as `once`, so the same holds of `loop`.
- `AsyncTask::Init` counts the threads it starts in eight bits (AsyncTask.cpp:59): `AsyncWorld.InitReturns` says
  for which numbers it comes to an end. The other theorems about the pool hold for any number of threads.

## Model

| member | source | states |
|---|---|---|
| `Bytes.UnLeOfLe` | public/libcore/include/byteBuffer.h:20-32 | An integer written in memory order and read back at the same width is the same integer, for every value that fits |
| `Bytes.LeOfUnLe` | public/libcore/include/byteBuffer.h:20-32 | Reading bytes as an integer and writing it back gives the same bytes, so the two are inverse bijections |
| `Bytes.SignedOfUnsigned` | public/libcore/include/byteBuffer.h:35-38 | A signed value that fits its type survives the conversion to bytes and back |
| `Bytes.CutTerminated` | public/libcore/src/byteBuffer.cpp:114-126 | A string without NUL, written with its NUL and followed by anything, is read back as that string |
| `Buffers.ByteBuffer.In` | public/libcore/src/byteBuffer.cpp:94-104 | All of the data is appended to the log or, when it does not fit, nothing changes |
| `Buffers.ByteBuffer.Out` | public/libcore/src/byteBuffer.cpp:81-91 | The next bytes of the log are handed out and the cursor moves past them or, when there are too few, nothing changes |
| `Buffers.ByteBuffer.PutInt` | public/libcore/include/byteBuffer.h:20-25 | The converted value is appended in memory order, or nothing changes |
| `Buffers.ByteBuffer.GetInt` | public/libcore/include/byteBuffer.h:27-32 | An unsigned value, or the bytes of a float, at the cursor is read and consumed; with too few bytes the variable keeps its value |
| `Buffers.ByteBuffer.GetSigned` | public/libcore/include/byteBuffer.h:49-52 | A signed value at the cursor is read as its two's complement and consumed; with too few bytes the variable keeps its value |
| `Buffers.ByteBuffer.PutText` | public/libcore/src/byteBuffer.cpp:107-118 | The bytes up to the first NUL and one NUL are appended, or nothing changes |
| `Buffers.ByteBuffer.GetText` | public/libcore/src/byteBuffer.cpp:121-136 | The pending string up to its NUL is read and consumed; one that ends beyond the write cursor is not read |
| `Buffers.ByteBuffer.ReadOffset` | public/libcore/src/byteBuffer.cpp:139-156 | The read cursor moves by the offset exactly when that stays between zero and the write cursor |
| `Buffers.ByteBuffer.WriteOffset` | public/libcore/src/byteBuffer.cpp:159-176 | The write cursor moves by the offset exactly when that stays between the read cursor and the size |
| `Buffers.ByteBuffer.Reset` | public/libcore/include/byteBuffer.h:86 | The log is empty and both cursors are at its start |
| `Buffers.ByteBuffer.Resize` | public/libcore/src/byteBuffer.cpp:179-186 | A larger block keeps the log and both cursors; the block never shrinks |
| `Buffers.ReadBackInOrder` | public/libcore/include/byteBuffer.h:34-68 | Any sequence of writes of integers signed and unsigned, floats and NUL-free strings is read back in order by reads of the same types, whatever follows it |
| `Buffers.Exchange` | public/libcore/include/byteBuffer.h:34-68 | On the buffer itself, as far as there is room: what was written behind older bytes comes back in order when these have been taken out, and nothing is left |
| `LuaCodec.ParseOfPrint` | public/libcore/src/LuaTable.cpp:407-438 | Parsing the printed form of any well-formed tree, followed by anything, gives the tree and leaves what follows |
| `LuaCodec.PrintOfParse` | public/libcore/src/LuaTable.cpp:330-438 | Whatever the parser accepts is the printed form of the tree it gives: encodings are unique and none is a prefix of another |
| `LuaCodec.FieldFront` | public/libcore/src/LuaTable.cpp:264-268 | The packed tag byte of a pair is never the terminator and yields both tags again |
| `LuaMeaning.WireTable` | public/libcore/src/LuaTable.cpp:272-306 | For every graph of tables, cyclic ones too, what is written is a well-formed tree of the right tag with at most as many nested tables as the depth left |
| `LuaMeaning.SetItemsAt` | public/libcore/src/LuaTable.cpp:409-421 | A run of `rawseti` puts every element at its index and adds nothing else |
| `LuaMeaning.IntegerMeaning` | public/libcore/src/LuaTable.cpp:99-156 | An integer comes back unchanged, but for the band from -2^31 to -32769, which is tagged as unsigned and comes back 2^32 larger |
| `LuaMeaning.RoundTrip` | public/libcore/src/LuaTable.cpp:309-460 | For every table of every graph and any bytes behind it, reading back consumes exactly the bytes written and rebuilds the normalized table: unsupported elements and pairs dropped, strings cut at NUL, tables at the depth limit emptied |
| `LuaMeaning.ExactTable` | public/libcore/src/LuaTable.cpp:142-145 | For every table of every graph, all its integers are kept if and only if no written key lies in the band and no written value does, but for values that a later pair with the same key replaces |
| `LuaMeaning.CleanKept` | public/libcore/src/LuaTable.cpp:142-145 | A table without an integer in the band is kept |
| `LuaMeaning.TidyGraph` | public/libcore/src/LuaTable.cpp:272-306 | Where keys are distinct and have no NUL, a table is kept if and only if no integer at all that is written lies in the band |
| `LuaMeaning.BandExample` | public/libcore/src/LuaTable.cpp:142-145 | A table whose only element, -40000, comes back as 4294927296 |
| `LuaMeaning.SetAllDistinct` | public/libcore/src/LuaTable.cpp:422-437 | With distinct keys the order of the pairs does not matter: each is found again |
| `LuaMeaning.HashContents` | public/libcore/src/LuaTable.cpp:288-299 | A hash table comes back as exactly the map of its supported pairs, whatever order they were traversed in |
| `LuaPlain.IntTagExactly` | public/libcore/src/LuaTable.cpp:99-156 | The tag of an integer by its range, each range literally |
| `LuaPlain.SupportedExactly` | public/libcore/src/LuaTable.cpp:239-269 | For every graph, an element is written unless it is nil or of a type that has no encoding, and a pair exactly when its value would be and its key is an integer or a string |
| `LuaPlain.PlainRoundTrip` | public/libcore/src/LuaTable.cpp:309-460 | For every table of every graph in which all is supported, no string has a NUL, keys differ, nesting stays below the limit and no integer is in the band: whatever follows, reading back gives the very table, each element at its index and each pair under its key, and nothing else |
| `LuaTable.SerializeEntity` | public/libcore/src/LuaTable.cpp:176-236 | The bytes of the value's tree are appended when they fit; nothing already there is touched |
| `LuaTable.SerializeVal` | public/libcore/src/LuaTable.cpp:239-248 | A supported element is appended with its tag, any other adds nothing |
| `LuaTable.SerializeKeyVal` | public/libcore/src/LuaTable.cpp:251-269 | A supported pair is appended with its packed tag, any other adds nothing |
| `LuaTable.SerializeTable` | public/libcore/src/LuaTable.cpp:272-306 | It terminates on every graph, by the depth left and the entries left, and appends the elements or pairs and exactly one terminator |
| `LuaTable.Serialize` | public/libcore/src/LuaTable.cpp:309-324 | A table is appended as its printed tree when it fits; anything but a table is refused and leaves the buffer alone |
| `LuaTable.DeserializeEntity` | public/libcore/src/LuaTable.cpp:330-404 | On a complete encoding it builds the value of the parsed tree and consumes exactly its bytes |
| `LuaTable.DeserializeItems` | public/libcore/src/LuaTable.cpp:409-421 | The elements up to the terminator are stored from index 1 and exactly their bytes consumed |
| `LuaTable.DeserializeFields` | public/libcore/src/LuaTable.cpp:422-437 | The pairs up to the terminator are stored and exactly their bytes consumed |
| `LuaTable.Deserialize` | public/libcore/src/LuaTable.cpp:441-460 | A complete table is rebuilt and exactly its bytes consumed; a tag of anything else is consumed and refused |
| `ScriptParams.ScriptParam.Init` | public/libcore/src/ScriptParam.cpp:6-13 | The pending bytes become the encoding of the table, if it fits; a buffer of no size gets 16 KiB first |
| `ScriptParams.ScriptParam.Push` | public/libcore/src/ScriptParam.cpp:16-22 | The stored table is pushed and its bytes consumed, or an empty table pushed when there is none |
| `ScriptParams.ScriptParam.Serialize` | public/libcore/src/ScriptParam.cpp:25-29 | The number of pending bytes and the bytes are appended to the carrier; they stay pending here |
| `ScriptParams.ScriptParam.Deserialize` | public/libcore/src/ScriptParam.cpp:32-47 | Exactly 4+n bytes of the carrier are consumed and the n bytes become pending here, when they fit |
| `ScriptParams.EnvelopeRoundTrip` | public/libcore/src/ScriptParam.cpp:25-47 | A parameter taken out of a carrier is, byte for byte, the one put in, whatever follows it |
| `ScriptParams.TransportedTable` | public/libcore/src/ScriptParam.cpp:6-47 | A table stored, carried and pushed is the normalized table; a second push gives an empty one |
| `Messages.Message.Reset` | public/libcore/src/messagequeue.cpp:30-42 | The message is empty and set to its length; its capacity grows only when too small |
| `Messages.Message.Fill` | public/libcore/src/messagequeue.cpp:51-67 | As many bytes as there is room for are appended and exactly those taken off the input |
| `Messages.BoundKept` | public/libcore/src/messagequeue.cpp:30-42 | A reset to at most 0x4000 keeps the capacity a multiple of 0x1000 up to 0x8000, and growths done and growths still possible are at most two together |
| `Messages.MessageQueue.ApplyMessage` | public/libcore/src/messagequeue.cpp:72-87 | The oldest recycled message, or a new one, goes to the caller; every message stays in exactly one place with one holder, and what others hold is not touched |
| `Messages.MessageQueue.FreeMessage` | public/libcore/src/messagequeue.cpp:90-95 | A message its holder gives up becomes the youngest recycled one; what others hold and what is waiting is not touched |
| `Messages.MessageQueue.PushMessage` | public/libcore/src/messagequeue.cpp:98-103 | A message its holder gives up joins the waiting ones, at their end, with its sender; what others hold is not touched |
| `Messages.MessageQueue.PopMessage` | public/libcore/src/messagequeue.cpp:106-118 | The oldest waiting message goes to the logic loop, or none when there is none; what sessions hold is not touched |
| `Messages.MessageQueue.NewMessage` | public/libcore/src/messagequeue.cpp:72-87 | A message for a new packet is empty and of its length, within the bound on capacities, and nothing others hold or that is waiting is changed |
| `Framing.ChunkIndependence` | public/libcore/src/session.cpp:45-85 | Receiving two chunks is receiving their concatenation |
| `Framing.HeaderRun` | public/libcore/src/session.cpp:49-68 | Bytes that at most complete the header extend it, and a complete one starts a packet or gives the stream up |
| `Framing.BodyRun` | public/libcore/src/session.cpp:70-83 | Bytes that at most complete the packet extend it, and a complete one is pushed and the header emptied |
| `Framing.LengthLimits` | public/libcore/src/session.cpp:57-65 | A length below 2 or above 0x4000 makes the receiver give the stream up; with any other, 0x4000 included, the next so many bytes are pushed as the payload |
| `Framing.DeadForever` | public/libcore/src/session.cpp:57-65 | After a length out of range nothing is pushed any more |
| `Framing.RxFrames` | public/libcore/src/session.cpp:45-85 | After any prefix of a stream of frames the packets pushed are exactly the payloads that arrived in full, in order and byte for byte |
| `Framing.AppendAsWritten` | public/libcore/src/session.cpp:15-31 | What the loop as written adds to the stream for a piece: each further block starts over at the first byte of the piece |
| `Framing.PieceExact` | public/libcore/src/session.cpp:26-28 | It stores a given piece if and only if the part beyond the tail block repeats the piece from its start |
| `Framing.SendAsWritten` | public/libcore/src/session.cpp:33-42 | What one `Send` adds to the stream, for every queue and payload |
| `Framing.SendAdvancing` | public/libcore/src/session.cpp:33-42 | With a pointer that moves on, `Send` adds exactly the frame, for every queue and payload |
| `Framing.SendExact` | public/libcore/src/session.cpp:26-41 | `Send` as written adds the right frame for every payload of a size if and only if the room in the tail block satisfies `FrameFits` |
| `Framing.SendExample` | public/libcore/src/session.cpp:26-28 | A payload of 4093 bytes that `Send` as written corrupts |
| `LinuxSession.PickBlock` | public/libcore/src/session_linux.cpp:190-205 | Making the front block the current one changes no unsent byte |
| `LinuxSession.SendLoop` | public/libcore/src/session_linux.cpp:185-239 | Whatever the socket answers, bytes taken and bytes unsent make up the bytes unsent before |
| `SocketAnswers.SendOnceExactly` | public/libcore/src/session_linux.cpp:205-237 | One call takes as many bytes as the socket reports, up to what is left of the block, from the front; any other answer takes none; only a block taken in full is given back, and only then, or when interrupted, the loop goes on |
| `SocketAnswers.SendLoopExactly` | public/libcore/src/session_linux.cpp:182-239 | The loop takes, from the front of what is unsent, exactly what its calls report of what each was offered, told from the lengths of the blocks and the answers alone, and ends as the last answer met says |
| `SocketAnswers.CallsMet` | public/libcore/src/session_linux.cpp:250-291 | Calls of `recv` go on exactly after a full buffer and an interruption |
| `SocketAnswers.RecvLoopExactly` | public/libcore/src/session_linux.cpp:250-291 | The loop parses exactly what the calls it makes bring, and ends as the last answer met says |
| `SocketAnswers.UpdateReceives` | public/libcore/src/session_linux.cpp:243-292 | What an update receives, whether it meets the end of the stream and whether the socket stays readable, told from the readiness word and the answers |
| `SocketAnswers.UpdateSends` | public/libcore/src/session_linux.cpp:167-240 | What an update sends, and that it calls `shutdown` exactly when nothing is unsent, the session is to be disconnected and `shutdown` was not called before, told from the readiness word and the answers |
| `SocketAnswers.UpdateCloses` | public/libcore/src/session_linux.cpp:118-155 | A running session is pre-closed exactly if a closing event came in, a call failed, or both directions are over; a pre-closed one is closed unless a closing event came in; the inactivity check disconnects one that goes on or is over in both directions |
| `LinuxSession.SendStores` | public/libcore/src/session.cpp:33-42 | A running session, disconnected or not, queues the whole frame, or what the code as written stores for it, behind what is queued and accepts the payload; any other changes nothing |
| `LinuxSession.SendKeeps` | public/libcore/src/session.cpp:33-42 | `Send` keeps the invariant of a session: conservation, graceful shutdown, parsed stream |
| `LinuxSession.RecvLoopParses` | public/libcore/src/session_linux.cpp:243-292 | Whatever chunks the socket delivers, receiving them is parsing their concatenation |
| `LinuxSession.PostRecvKeeps` | public/libcore/src/session_linux.cpp:243-292 | `_post_recv` keeps the invariant of a session |
| `LinuxSession.PostSendKeeps` | public/libcore/src/session_linux.cpp:167-240 | `_post_send` keeps the invariant of a session |
| `LinuxSession.BodyKeeps` | public/libcore/src/session_linux.cpp:78-155 | An update keeps the invariant of a session |
| `LinuxSession.BodyStatus` | public/libcore/src/session_linux.cpp:118-155 | An update never leaves the error state visible, never revives a session, pre-closes a running one exactly if a closing event came in, a call failed or both directions are over, and closes a pre-closed one, calling `on_closed` once, unless a closing event came in |
| `LinuxSession.CoreEndToEnd` | public/libcore/src/session.cpp:15-85 | Between any two sessions that satisfy the invariant the receiver has pushed exactly the payloads that have arrived |
| `LinuxWorld.InvStep` | public/libcore/src/session_linux.cpp:14-163 | Every step of every thread keeps the whole invariant |
| `LinuxWorld.RunsKeepInv` | public/libcore/src/session_linux.cpp:14-163 | ... and so does every interleaving |
| `LinuxWorld.OneShotHandshake` | public/libcore/src/poller.cpp:140-146 | In every reachable state, a session's deletion included, at most one registration, report or callback is under way, it implies the arming flag whenever the mutex is free, no report is ever overwritten and each is read once, in order |
| `LinuxWorld.CloseMachine` | public/libcore/src/session_linux.cpp:118-163 | The error state is never visible between updates, `on_closed` runs exactly once, and at most two updates see a session pre-closed before it is closed and deleted; a second one only when a closing report was read after the session left the running state |
| `LinuxDeletion.DeletionExactly` | server/src/gameserver/netmgr.cpp:162-166 | When the driver finds a session closed, a callback can find it deleted if and only if the mutex is taken or a report is on its way, and the poller can write to its deleted key if and only if it is not waiting or a report is on its way; with the mutex free and the arming flag cleared no callback ever does |
| `LinuxDeletion.StaleExample` | public/libcore/src/poller.cpp:140-146 | A run in which a callback is entered for a session that has been deleted |
| `LinuxDeletion.InsideExample` | public/libcore/src/session_linux.cpp:14-20 | A run in which the session is deleted while the callback holds its mutex |
| `LinuxDeletion.LateExample` | public/libcore/src/poller.cpp:144-145 | A run in which the mutex is free and the arming flag cleared, and the key is written to after the deletion |
| `LinuxWorld.UpdateIsRun` | public/libcore/src/session_linux.cpp:78-164 | The steps of an update that nothing interrupts run the body once on what the readiness word says and register the socket exactly when the session is running and not armed |
| `LinuxWorld.StatusMovesForward` | public/libcore/src/session_linux.cpp:118-155 | A status once left never returns, in any interleaving |
| `LinuxWorld.SendConservation` | public/libcore/src/session_linux.cpp:167-240 | In every reachable state bytes taken, the rest of the current block and the queue are exactly the bytes stored, and only the last block may have room |
| `LinuxWorld.ShutdownIsGraceful` | public/libcore/src/session_linux.cpp:167-177 | `shutdown` is called at most once, only after `Disconnect`, with every byte stored by then handed to the socket |
| `LinuxWorld.EndToEnd` | public/libcore/src/session_linux.cpp:167-292 | For any two runs, the receiver has pushed exactly the payloads sent that have arrived in full, in order and byte for byte |
| `LinuxWorld.AllArrived` | public/libcore/src/session.cpp:33-42 | When everything stored has arrived, these are all the payloads |
| `LinuxRuns.AcceptedInOrder` | public/libcore/src/session.cpp:33-42 | Over every interleaving what was accepted is, in order, what the calls of `Send` that met a running session were given |
| `LinuxRuns.ReceivedInOrder` | public/libcore/src/session_linux.cpp:243-292 | ... and what was received is, in order, what the calls of `recv` brought that were made while the session was running, readable and not at the end of the stream |
| `LinuxRuns.SentAtMost` | public/libcore/src/session_linux.cpp:226-237 | No more bytes ever count as sent than the answers of the socket in the steps report |
| `LinuxRuns.LeavesWhenDone` | public/libcore/src/session_linux.cpp:123-139 | A session that has left the running state, though no call failed and no report closed it, has read the end of the stream and was shut down once, and exactly what was stored by then was sent |
| `Sessions.Session.OnRecv` | public/libcore/src/session.cpp:45-85 | However the loop fills header and message, the session ends up where the reference parser does, pushing the same packets to the pool behind those waiting, and is disconnected exactly when the stream is given up; messages move from the recycled ones through the session to the waiting ones in order, new ones are made only when there is none, and those of others are not touched |
| `Sessions.Session.Pass` | public/libcore/src/session.cpp:47-83 | One pass of the loop takes at least one byte or is the last |
| `Sessions.Session.StorePiece` | public/libcore/src/session.cpp:15-31 | The loop over the tail block does what the specification of the loop as written says; blocks of others are not touched |
| `Sessions.Session.StoreFrame` | public/libcore/src/session.cpp:38-41 | Length and payload are stored as two pieces; blocks of others are not touched |
| `Sessions.Session.Send` | public/libcore/src/session.cpp:33-42 | It does what the state machine's `Send` does; a session that is not running accepts nothing; blocks are taken from the front of the recycled ones and made only when there is none, and those of others are not touched |
| `Sessions.Session.Disconnect` | public/libcore/src/session.cpp:122-128 | It sets the flag and nothing else |
| `Sessions.Session.Pick` | public/libcore/src/session_linux.cpp:190-205 | The front block becomes the current one when there is none |
| `Sessions.Session.CallSend` | public/libcore/src/session_linux.cpp:207-237 | One call of `send`: bytes taken, a finished block put behind the recycled ones, and whether the loop ends; recycled blocks, the one being sent and the queue stay the same sequence |
| `Sessions.Session.DrainQueue` | public/libcore/src/session_linux.cpp:185-239 | The loop of `_post_send` does what the state machine's loop does, and recycles each finished block, in order |
| `Sessions.Session.DrainSocket` | public/libcore/src/session_linux.cpp:250-291 | The loop of `_post_recv` does what the state machine's loop does |
| `Sessions.Session.PostRecv` | public/libcore/src/session_linux.cpp:243-292 | `_post_recv` is the state machine's |
| `Sessions.Session.PostSend` | public/libcore/src/session_linux.cpp:167-240 | `_post_send` is the state machine's, and recycles each finished block, in order |
| `Sessions.Session.TakeEvents` | public/libcore/src/session_linux.cpp:85-113 | The readiness word sets the flags it stands for and is cleared |
| `Sessions.Session.Close` | public/libcore/src/session_linux.cpp:118-155 | The end of an update is the state machine's close machine |
| `Sessions.Session.Arm` | public/libcore/src/session_linux.cpp:157-162 | The socket is registered exactly when the session runs and is not armed |
| `Sessions.Session.Update` | public/libcore/src/session_linux.cpp:78-164 | `Update` is one run of the state machine's update, or nothing when the mutex is taken; it registers the socket at most once and leaves what others hold of either pool alone |
| `Sessions.Session.Destroy` | public/libcore/src/session_linux.cpp:30-42 | The packet under construction is deleted and the block being sent put behind the recycled ones; the session then holds exactly the blocks in its queue, and what others hold and what is waiting is not touched |
| `Sessions.Session.SessionCallback` | public/libcore/src/session_linux.cpp:14-20 | The callback writes the readiness word and clears the arming flag |
| `SessionRuns.UpdateIsRun` | public/libcore/src/session_linux.cpp:78-164 | What an update does to a session's fields is what its steps among the threads of `LinuxWorld` do, and it registers the socket as often as they do |
| `SessionRuns.PollIsRun` | public/libcore/src/session_linux.cpp:14-20 | ... and so it is with a callback of the poller thread |
| `NetMgrs.ToldAlike` | public/libcore/src/messagequeue.cpp:72-118 | Whether a session is valid, and how it looks, depends on its own fields and on what it holds of the pools alone, so no call of another changes it |
| `NetMgrs.NetMgr.UpdateAt` | server/src/gameserver/netmgr.cpp:159-161 | With any number of sessions on the two pools, an update of one does to it what it would do alone and nothing to the others; what it pushed is behind what was waiting, and what it finished sending is behind what was recycled |
| `NetMgrs.NetMgr.SendAt` | public/libcore/src/session.cpp:33-42 | ... and so does `Send` |
| `NetMgrs.NetMgr.RemoveAt` | server/src/gameserver/netmgr.cpp:162-166 | Deleting a session changes nothing for the others; its packet under construction is deleted, its block being sent recycled, and exactly the blocks in its queue are lost |
| `NetMgrs.NetMgr.Pop` | public/libcore/src/serverframe.cpp:34 | The logic loop takes the oldest packet, or none when there is none |
| `NetMgrs.NetMgr.Release` | public/libcore/src/serverframe.cpp:39 | The message of the packet it has handled goes behind the recycled ones |
| `NetMgrs.NetMgr.UpdateAll` | server/src/gameserver/netmgr.cpp:157-169 | The driver's pass, which erases while it goes on, updates every session once, in order, and drops exactly those that are closed then; blocks are lost if and only if one of these has some in its queue |
| `NetMgrs.NetMgr.Run` | public/libcore/src/serverframe.cpp:32-45 | Any interleaving of updates, sends, disconnects, callbacks, new sessions and the logic loop taking and freeing packets: every session does what it would do alone, and blocks are lost if and only if a pass drops a session with some in its queue |
| `NetMgrs.NetMgr.OnePlace` | public/libcore/src/messagequeue.cpp:72-118 | In every state of every such run each message of the receive pool is in exactly one place, once: waiting, recycled, with the logic loop or under construction in one session; its capacity is a multiple of 0x1000 up to 0x8000 after at most two growths |
| `NetMgrs.NetMgr.OnePlaceSending` | public/libcore/src/messagequeue.cpp:72-95 | Each block of the send pool likewise is in exactly one place, once: recycled, queued or being sent in one session, or lost with a deleted one; none is ever waiting |
| `NetMgrs.NetMgr.MailInOrder` | public/libcore/src/messagequeue.cpp:98-118 | What the logic loop took and what is waiting has the packets of each session in the order in which it pushed them |
| `Servers.ServerKeeps` | server/src/gameserver/netmgr.cpp:143-188 | Over every such run each session keeps conservation, graceful shutdown and parsing |
| `ServerRuns.DrivenPlaces` | server/src/gameserver/netmgr.cpp:157-169 | After a pass of the driver each session is updated and in its place, or was closed by its update and is gone |
| `ServerRuns.AcceptedInOrder` | public/libcore/src/session.cpp:33-42 | Over every run of a server each session that is still there has accepted, in order, exactly the payloads it was given while it was running |
| `Servers.LossExample` | public/libcore/src/session_linux.cpp:30-42 | A run that drops a session with a block in its queue |
| `WindowsWorld.GoodStep` | public/libcore/src/session_win32.cpp:76-243 | Every step of every thread, the kernel and the pollers included, keeps the whole invariant and never takes the status back |
| `WindowsWorld.OutsideFacts` | public/libcore/src/poller.cpp:82-86 | They change an operation only while its status is pending, and a session in no other way |
| `WindowsWorld.RunsKeepInv` | public/libcore/src/session_win32.cpp:76-243 | ... and so does every interleaving |
| `WindowsWorld.OverlappedOwnership` | public/libcore/src/netbase.cpp:71-85 | In every reachable state at most one send and one receive are outstanding, exactly while their status is pending or the call is just being made, and every completion is delivered once and read once, in order and unchanged, or still there |
| `WindowsWorld.ClosedIsQuiet` | public/libcore/src/session_win32.cpp:137-172 | A session that is closing, closed or deleted has nothing outstanding in the kernel or in a poller thread; `on_closed` runs exactly once |
| `WindowsWorld.StatusMovesForward` | public/libcore/src/session_win32.cpp:142-171 | A status once left never returns, in any interleaving |
| `WindowsWorld.NoFault` | public/libcore/src/session_win32.cpp:175-215 | The block being sent is there whenever it is used, and the front is only taken from a queue that has one |
| `WindowsWorld.SendConservation` | public/libcore/src/session_win32.cpp:108-134 | Bytes on the wire and unsent bytes are exactly the bytes stored if and only if every successful completion the session has read reported the full length of its block |
| `WindowsWorld.ShortExample` | public/libcore/src/session_win32.cpp:122-127 | A run in which a completion reports one byte of a longer block and the others are lost |
| `WindowsWorld.ShutdownIsGraceful` | public/libcore/src/session_win32.cpp:180-188 | `shutdown` is called at most once, only after `Disconnect`, with every block stored by then given back; every byte stored by then was sent if and only if every successful completion was full |
| `WindowsWorld.EndToEnd` | public/libcore/src/session_win32.cpp:76-243 | For any two runs in which every completion was full the receiver has pushed exactly the payloads that have arrived |
| `WindowsRuns.CloseExactly` | public/libcore/src/session_win32.cpp:142-171 | What the close machine makes of each status: a running session stays unless both directions are over, a failed one waits for what is outstanding, a pre-closed one is closed with `on_closed` |
| `WindowsRuns.RecvExactly` | public/libcore/src/session_win32.cpp:76-105 | What reading a completed receive does, by its answer: an error, the end of the stream, or a chunk that is parsed and followed by the next receive |
| `WindowsRuns.SendExactly` | public/libcore/src/session_win32.cpp:108-134 | What the send side does, by its status and answer: the next block goes out, its end is read, or `shutdown` is called when nothing is queued and the session is to be disconnected |
| `WindowsRuns.AcceptedInOrder` | public/libcore/src/session.cpp:33-42 | Over every interleaving what was accepted is, in order, what the calls of `Send` that met a running session were given |
| `WindowsRuns.ReceivedInOrder` | public/libcore/src/session_win32.cpp:76-105 | ... and what was received, with the chunk not read yet, is, in order, what the completions delivered |
| `WindowsRuns.LeavesWhenDone` | public/libcore/src/session_win32.cpp:142-171 | A session that has left the running state, though no operation failed, has read the end of the stream and was shut down once |
| `WindowsSession.PerIoData.Reset` | public/libcore/src/netbase.cpp:71-78 | The operation is pending with no answer |
| `WindowsSession.PerIoData.Complete` | public/libcore/src/poller.cpp:78-99 | The poller thread delivers the answer and then the completion |
| `WindowsSession.Session.Attach` | public/libcore/src/session_win32.cpp:43-73 | An attached session has posted its first receive |
| `WindowsSession.Session.PostRecv` | public/libcore/src/session_win32.cpp:218-243 | A receive is posted exactly when none is under way; a refused call ends in the error state |
| `WindowsSession.Session.DisposeRecv` | public/libcore/src/session_win32.cpp:76-105 | `_dispose_recv` is its steps in a row |
| `WindowsSession.Session.PostSend` | public/libcore/src/session_win32.cpp:175-215 | `_post_send` is its steps in a row; a queued block is never empty |
| `WindowsSession.Session.DisposeSend` | public/libcore/src/session_win32.cpp:108-134 | `_dispose_send` is its steps in a row |
| `WindowsSession.Session.Close` | public/libcore/src/session_win32.cpp:142-171 | The end of an update is its steps in a row |
| `WindowsSession.Session.Update` | public/libcore/src/session_win32.cpp:137-172 | An update that nothing interrupts is its steps in a row, and keeps the invariant |
| `WindowsSession.UpdateIsRun` | public/libcore/src/session_win32.cpp:137-172 | The steps of the calls of an update are one run of the state machine |
| `TimerPass.DoOk` | public/libcore/src/timer.cpp:46-119 | Every call keeps identifiers increasing along the two lists and the books of the owners right, and cancels exactly the timers it kills |
| `TimerPass.RunOk` | public/libcore/src/timer.cpp:46-119 | ... and so does every sequence of calls, inside a callback too |
| `TimerPass.VisitFacts` | public/libcore/src/timer.cpp:131-156 | Looking at one timer fires it exactly if it is due and not cancelled, removes or keeps it, and changes the others only by what its callback cancels |
| `TimerPass.PassOk` | public/libcore/src/timer.cpp:125-157 | A pass keeps the invariant |
| `TimerPass.PassFires` | public/libcore/src/timer.cpp:129-157 | From any position on, a pass fires timers of the list, in order and at most once each: those due and not cancelled, before or by a timer fired earlier in the pass |
| `TimerPass.PassLeaves` | public/libcore/src/timer.cpp:129-157 | A pass leaves the timers gone by before, and of the others exactly those that stay, in their order and with their new tick |
| `TimerPass.RunMakes` | public/libcore/src/timer.cpp:46-88 | Calls made during a pass put what they create behind what was created before, in order and with consecutive identifiers |
| `TimerPass.PassRuns` | public/libcore/src/timer.cpp:129-157 | But for the list itself a pass does what the calls of the callbacks it runs do |
| `TimerPass.UpdateTheorem` | public/libcore/src/timer.cpp:122-167 | One `Update`, for any due predicate and any callbacks: which timers fire, which stay and how, and that the new ones follow in order of creation and do not fire |
| `TimerPass.HistoryOk` | public/libcore/src/timer.cpp:46-167 | Every run of calls and updates keeps the invariant, and no timer is left in the second list between updates |
| `TimerPass.UpdateSilent` | public/libcore/src/timer.cpp:122-167 | An update fires no timer cancelled before, and frees those that are still there |
| `TimerPass.NeverAgain` | public/libcore/src/timer.cpp:112-157 | Over any run, no timer that is cancelled or gone ever fires again |
| `TimerPass.CancelIsFinal` | public/libcore/src/timer.cpp:112-137 | After `CancelTimer` for a timer that was ever created, whatever happened before, it never fires again and the next full update frees it |
| `TimerPass.CancelAllIsFinal` | public/libcore/src/ScriptTimer.cpp:41-50 | After `CancelAll` of a script object no timer it had created ever fires again |
| `TimerRuns.CancelledInPass` | public/libcore/src/timer.cpp:112-157 | Whatever a callback cancels in the middle of an update, timers old or new, is not fired after that in the same update, and is cancelled or gone when the update is over |
| `TimerRuns.OnceFiresOnce` | public/libcore/src/timer.cpp:148-153 | Over every run each timer ever created, in a callback or elsewhere, whose `once` was not cut to zero fires at most once |
| `TimerRuns.ListedOnce` | public/libcore/src/timer.cpp:144-153 | A timer that is there and not cancelled fires at most once in whatever follows if and only if it is to fire once |
| `TimerRuns.OnceExactly` | public/libcore/src/timer.cpp:46-66 | A timer created after any run fires at most once in every continuation if and only if the low sixteen bits of `once` are not all zero |
| `TimerRuns.TwiceExample` | public/libcore/src/timer.cpp:8-11 | With `once` 0x10000 a timer fires twice |
| `TimerRuns.FiresAsWritten` | public/libcore/src/timer.cpp:138 | An update fires a timer exactly if the tick is not past `count_time + interval` and the timer is not cancelled when reached |
| `TimerRuns.ElapsedExactly` | public/libcore/src/timer.cpp:138 | An update fires what a comparison of elapsed time would fire if and only if, going along the list as it is before the update, each timer that is not cancelled by then is due at this very tick |
| `TimerRuns.EarlyExample` | public/libcore/src/timer.cpp:138 | A timer of ten ticks fires after five and no longer after eleven |
| `TimerRuns.PastNeverFires` | public/libcore/src/timer.cpp:129-157 | Once a tick is past `count_time + interval` a timer never fires again, however long the run: it stays in the list as it is until a call cancels it |
| `Timers.TimerMgr.CreateTimer` | public/libcore/src/timer.cpp:46-88 | A timer with the next identifier joins the second list during a pass and the first one otherwise |
| `Timers.TimerMgr.GetTimer` | public/libcore/src/timer.cpp:91-109 | The only timer with the identifier is found, in either list, or there is none |
| `Timers.TimerMgr.CancelTimer` | public/libcore/src/timer.cpp:112-119 | Exactly the timer with the identifier is marked |
| `Timers.TimerMgr.OwnerCreate` | public/libcore/src/ScriptTimer.cpp:21-31 | The new timer is entered in the set of its script object |
| `Timers.TimerMgr.OwnerCancel` | public/libcore/src/ScriptTimer.cpp:34-38 | The timer is cancelled and taken off the set |
| `Timers.TimerMgr.CancelAll` | public/libcore/src/ScriptTimer.cpp:41-50 | Every timer of the set is cancelled, in whatever order the set is gone through, and the set emptied |
| `Timers.TimerMgr.VisitTimer` | public/libcore/src/timer.cpp:131-156 | One turn of the loop is one visit of the specification, with the comparison as written |
| `Timers.TimerMgr.Update` | public/libcore/src/timer.cpp:122-167 | `Update` over the lists of timer objects is the update of the specification, with the comparison as written |
| `AsyncWorld.InitReturns` | public/libcore/src/AsyncTask.cpp:56-63 | The loop of `Init` over its eight-bit counter ends if and only if fewer than 256 threads are asked for |
| `AsyncWorld.InvStep` | public/libcore/src/AsyncTask.cpp:6-99 | Every step of every thread keeps the invariant |
| `AsyncWorld.RunsKeepInv` | public/libcore/src/AsyncTask.cpp:6-99 | ... and so does every interleaving |
| `AsyncWorld.ExactlyOnce` | public/libcore/src/AsyncTask.cpp:6-99 | In every reachable state each task is in exactly one place, is freed at most once, its first callback is started and finished at most once and its second one runs at most once and only after the first |
| `AsyncWorld.FreedIsDone` | public/libcore/src/AsyncTask.cpp:21-31 | What workers or `Update` have freed had its callbacks run to their end |
| `AsyncWorld.AllFreedAtTheEnd` | public/libcore/src/AsyncTask.cpp:41-53 | After destruction every task ever pushed was freed exactly once |
| `AsyncWorld.FirstInFirstTaken` | public/libcore/src/AsyncTask.cpp:14-17 | Tasks are taken in the order in which they were pushed |
| `AsyncOrder.PushedAsAsked` | public/libcore/src/AsyncTask.cpp:79-83 | Whatever the threads do, the tasks pushed are those the steps ask for before the pool is destroyed, in order |
| `AsyncOrder.CompletedInOrder` | public/libcore/src/AsyncTask.cpp:24-30 | In every run the second callbacks run in the order in which the steps hand their tasks over; outside `Update` exactly those in the list are to come |
| `AsyncOrder.OneThreadInOrder` | public/libcore/src/AsyncTask.cpp:87-99 | With one thread, in every run, the second callbacks run in the order in which the tasks were pushed |
| `AsyncOrder.OvertakingExample` | public/libcore/src/AsyncTask.cpp:24-30 | With two threads a run that completes two tasks in the other order |
| `AsyncOrder.QueueGetsDone` | public/libcore/src/AsyncTask.cpp:9-31 | Any free worker of a running pool gets through the whole queue and an `Update` then completes it: every first callback has run in order, every second one too, and all is freed |
| `AsyncOrder.StoppedExits` | public/libcore/src/AsyncTask.cpp:9 | A worker that looks after `Release` has begun leaves its loop and takes no further task |
| `AsyncTasks.UpdateIsRun` | public/libcore/src/AsyncTask.cpp:87-99 | An update that nothing interrupts runs the second callbacks in order and frees their tasks |
| `AsyncTasks.AsyncTask.PushTask` | public/libcore/src/AsyncTask.cpp:79-83 | A new task joins the queue at its end |
| `AsyncTasks.AsyncTask.TakeTask` | public/libcore/src/AsyncTask.cpp:12-19 | The section under the lock of the queue is one step: the front task goes to the worker |
| `AsyncTasks.AsyncTask.HandOverTask` | public/libcore/src/AsyncTask.cpp:24-30 | A task with a second callback is handed over, one without is freed |
| `AsyncTasks.AsyncTask.WorkerTurn` | public/libcore/src/AsyncTask.cpp:9-37 | One turn of the loop of a worker is its steps in a row |
| `AsyncTasks.AsyncTask.Update` | public/libcore/src/AsyncTask.cpp:87-99 | `Update` is its steps in a row |
| `AsyncTasks.AsyncTask.Destroy` | public/libcore/src/AsyncTask.cpp:41-53 | The destructor frees what is left in either list |

## Left out

- Sockets, epoll, completion ports, `errno`: answers of the system are arbitrary parameters. Assumed are that a one-shot registration is reported at most once, that arming succeeds, and that a list of answers that runs out ends like a call that would block.
- A return value of `recv` below -1 (session_linux.cpp:285-290) is not an answer of the model.
- `_post_send` (session_linux.cpp:199-204, session_win32.cpp:192-196) gives up on an empty front block; queued blocks are proved never to be empty, so the branch is not part of the procedures.
- Memory order: shared words are read and written one after the other, as under a mutex or on x86; the readers' and writers' orders are the program's.
- `CompletionKey::status`, the error codes kept for the log, logging, and the linger and keep-alive options.
- `Session` destruction: what a callback does to a session that is gone, or a write to a key that is, is not modelled, only that it happens; nor is what `on_msg` does with the pointer in a message whose session has been deleted meanwhile.
- `g_net_close_socket` invalidates the handle before `UnregisterHandler` gets it; closing a socket ends its registration in the model.
- The inactivity timeout is the parameter `idle` of an update.
- Messages.Message: the block is a sequence the object replaces, not an array; addresses and the copy byte by byte are not captured.
- Sessions.Session.Send: proved for `_send` as written only; the version that moves on is modelled on values.
- WindowsSession.Session: received packets and queued blocks are values there; that `_on_recv` and `_send` do over pooled messages what the values say is proved once, in `Sessions.Session`.
- WindowsSession.Session.Update: the object runs without interruption; interleavings with kernel and poller threads are those of `WindowsWorld`.
- AsyncTasks.AsyncTask.Update: likewise, interleavings are those of `AsyncWorld`. `_task_cnt`, which nothing reads, and callbacks that call the pool's own `Update` are not modelled.
- Timers.TimerMgr.Update: a callback is the list of calls it makes; nested updates are not modelled. Identifiers do not wrap at 2^32 and `count_time + interval` not at 2^64.
- Timers.TimerMgr: the timer set of each script object is an entry of one map, and the two overloads of `CreateTimer` are one, since only the callback they bind differs.
- LuaTable.DeserializeEntity: complete encodings only; on truncated or malformed buffers the original reads variables it never set, so what it does is not determined.
- LuaTable.DeserializeItems: complete encodings only, for the same reason.
- LuaTable.DeserializeFields: complete encodings only, for the same reason.
- LuaTable.Deserialize: complete encodings only, for the same reason, when the first byte is the tag of a table.
- ScriptParams.ScriptParam.Push: what is pending is complete or does not begin with the tag of a table, for the same reason.
- ScriptParams.ScriptParam.Deserialize: the carrier has the bytes it announces, as the assertion in the original demands (ScriptParam.cpp:43).
- LuaTable.Serialize: when the buffer is too small the original drops the fields that do not fit and reports success; only that nothing before is touched is stated then.
- LuaMeaning.RoundTrip: which tables count as arrays and the order of traversal are given with the table; metatables and the Lua stack are not modelled. Floats with fractions are opaque, integral floats outside 64 bits excluded.
- Buffers.ByteBuffer.GetText: asks for a NUL somewhere behind the read cursor, without which the original reads beyond its block.
- `ByteBuffer::Attach`, `Detach` and the move operations; sizes from 2^31 on.
- NetMgrs.NetMgr.UpdateAll: the lists of client and of server sessions are one list, and the mutex of the clients' list is not modelled.
- Connector, Listener, `CNetMgr::End`, schedulers, logger, callback templates, database and game objects: system plumbing or easy members.
- `TimerMgr::_release` and the deletion of callbacks with their timers: a timer is gone when it has left the lists.
