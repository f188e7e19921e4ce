# tt: a verified model of the editor daemon, its renderer, its framing and its client

tt is a terminal text editor split in two processes. A daemon holds the single
editor state (`TermTextState`: the text, its path, the modal `BufferMode`, the
command line being typed and the terminal size) and a queue of server events. Clients
connect over a Unix stream socket, forward key presses, and draw the screen updates
that the daemon broadcasts after every change.

This project models the sequential core of that system in Dafny and proves what it
promises:

- `message.dfy` (module `Message`): the protocol types and the conversion from
  termion's key type, with the unlisted termion keys folded into one catch-all variant.
- `editor_state.dfy` (`EditorState`): `BufferMode`, the editor state as a value and as
  the `TermTextState` object, and the invariant `command.is_some() <=> mode == Command`.
- `modal.dfy` (`Modal`): `handle_input`'s match on mode and key, and the parsing of
  an issued command line, as functions on the editor state.
- `registry.dfy` (`Registry`): the registry of connected clients. It keeps the
  clients in connection order and the log of messages handed to each one. It covers
  `connect_client`, `disconnect_client`, `broadcast` and the sending loop of
  `send_update`.
- `server.dfy` (`Server`): the handlers and the event loop. First they are
  functions on a `World` value (the editor, the queue, the file store, the
  registry). Then they are an `EditorServer` class whose methods update the state
  object, the registry object and the queue in place. Each method is proved to do
  what the corresponding function says.
- `render.dfy` (`Render`): `render`, as a loop over the buffer's characters proved
  equal to a functional description. The description covers the line-numbered block,
  the status row and the cursor.
- `connection.dfy` (`Connection`): the length-prefixed framing of `Connection::send`
  and `Connection::receive`. It runs over a socket whose syscalls move as many bytes
  as a chunking oracle allows.
- `client.dfy` (`Client`): `goto`, `do_update` (as a list of terminal writes),
  the run loop's dispatch and the change test of `resize_listener`.
- `text.dfy` (`Text`): `str::split` on one character, with its inverse `Join` and its
  piece count. `wrappers.dfy` holds `Option` and `Result`.

Things the model takes as parameters:

- The payload serializer and parser are function parameters of `Connection.Send` and
  `Connection.Receive`.
- The file system is a map from path to text. A path missing from the map is a file
  that cannot be opened.
- Which client connections are broken is a set of client ids fixed when the registry
  is made. A send to one of them fails and delivers nothing.
- The terminal sizes `resize_listener` polls are a sequence of samples.
- The events of the client's run loop are a sequence.

Panics are modelled as values:

- `Registry.Outcome.Panicked` on the daemon side.
- `Client.RunState.Crashed` on the client side.
- `Connection.Reception.CapacityOverflow` for the panic of `vec![0u8; len]` in
  `receive` when the header announces 2^63 bytes or more.
- `Modal.KeyResult.NoCommand` for the `unwrap` of a missing command line. It
  carries the editor as the arm left it before the panic. The invariant proves
  that it cannot happen.

## Model

| member | source | states |
|---|---|---|
| Message.FromTermion | src/message.rs:50-76 | Yields nothing (the panic) exactly for termion keys the match does not list. Every handled key is mapped to the protocol key whose termion counterpart is that key. |
| Message.KeyRoundTrip | src/message.rs:52-70 | Every protocol key is produced, from the identically named termion key. |
| Message.FromTermionInjective | src/message.rs:52-70 | No two handled termion keys convert to the same protocol key. |
| Message.FromTermionKeepsPayload | src/message.rs:65-68 | `Char`, `Alt` and `Ctrl` keep their character, and `F` keeps its number. |
| EditorState.InitialConsistent | src/server/main.rs:27-40 | The default state (Normal mode, no command) satisfies the command/mode invariant. |
| EditorState.TermTextState.constructor | src/server/main.rs:33-40 | A new state object holds the default state and satisfies the invariant. |
| Modal.KeyEffect | src/server/main.rs:337-390 | On a consistent state no arm unwraps a missing command, and the result is consistent again. Path and size never change. The text changes only in Insert mode. A command is issued only by Enter in Command mode: it is exactly the typed line, and the state returns to Normal with no command line. A missing command line panics only in Command mode, and Enter has then already switched the mode back to Normal. |
| Modal.NormalKeys | src/server/main.rs:342-349 | In Normal mode `i` gives Insert and `:` gives Command with an empty command line; nothing else changes. |
| Modal.EscapeKey | src/server/main.rs:350-356 | From any mode, Esc gives Normal with no command line and nothing else changes. |
| Modal.InsertKeys | src/server/main.rs:357-366 | In Insert mode a character is appended to the text. Backspace drops the last character, or does nothing to empty text. Mode and command stay. |
| Modal.CommandKeys | src/server/main.rs:367-386 | In Command mode Enter issues exactly the typed line and returns to Normal. A tab is ignored. Other characters are appended to the line, and Backspace drops the line's last character. |
| Modal.UnlistedKeysIgnored | src/server/main.rs:387-389 | A mode and key pair without an arm leaves the state as it was. |
| Modal.KeysKeepConsistent | src/server/main.rs:337-390 | After any sequence of keys from a consistent state, no unwrap has failed and the state is still consistent. |
| Modal.CommandOf | src/server/main.rs:307-322 | An issued line only ever queues an open, write or close event. It panics only for a missing file name or a bare `write` without a path. |
| Modal.OpenCommand | src/server/main.rs:309-312 | `open X` queues the opening of the first word of X, and a bare `open` panics. |
| Modal.WriteCommand | src/server/main.rs:313-318 | `write X` queues a write to the first word of X. A bare `write` writes to the current path, and panics when there is none. |
| Modal.CloseCommand | src/server/main.rs:319-320 | `close`, with or without further words, queues the close. |
| Modal.UnknownCommand | src/server/main.rs:307-322 | A line whose first word is none of the three does nothing. |
| Text.SplitPieces | src/server/main.rs:309 | No piece of `split(' ')` contains the separator. |
| Text.JoinSplit | src/server/main.rs:309 | Joining the pieces with the separator gives back the line. |
| Text.SplitJoin | src/server/main.rs:309 | Splitting a join of separator-free pieces gives back the pieces. |
| Text.SplitCount | src/server/main.rs:309 | There is one piece more than there are separators. |
| Text.SplitSnoc | src/server/render.rs:27-44 | Reading one more character either opens a new empty piece (the separator) or extends the last piece. |
| Registry.Reach | src/server/main.rs:98-103 | The clients a broadcast reaches are exactly those in front of the first broken connection. |
| Registry.SwapRemove | src/server/main.rs:110 | Entry i becomes the last entry, which is dropped, and every other entry keeps its place. |
| Registry.SwapRemovePermutes | src/server/main.rs:105-116 | Removing entry i leaves the other entries as a multiset: the old registry less that one client. |
| Registry.InboxOfAddressed | src/server/main.rs:98-103 | A broadcast hands a client the message once per registration. |
| Registry.FanOutReachesAll | src/server/main.rs:235-242 | With no broken connection, every message of the update reaches every client, in order, and the update succeeds. |
| Registry.FanOutStopsAtFirstFailure | src/server/main.rs:235-242 | With a broken connection, only the first message is sent, only to the clients in front of it, and the error names that client. |
| Registry.FanOutKeepsFailure | src/server/main.rs:238-240 | After a broadcast has failed, the remaining messages send nothing. |
| Registry.Clients.Connect | src/server/main.rs:81-91 | The new client joins the back of the registry and nothing is sent. |
| Registry.Clients.Broadcast | src/server/main.rs:98-103 | The message is handed to the clients in registry order, up to the first broken one. The result is that client's error, or success. |
| Registry.Clients.BroadcastAll | src/server/main.rs:238-241 | The loop sends what FanOut says and returns its outcome. |
| Registry.Clients.Disconnect | src/server/main.rs:105-116 | The client is found exactly when it is registered. Its first entry is then swap-removed; otherwise the registry is unchanged, and the caller panics. |
| Server.UpdateOf | src/server/main.rs:235-242 | `send_update` changes only the delivery log, and only by appending. It panics exactly when a render counter would overflow. |
| Server.EventKeepsConsistent | src/server/main.rs:244-325 | No handler breaks the command/mode invariant, nor panics on a missing command line. This includes the Disconnect reset. |
| Server.StepKeepsConsistent | src/server/main.rs:327-334 | A turn of the event loop keeps the invariant. |
| Server.EventAppendsToQueue | src/server/main.rs:93-96 | A handler's only use of the queue is to append at most one event behind those already queued. |
| Server.StepIsFifo | src/server/main.rs:327-334 | A turn handles the oldest event. What it triggers goes behind the events still waiting. |
| Server.ResizeSetsSize | src/server/main.rs:270-275 | `Resize` changes only the size, apart from the update it sends. |
| Server.CloseFileClears | src/server/main.rs:299-306 | `CloseFile` sets no path and empty text and changes nothing else, apart from the update. |
| Server.OpenFileEffect | src/server/main.rs:278-288 | An existing file's text and path are loaded. A failed open changes nothing and returns the error. |
| Server.WriteFileEffect | src/server/main.rs:289-298 | The text is stored in an existing file and nothing else changes; a missing file is an error. |
| Server.DisconnectEffect | src/server/main.rs:258-265 | The mode is reset to Normal with no command line. A registered client loses exactly one entry, with the rest kept as a multiset. An unknown client panics. |
| Server.IssueCommandQueues | src/server/main.rs:307-322 | An issued command queues its event behind everything already queued and changes nothing else. |
| Server.UpdateReachesAll | src/server/main.rs:235-242 | With every connection healthy, a client registered once receives exactly the rendered messages of the current state, in order. |
| Server.InputIsUpdate | src/server/main.rs:337-393 | `handle_input`, when it does not panic, applies the key's arm, queues the issued command, then runs `send_update`. |
| Server.SendInputUpdatesAgain | src/server/main.rs:266-269 | After `handle_input` succeeds, the `SendInput` arm runs `send_update` once more. |
| Server.InputSendsTwoUpdates | src/server/main.rs:266-269 | A key sent by a client ends with the client having received the rendering of the new state twice. |
| Server.RunOf | src/server/main.rs:327-334 | A run of the event loop keeps the invariant. |
| Server.RunTurn | src/server/main.rs:327-334 | A run ends at an empty queue or at a panic. It logs a handler's error in front of what the later turns log, and otherwise goes on. |
| Server.ErrorIsLogged | src/server/main.rs:330-332 | An error returned by a handler is logged and the loop goes on with the next event. |
| Server.RunEndsOnlyAtPanicOrEmptyQueue | src/server/main.rs:327-334 | A run that reports an empty queue has in fact left the queue empty. |
| Server.EditorServer.constructor | src/server/main.rs:57-65 | A new server holds the default state, an empty queue, no clients and the given file store. |
| Server.EditorServer.Trigger | src/server/main.rs:93-96 | The event goes to the back of the queue and nothing else changes. |
| Server.EditorServer.SendUpdate | src/server/main.rs:235-242 | The update renders the state and broadcasts each message, as UpdateOf says. |
| Server.EditorServer.ApplyKey | src/server/main.rs:341-390 | The field assignments of the arms keep the invariant and give the state KeyEffect describes. |
| Server.EditorServer.HandleInput | src/server/main.rs:337-393 | The handler, including its trigger and its update, does what InputOf says. |
| Server.EditorServer.HandleClientMessage | src/server/main.rs:246-277 | Each client message does what MessageOf says. |
| Server.EditorServer.IssueCommandLine | src/server/main.rs:307-322 | The command arm does what EventOf says for `IssueCommand`. |
| Server.EditorServer.HandleServerEvent | src/server/main.rs:244-325 | Each event does what EventOf says and keeps the invariant. |
| Server.EditorServer.Step | src/server/main.rs:327-334 | One turn takes the oldest event off the queue and handles it, as StepOf says. |
| Server.EditorServer.Turn | src/server/main.rs:327-334 | One turn leaves exactly what RunTurn says of the run. |
| Server.EditorServer.Run | src/server/main.rs:327-334 | The loop logs the errors, stops at a panic or an empty queue, and ends as RunOf says. |
| Render.DigitsRoundTrip | src/server/render.rs:31 | The decimal digits of a line number denote that number. |
| Render.DigitsFit | src/server/render.rs:31 | A line number below 10^6 has at most six digits. |
| Render.Digits | src/server/render.rs:31 | A line number is written in decimal digits, with no leading zero. |
| Render.PadLeft | src/server/render.rs:31 | A number is right-aligned in the given columns, filled with spaces on the left, or printed whole when it is wider. |
| Render.GutterShape | src/server/render.rs:21-34 | A gutter is nine characters: the line number right-aligned in six columns with spaces before it, then " \| ". |
| Render.GutterNoTab | src/server/render.rs:21-34 | A gutter holds no tab. |
| Render.ExpandTabs | src/server/render.rs:37-39 | A drawn line is three columns longer per tab and holds no tab. |
| Render.ExpandTabsAppend | src/server/render.rs:27-43 | Tab expansion works character by character. |
| Render.ExpandTabsSnoc | src/server/render.rs:37-43 | One more character adds four spaces for a tab, or the character itself. |
| Render.BufferLines | src/server/render.rs:27-46 | The block has one line more than the text has newlines. |
| Render.BufferLinesShape | src/server/render.rs:21-46 | Line k of the block is line number k + 1's gutter, then the k-th newline-separated piece with its tabs expanded, and holds no tab. |
| Render.StatusPos | src/server/render.rs:51-55 | The status row is the last screen row, or row 0 on a screen with no rows. |
| Render.QuotedPath | src/server/render.rs:65 | A path is quoted, and printed verbatim inside the quotes when it holds no quote, apostrophe, backslash, newline, carriage return, tab or NUL. |
| Render.EscapePlain | src/server/render.rs:65 | Text without any of those characters is unchanged by escaping. |
| Render.ApostropheEscaped | src/server/render.rs:65 | The path `it's` is shown as `"it\'s"`: a path's `Debug` escapes the apostrophe too. |
| Render.StatusLine | src/server/render.rs:57-67 | The status text starts with "tt: " and the mode's name. With no command line and no path, it is just that. |
| Render.CursorAt | src/server/render.rs:70-73 | The cursor row is the number of newlines. With no buffer the cursor is at (9, 0). |
| Render.Rendered | src/server/render.rs:6-76 | The messages are the buffer block at (0, 0) with the full size (when there is a buffer), then the status row of size (width, 1), then the cursor. |
| Render.TabCursorExample | src/server/render.rs:37-39 | For "ab\tc" the cursor stands after the gutter, two letters, four tab columns and one letter. |
| Render.NewlineStep | src/server/render.rs:28-36 | A newline closes the current line and opens the next one behind its gutter, with the column back at 0 and the row one further. |
| Render.CharStep | src/server/render.rs:37-43 | A tab adds four spaces and four columns, and another character adds itself and one column. |
| Render.PiecesReadIsSplit | src/server/render.rs:27-46 | Reading the text character by character gives exactly the pieces of `split('\n')`. |
| Render.ReadChar | src/server/render.rs:28-43 | One pass of the loop body keeps the lines, the current line and the cursor in step with the text read. |
| Render.ReadAll | src/server/render.rs:27-44 | The character loop leaves every finished line numbered and the current line open, with the column of its end and the count of newlines. |
| Render.RenderBuffer | src/server/render.rs:18-46 | The loop builds exactly the numbered block. It ends with the column at the end of the last line and the row at the number of newlines. |
| Render.StatusRow | src/server/render.rs:51-68 | The status message is the status text, at the status position, of size (width, 1). |
| Render.Render | src/server/render.rs:6-76 | `render` returns exactly the messages Rendered describes, reading the state only. |
| Connection.Header | src/connection.rs:68-71 | The header is eight bytes that decode to the payload length. |
| Connection.LeDecodeEncode | src/connection.rs:102-103 | Little-endian decoding inverts the encoding of any value that fits. |
| Connection.LeEncodeDecode | src/connection.rs:102-103 | Encoding a decoded header gives back the header bytes. |
| Connection.ReadLoop | src/connection.rs:95-101 | A read loop never consumes more than is pending, and a filled buffer consumed exactly what it lacked. |
| Connection.HeaderLoopSendsRest | src/connection.rs:72-75 | Whatever the chunking, a header loop that succeeds has put exactly the unsent part of the header on the wire. |
| Connection.HeaderLoopFailsOnlyOnFail | src/connection.rs:72-75 | The header loop fails only when a syscall fails. |
| Connection.FullWritesGiveFrame | src/connection.rs:63-86 | When each call writes the whole payload, the wire carries exactly header ++ payload. |
| Connection.PartialPayloadIsResent | src/connection.rs:77-83 | For every payload: when its first send is cut short after n bytes, the next send is handed the whole payload again. The wire then carries the header, the first n bytes, and the whole payload, which is not the frame. |
| Connection.PartialPayloadExample | src/connection.rs:77-83 | For the payload 7, 9 and a first send of one byte, the wire carries the header, then 7, then 7, 9. |
| Connection.ReadLoopFills | src/connection.rs:95-101 | With enough bytes pending and syscalls that always deliver, a read loop fills its buffer. |
| Connection.ReceiveFrame | src/connection.rs:88-113 | `receive` panics with a capacity overflow exactly when it has read a whole header announcing 2^63 bytes or more, and it has then consumed only the header. |
| Connection.OversizedHeaderPanics | src/connection.rs:103-104 | A header whose last byte is 0x80 or more makes `receive` panic before any payload recv, whatever the parser. |
| Connection.LeDecodeTop | src/connection.rs:103 | The last byte of a little-endian number weighs 256 to the power of its position. |
| Connection.FrameRoundTrip | src/connection.rs:88-117 | A whole frame is received as its payload, consuming exactly the frame and leaving what follows it. A payload of 2^63 bytes or more makes the receiver panic after the header. |
| Connection.ReceivedIsFrame | src/connection.rs:88-117 | A payload handed back was read as one frame: header bytes announcing its length, then the payload. |
| Connection.SendReceiveRoundTrip | src/connection.rs:63-117 | A message sent then received comes back unchanged when the parser inverts the serializer, unless it serializes to 2^63 bytes or more; then the receiver panics. |
| Connection.FortyTwo | src/lib.rs:16-24 | The value 42 travels as the frame 2,0,0,0,0,0,0,0,'4','2' and comes back as 42. |
| Connection.Socket.Send | src/connection.rs:74 | A send syscall puts at most its buffer on the wire, as the oracle decides. |
| Connection.Socket.Recv | src/connection.rs:96 | A recv syscall copies the first pending bytes into the free part of the buffer, as the oracle decides. |
| Connection.Connection.Send | src/connection.rs:63-86 | `send` writes the header and then the payload, as SendFrame says, returning the first error. |
| Connection.Connection.SendHeader | src/connection.rs:70-75 | The header loop resumes from the first unsent byte, as HeaderLoop says. |
| Connection.Connection.SendPayload | src/connection.rs:77-83 | The payload loop hands over the whole payload on every call, as PayloadLoop says. |
| Connection.Connection.Receive | src/connection.rs:88-117 | `receive` reads the header, then as many bytes as it announces, then parses them. It returns nothing when the peer has closed, and propagates every error. It panics on a header announcing more than a buffer can hold, as `ReceiveFrame` says. |
| Connection.Connection.ReadInto | src/connection.rs:95-113 | A read loop fills the buffer with the first pending bytes or stops at the first failing or empty recv, as ReadLoop says. |
| Connection.Connection.RecvMore | src/connection.rs:96-100 | One turn of a read loop: a failing or empty recv ends it as ReadLoop says; otherwise the filled prefix of the buffer grows by the bytes received and the rest of the loop still ends as ReadLoop says. |
| Client.GotoCmd | src/client/main.rs:69-72 | A 0-based position becomes the 1-based cursor move (x + 1, y + 1). |
| Client.GotoInjective | src/client/main.rs:69-72 | Distinct positions give distinct cursor moves. |
| Client.RowTextsAt | src/client/main.rs:172-184 | Row i of an update draws line i, or the empty line past the end of the lines. |
| Client.DrawnMoves | src/client/main.rs:172-176 | An update moves the cursor exactly height times, to (x, y + i) for each row i in order. |
| Client.LinesBeyondHeightIgnored | src/client/main.rs:172-173 | Lines at index height or beyond are never drawn. |
| Client.MissingLineIsBlank | src/client/main.rs:170-173 | A row without a line is drawn as width spaces. |
| Client.RowShowsPrefix | src/client/main.rs:178-180 | A row writes at most width characters, and they are the line's first ones. |
| Client.AsciiRowFillsWidth | src/client/main.rs:181-183 | A row of ASCII text ends exactly width characters wide. |
| Client.MultibyteRowIsShort | src/client/main.rs:181-183 | Padding counts bytes, so a line holding one two-byte character leaves a row of width 3 one column short. |
| Client.DoUpdate | src/client/main.rs:165-187 | `do_update` writes, for each of the height rows, the cursor move and the row, then flushes, as Drawn says. |
| Client.DrawRow | src/client/main.rs:173-183 | One row is the cursor move to its start, then the clipped and padded line. |
| Client.WriteRow | src/client/main.rs:178-183 | The two inner loops write the visible part of the line, then one space per byte short of the width. |
| Client.KeyDispatch | src/client/main.rs:124-133 | Ctrl-c, and only it, quits. A key is unconvertible exactly when the conversion panics. Otherwise the key is forwarded as `SendInput` of its conversion. |
| Client.Startup | src/client/main.rs:110-117 | Before the loop the client has sent exactly `Connect`, then `Open` of the file name when it was given one. |
| Client.CtrlCEndsSession | src/client/main.rs:125-128 | Ctrl-c sends `Disconnect` as the last request and ends the loop. Nothing after it is sent or drawn. |
| Client.ForwardsKey | src/client/main.rs:129-132 | Every other convertible key is sent as `SendInput`, and the loop goes on. |
| Client.Session | src/client/main.rs:120-152 | Once the loop has quit or crashed, later events change nothing. |
| Client.RunLoop | src/client/main.rs:120-152 | The loop handles the events in order until Ctrl-c or a panic, as Session says. |
| Client.QuitStops | src/client/main.rs:128 | Events after the loop has stopped change nothing. |
| Client.ReportedChangesOnly | src/client/main.rs:49-57 | No reported size repeats the one before it or the starting size, and every report is a polled size. |
| Client.CurrentIsLastSample | src/client/main.rs:49-57 | The listener compares against the last polled size, and it has reported that size unless it was the starting one. |
| Client.ResizeListener | src/client/main.rs:48-60 | The listener sends exactly the sizes that differ from the last one sent, starting from (1, 1), and ends holding the size Current names. |

## Behaviour of the code that the model follows

In several places the code behaves in ways that are easy to miss. The model follows
the code:

- `ClientMessage`: src/message.rs:10 declares `Connect(Vec<String>)` and no `Open`.
  The daemon and the client both use a unit `Connect` and `Open(String)`
  (src/server/main.rs:249,255; src/client/main.rs:110,116). The model uses the
  latter.
- `broadcast` returns at the first failed send. So one broken connection stops the
  rest of the registry, and the rest of the update, from receiving anything more.
- `OpenFile` neither creates nor canonicalizes the file. `write X` does not make X
  the current path.
- A command line is split at every single space. So `open  a` (two spaces) opens
  the empty name.
- `SendInput` sends the update twice: once from `handle_input`, once from its own
  arm.
- The payload loop of `send` hands the whole buffer to every `send` call. A
  partial write of n bytes is therefore followed by the payload again from its
  start, so the first n bytes go out twice. As `Connection.PartialPayloadIsResent`
  shows for every payload, the peer then sees a corrupted stream.
- `do_update` pads with `width - line.len()` spaces, where `len` counts UTF-8
  bytes, while it clips by characters.
- `render` takes an optional current buffer (src/server/render.rs:18,63). The
  daemon's own state always has one, so the model's daemon always passes `Some`.

## Left out

- Threads, channels and the `SERVER`/`CLIENTS` mutexes: the event queue is a sequence consumed one event at a time by one step function, and the per-client receive threads are not modelled (their polling and `sleep`, and the interleaving of events from several clients).
- Process lifecycle: `main`, `setup_logging`, `trap_signals`, the PID and socket files. src/daemon.rs, src/main.rs, src/server/mod.rs and src/server/state.rs are not part of this model (the last two are stale copies no module declaration reaches).
- Socket setup: `Listener::listen`, `Listener::next`, `Connection::connect`; a connection is a byte stream with chunking oracles, known by an id.
- JSON: the serializer and parser are parameters; `Connection.SendReceiveRoundTrip` assumes the parser inverts the serializer on the message sent.
- File I/O: files are a map from path to text; read and write errors other than a missing file, and path canonicalization (src/client/main.rs:114), are not modelled.
- Logging (`info!`, `debug!`, `error!`): it has no effect on the state. An error the event loop logs appears as an entry of the run's error list.
- Terminal handling on the client: raw mode, `clear_screen`, stdin key reading, and real terminal size queries; the terminal is a list of cursor moves, characters and flushes.
- The client's own `send(...).unwrap()` calls: the model records what the client sends and treats sending as infallible.
- `EditorState.ModeName`, `Render.QuotedPath`: stand for the `{:?}` formatting of `BufferMode` and of a path. Escaping covers quote, apostrophe, backslash, newline, carriage return, tab and NUL. Rust's `\u{..}` escaping of other control and non-printable characters, and of grapheme-extending characters such as U+0301, is not modelled, because it depends on Unicode property tables.
- `EscapePlain`: counts grapheme-extending and non-printable characters as needing no escape, where `char::escape_debug` writes them as `\u{..}`. So `QuotedPath` shows a path holding one of them verbatim, unlike the source.
- `Connection.Connection.Receive`: the abort of `vec![0u8; len]` when the allocator cannot provide len bytes below 2^63 is not modelled, because it depends on the memory available. The model reads on as if the buffer existed. Its capacity-overflow panic at 2^63 bytes or more is modelled.
- `Server.UpdateOf`: a u16 counter of `render` that would overflow (debug-build panic) is modelled as the `CounterOverflow` panic before anything is sent, not as wrap-around. `Render.Render` requires the counters to fit.
- `Client.DoUpdate`, `Client.GotoCmd`: the u16 additions of `do_update` and `goto` are required not to overflow. An update that would overflow makes the run loop crash (`Client.RunLoop`).
- `Server.EditorServer.HandleServerEvent`: a handler that panics part-way has already made some of its changes. The model returns the panic with the state at that point, and the run then stops.
- `Server.EditorServer.Run`: the source loop waits forever on an empty queue; the model stops there (`Drained`) or after the number of turns it is given.
- `Server.EditorServer.Trigger`: sending on the channel cannot fail while the event loop holds its receiver, so the `?` after a trigger is never taken.
- `Connection.Connection.Send`: the payload length must fit the u64 header (the `try_into().unwrap()` at src/connection.rs:68). Serialization is a total function: the derived `Serialize` of the message types has no failing case, so the error of `serde_json::to_string` at src/connection.rs:67 is never returned.
