/** The server's event handling (src/server/main.rs): the editor state, the queue of
    server events, the file store and the client registry, and the handlers that the
    event loop runs one event at a time. */
module Server {
  import opened Wrappers
  import opened Text
  import opened Message
  import opened EditorState
  import opened Render
  import opened Registry
  import opened Modal

  /** Everything a handler can observe or change. */
  datatype World = World(
    editor: Editor,
    events: seq<ServerEvent>,
    files: map<string, string>,
    members: seq<ClientId>,
    delivered: seq<Delivery>)

  /** A handler's new world and what it returned. */
  datatype Handled = Handled(world: World, outcome: Outcome)

  // ---------------------------------------------------------------------------
  // send_update

  /** `send_update`: render the state and broadcast the messages. A render whose u16
      counters would overflow panics before anything is sent. */
  function UpdateOf(w: World, failing: set<ClientId>): (h: Handled)
    ensures h.world == w.(delivered := h.world.delivered)
    ensures |h.world.delivered| >= |w.delivered| && h.world.delivered[..|w.delivered|] == w.delivered
    ensures h.outcome.Panicked? <==> !Renderable(ViewOf(w.editor))
  {
    var view := ViewOf(w.editor);
    if !Renderable(view) then Handled(w, Panicked(CounterOverflow))
    else
      var fan := FanOut(Rendered(view), w.members, failing);
      Handled(w.(delivered := w.delivered + fan.deliveries), fan.outcome)
  }

  // ---------------------------------------------------------------------------
  // handle_input and handle_server_event

  /** `handle_input`: the key's effect on the editor, the command it issues put on
      the queue, then `send_update`. */
  function InputOf(w: World, failing: set<ClientId>, key: Key): Handled
  {
    match KeyEffect(w.editor, key)
    case NoCommand(e) => Handled(w.(editor := e), Panicked(CommandMissing))
    case Keyed(e, issued) =>
      var queued := if issued.Some? then [IssueCommand(issued.value)] else [];
      UpdateOf(w.(editor := e, events := w.events + queued), failing)
  }

  /** The `ClientMessageReceived` arm: what each client message does. */
  function MessageOf(w: World, failing: set<ClientId>, client: ClientId, message: ClientMessage): Handled
  {
    match message
    case Connect => UpdateOf(w, failing)
    case RequestRefresh => UpdateOf(w, failing)
    case Open(filename) => Handled(w.(events := w.events + [OpenFile(filename)]), Done)
    case Disconnect =>
      var reset := w.(editor := w.editor.(mode := Normal, command := None));
      if client in w.members then
        Handled(reset.(members := SwapRemove(w.members, FirstIndex(w.members, client))), Done)
      else Handled(reset, Panicked(ClientNotFound))
    case SendInput(key) =>
      var h := InputOf(w, failing, key);
      if h.outcome.Done? then UpdateOf(h.world, failing) else h
    case Resize(size) => UpdateOf(w.(editor := w.editor.(size := size)), failing)
  }

  /** `handle_server_event`. A file that is not in the store cannot be opened (for
      reading, or for writing without creating it). */
  function EventOf(w: World, failing: set<ClientId>, event: ServerEvent): Handled
  {
    match event
    case ClientMessageReceived(client, message) => MessageOf(w, failing, client, message)
    case OpenFile(path) =>
      if path in w.files then
        UpdateOf(w.(editor := w.editor.(data := w.files[path], path := Some(path))), failing)
      else Handled(w, Failed(FileNotFound(path)))
    case WriteFile(path) =>
      if path in w.files then Handled(w.(files := w.files[path := w.editor.data]), Done)
      else Handled(w, Failed(FileNotFound(path)))
    case CloseFile => UpdateOf(w.(editor := w.editor.(path := None, data := "")), failing)
    case IssueCommand(command) =>
      match CommandOf(command, w.editor.path)
      case Enqueue(next) => Handled(w.(events := w.events + [next]), Done)
      case NoEffect => Handled(w, Done)
      case Abort(panic) => Handled(w, Panicked(panic))
  }

  // ---------------------------------------------------------------------------
  // The event loop

  datatype StepResult = Idle | Ran(event: ServerEvent, outcome: Outcome)
  datatype Stepped = Stepped(world: World, result: StepResult)

  /** One turn of `server_event_loop_thread`: take the oldest event and handle it. */
  function StepOf(w: World, failing: set<ClientId>): (s: Stepped)
    ensures w.events == [] <==> s.result.Idle?
    ensures w.events != [] ==> s.result.event == w.events[0]
  {
    if w.events == [] then Stepped(w, Idle)
    else
      var h := EventOf(w.(events := w.events[1..]), failing, w.events[0]);
      Stepped(h.world, Ran(w.events[0], h.outcome))
  }

  /** How a run of the event loop ends: the queue is empty (the loop would wait),
      the turns allowed have been taken, or a handler panicked and the loop died. */
  datatype Halt = Drained | OutOfTurns | Crashed(panic: Panic)
  datatype Session = Session(world: World, errors: seq<Failure>, halt: Halt)

  /** At most `turns` turns of the event loop; errors are logged and the loop goes on. */
  function RunOf(w: World, failing: set<ClientId>, turns: nat): (s: Session)
    ensures Consistent(w.editor) ==> Consistent(s.world.editor)
    decreases turns, 1
  {
    if turns == 0 then Session(w, [], OutOfTurns) else TurnOf(w, failing, turns)
  }

  /** One turn of the loop, then the turns left after it. */
  function TurnOf(w: World, failing: set<ClientId>, turns: nat): (s: Session)
    requires turns > 0
    ensures Consistent(w.editor) ==> Consistent(s.world.editor)
    decreases turns, 0
  {
    StepKeepsConsistent(w, failing);
    var s := StepOf(w, failing);
    match s.result
    case Idle => Session(w, [], Drained)
    case Ran(_, outcome) =>
      match outcome
      case Panicked(p) => Session(s.world, [], Crashed(p))
      case Failed(f) =>
        var rest := RunOf(s.world, failing, turns - 1);
        rest.(errors := [f] + rest.errors)
      case Done => RunOf(s.world, failing, turns - 1)
  }

  // ---------------------------------------------------------------------------
  // Properties of the handlers

  /** No handler breaks the mode and command invariant, and so none panics on a
      missing command line. */
  lemma EventKeepsConsistent(w: World, failing: set<ClientId>, event: ServerEvent)
    requires Consistent(w.editor)
    ensures Consistent(EventOf(w, failing, event).world.editor)
    ensures EventOf(w, failing, event).outcome != Panicked(CommandMissing)
  {
    if event.ClientMessageReceived? && event.message.SendInput? {
      var h := InputOf(w, failing, event.message.key);
      assert Consistent(h.world.editor);
    }
  }

  /** A turn of the loop keeps the invariant. */
  lemma StepKeepsConsistent(w: World, failing: set<ClientId>)
    ensures Consistent(w.editor) ==> Consistent(StepOf(w, failing).world.editor)
  {
    if w.events != [] && Consistent(w.editor) {
      EventKeepsConsistent(w.(events := w.events[1..]), failing, w.events[0]);
    }
  }

  /** Handlers only ever append to the queue, at most one event, so events are
      handled in the order they were triggered. */
  lemma EventAppendsToQueue(w: World, failing: set<ClientId>, event: ServerEvent)
    ensures var after := EventOf(w, failing, event).world.events;
      |w.events| <= |after| <= |w.events| + 1 && after[..|w.events|] == w.events
  {
  }

  /** A turn handles the head of the queue; what it triggers goes behind the rest. */
  lemma StepIsFifo(w: World, failing: set<ClientId>)
    requires w.events != []
    ensures var after := StepOf(w, failing).world.events;
      |after| >= |w.events| - 1 && after[..|w.events| - 1] == w.events[1..]
  {
    EventAppendsToQueue(w.(events := w.events[1..]), failing, w.events[0]);
  }

  /** `Resize` changes only the size, then sends the update. */
  lemma ResizeSetsSize(w: World, failing: set<ClientId>, client: ClientId, size: Size)
    ensures var h := EventOf(w, failing, ClientMessageReceived(client, Resize(size)));
      h.world == w.(editor := w.editor.(size := size), delivered := h.world.delivered)
  {
  }

  /** `CloseFile` drops the path and the text. */
  lemma CloseFileClears(w: World, failing: set<ClientId>)
    ensures var h := EventOf(w, failing, CloseFile);
      h.world == w.(editor := w.editor.(path := None, data := ""), delivered := h.world.delivered)
  {
  }

  /** `OpenFile` loads the text and the path after a successful read; a failed read
      changes nothing and returns the error. */
  lemma OpenFileEffect(w: World, failing: set<ClientId>, path: string)
    ensures var h := EventOf(w, failing, OpenFile(path));
      if path in w.files then
        h.world == w.(editor := w.editor.(data := w.files[path], path := Some(path)), delivered := h.world.delivered)
      else h == Handled(w, Failed(FileNotFound(path)))
  {
  }

  /** `WriteFile` stores the text in an existing file and changes nothing else. */
  lemma WriteFileEffect(w: World, failing: set<ClientId>, path: string)
    ensures EventOf(w, failing, WriteFile(path)) ==
      if path in w.files then Handled(w.(files := w.files[path := w.editor.data]), Done)
      else Handled(w, Failed(FileNotFound(path)))
  {
  }

  /** `Disconnect` resets the mode and removes the client's first entry: one entry
      fewer, the others kept; an unknown client panics. */
  lemma DisconnectEffect(w: World, failing: set<ClientId>, client: ClientId)
    ensures var h := EventOf(w, failing, ClientMessageReceived(client, Disconnect));
      h.world.editor == w.editor.(mode := Normal, command := None) &&
      (client in w.members ==>
        h.outcome == Done &&
        |h.world.members| == |w.members| - 1 &&
        multiset(h.world.members) == multiset(w.members) - multiset{client}) &&
      (client !in w.members ==> h.outcome == Panicked(ClientNotFound) && h.world.members == w.members)
  {
    if client in w.members {
      SwapRemovePermutes(w.members, FirstIndex(w.members, client));
    }
  }

  /** An issued command queues its event behind everything already queued. */
  lemma IssueCommandQueues(w: World, failing: set<ClientId>, command: string)
    requires CommandOf(command, w.editor.path).Enqueue?
    ensures EventOf(w, failing, IssueCommand(command)) ==
      Handled(w.(events := w.events + [CommandOf(command, w.editor.path).event]), Done)
  {
  }

  /** With every connection healthy, `send_update` renders the state once and hands
      each of its messages, in order, to a client registered once. */
  lemma UpdateReachesAll(w: World, failing: set<ClientId>, c: ClientId)
    requires Reach(w.members, failing) == |w.members| && Occurrences(w.members, c) == 1
    requires Renderable(ViewOf(w.editor))
    ensures var h := UpdateOf(w, failing);
      h.outcome == Done && h.world.members == w.members && h.world.editor == w.editor &&
      Inbox(h.world.delivered, c) == Inbox(w.delivered, c) + Rendered(ViewOf(w.editor))
  {
    var msgs := Rendered(ViewOf(w.editor));
    FanOutReachesAll(msgs, w.members, failing, c);
    InboxAppend(w.delivered, FanOut(msgs, w.members, failing).deliveries, c);
  }

  /** A key typed at a client is answered by two full updates: one from
      `handle_input`, one from the `SendInput` arm. */
  lemma InputSendsTwoUpdates(w: World, failing: set<ClientId>, key: Key, c: ClientId)
    requires Consistent(w.editor)
    requires Reach(w.members, failing) == |w.members| && Occurrences(w.members, c) == 1
    requires KeyEffect(w.editor, key).Keyed?
    requires Renderable(ViewOf(KeyEffect(w.editor, key).editor))
    ensures var h := EventOf(w, failing, ClientMessageReceived(c, SendInput(key)));
      var view := ViewOf(KeyEffect(w.editor, key).editor);
      h.outcome == Done &&
      Inbox(h.world.delivered, c) == Inbox(w.delivered, c) + Rendered(view) + Rendered(view)
  {
    var k := KeyEffect(w.editor, key);
    var w1 := InputWorld(w, k);
    InputIsUpdate(w, failing, key);
    var h1 := UpdateOf(w1, failing);
    UpdateReachesAll(w1, failing, c);
    UpdateReachesAll(h1.world, failing, c);
    SendInputUpdatesAgain(w, failing, c, key);
  }

  /** The world `handle_input` hands to `send_update`. */
  function InputWorld(w: World, k: KeyResult): World
    requires k.Keyed?
  {
    var queued := if k.issued.Some? then [IssueCommand(k.issued.value)] else [];
    w.(editor := k.editor, events := w.events + queued)
  }

  /** `handle_input` on a key that does not panic is `send_update` on the new world. */
  lemma InputIsUpdate(w: World, failing: set<ClientId>, key: Key)
    requires KeyEffect(w.editor, key).Keyed?
    ensures InputOf(w, failing, key) == UpdateOf(InputWorld(w, KeyEffect(w.editor, key)), failing)
  {
  }

  /** The `SendInput` arm runs `send_update` once more after `handle_input` succeeds. */
  lemma SendInputUpdatesAgain(w: World, failing: set<ClientId>, c: ClientId, key: Key)
    requires InputOf(w, failing, key).outcome.Done?
    ensures EventOf(w, failing, ClientMessageReceived(c, SendInput(key)))
      == UpdateOf(InputOf(w, failing, key).world, failing)
  {
  }

  /** An error does not stop the loop: it is logged and the next event is taken. */
  lemma ErrorIsLogged(w: World, failing: set<ClientId>, turns: nat, f: Failure)
    requires turns > 0 && w.events != []
    requires StepOf(w, failing).result.outcome == Failed(f)
    ensures var rest := RunOf(StepOf(w, failing).world, failing, turns - 1);
      RunOf(w, failing, turns) == rest.(errors := [f] + rest.errors)
  {
  }

  /** A run ends early only on an empty queue or a panic. */
  lemma {:induction false} RunEndsOnlyAtPanicOrEmptyQueue(w: World, failing: set<ClientId>, turns: nat)
    ensures EndsDrained(RunOf(w, failing, turns))
    decreases turns
  {
    if turns > 0 {
      RunEndsOnlyAtPanicOrEmptyQueue(StepOf(w, failing).world, failing, turns - 1);
      DrainedAfterStep(w, failing, turns);
    }
  }

  /** A run that reports an empty queue left the queue empty. */
  predicate EndsDrained(s: Session)
  {
    s.halt.Drained? ==> s.world.events == []
  }

  /** One turn of a run: an empty queue or a panic ends it, an error is logged in
      front of what the remaining turns log, a handled event leaves the rest to them. */
  lemma RunTurn(w: World, failing: set<ClientId>, turns: nat)
    requires turns > 0
    ensures var s := StepOf(w, failing);
      var r := RunOf(w, failing, turns);
      var rest := RunOf(s.world, failing, turns - 1);
      (s.result.Idle? ==> r == Session(w, [], Drained)) &&
      (s.result.Ran? && s.result.outcome.Panicked? ==> r == Session(s.world, [], Crashed(s.result.outcome.panic))) &&
      (s.result.Ran? && s.result.outcome.Failed? ==> r == rest.(errors := [s.result.outcome.failure] + rest.errors)) &&
      (s.result.Ran? && s.result.outcome.Done? ==> r == rest)
  {
  }

  /** Logging one more error before the rest of the log. */
  lemma LogAppend(logged: seq<Failure>, f: Failure, later: seq<Failure>)
    ensures logged + ([f] + later) == (logged + [f]) + later
  {
  }

  /** A run reports an empty queue only if its first turn found one or the rest of
      the run does. */
  lemma DrainedAfterStep(w: World, failing: set<ClientId>, turns: nat)
    requires turns > 0
    ensures EndsDrained(RunOf(StepOf(w, failing).world, failing, turns - 1)) ==> EndsDrained(RunOf(w, failing, turns))
  {
  }

  // ---------------------------------------------------------------------------
  // The server object

  /** The daemon: the editor state and the registry are objects the handlers update
      in place; the event queue and the file store are fields they reassign. */
  class EditorServer {
    const state: TermTextState
    const clients: Clients
    var events: seq<ServerEvent>
    var files: map<string, string>

    /** Everything the handlers observe, as a value. */
    function Snapshot(): World
      reads this, state, clients
    {
      World(state.Value(), events, files, clients.members, clients.delivered)
    }

    predicate Valid()
      reads this, state
    {
      state.Valid()
    }

    constructor (failing: set<ClientId>, store: map<string, string>)
      ensures Valid() && clients.failing == failing
      ensures Snapshot() == World(Initial, [], store, [], [])
    {
      state := new TermTextState();
      clients := new Clients(failing);
      events := [];
      files := store;
    }

    /** `Server::trigger`: the event goes to the back of the queue. */
    method Trigger(event: ServerEvent)
      modifies this
      ensures Snapshot() == old(Snapshot()).(events := old(events) + [event])
    {
      events := events + [event];
    }

    /** `send_update`. */
    method SendUpdate() returns (o: Outcome)
      modifies clients
      ensures Handled(Snapshot(), o) == UpdateOf(old(Snapshot()), clients.failing)
    {
      var view := ViewOf(state.Value());
      if !Renderable(view) {
        return Panicked(CounterOverflow);
      }
      var messages := Render.Render(view);
      o := clients.BroadcastAll(messages);
    }

    /** The arms of the match on mode and key in `handle_input`; `issued` is the
        command line that Enter in Command mode hands to `trigger`. */
    method ApplyKey(key: Key) returns (issued: Option<string>)
      requires Valid()
      modifies state
      ensures Valid()
      ensures KeyEffect(old(state.Value()), key) == Keyed(state.Value(), issued)
    {
      issued := None;
      var mode := state.mode;
      match (mode, key) {
        case (Normal, Char('i')) =>
          state.mode := BufferMode.Insert;
        case (Normal, Char(':')) =>
          state.mode := Command;
          state.command := Some("");
        case (_, Esc) =>
          state.command := Some("");
          state.mode := Normal;
          state.command := None;
        case (Insert, Backspace) =>
          if state.data != "" {
            state.data := state.data[..|state.data| - 1];
          }
        case (Insert, Char(c)) =>
          state.data := state.data + [c];
        case (Command, Char(c)) =>
          if c == '\n' {
            state.mode := Normal;
            var command := state.command.value;
            state.command := None;
            issued := Some(command);
          } else if c == '\t' {
          } else {
            state.command := Some(state.command.value + [c]);
          }
        case (Command, Backspace) =>
          var text := state.command.value;
          if text != "" {
            state.command := Some(text[..|text| - 1]);
          }
        case _ =>
      }
    }

    /** `handle_input`: the key's arm, the `trigger` of an issued command, then
        `send_update`. */
    method HandleInput(key: Key) returns (o: Outcome)
      requires Valid()
      modifies this, state, clients
      ensures Valid()
      ensures Handled(Snapshot(), o) == InputOf(old(Snapshot()), clients.failing, key)
    {
      ghost var w0 := Snapshot();
      var issued := ApplyKey(key);
      ghost var e := state.Value();
      assert Snapshot() == w0.(editor := e);
      if issued.Some? {
        Trigger(IssueCommand(issued.value));
      }
      ghost var queued := if issued.Some? then [IssueCommand(issued.value)] else [];
      assert Snapshot() == w0.(editor := e, events := w0.events + queued);
      o := SendUpdate();
    }

    /** The `ClientMessageReceived` arm of `handle_server_event`. */
    method HandleClientMessage(client: ClientId, message: ClientMessage) returns (o: Outcome)
      requires Valid()
      modifies this, state, clients
      ensures Valid()
      ensures Handled(Snapshot(), o) == MessageOf(old(Snapshot()), clients.failing, client, message)
    {
      match message {
        case Connect =>
          o := SendUpdate();
        case RequestRefresh =>
          o := SendUpdate();
        case Open(filename) =>
          Trigger(OpenFile(filename));
          o := Done;
        case Disconnect =>
          state.mode := Normal;
          state.command := None;
          var found := clients.Disconnect(client);
          o := if found then Done else Panicked(ClientNotFound);
        case SendInput(key) =>
          o := HandleInput(key);
          if o.Done? {
            o := SendUpdate();
          }
        case Resize(size) =>
          state.size := size;
          o := SendUpdate();
      }
    }

    /** The `IssueCommand` arm of `handle_server_event`. */
    method IssueCommandLine(command: string) returns (o: Outcome)
      modifies this
      ensures Handled(Snapshot(), o) == EventOf(old(Snapshot()), clients.failing, IssueCommand(command))
    {
      var parts := Split(command, ' ');
      if parts[0] == "open" {
        if |parts| < 2 {
          return Panicked(MissingFileName);
        }
        Trigger(OpenFile(parts[1]));
      } else if parts[0] == "write" {
        var filename: string;
        if |parts| > 1 {
          filename := parts[1];
        } else if state.path.Some? {
          filename := state.path.value;
        } else {
          return Panicked(NoPathToWrite);
        }
        Trigger(WriteFile(filename));
      } else if parts[0] == "close" {
        Trigger(CloseFile);
      }
      o := Done;
    }

    /** `handle_server_event`. */
    method HandleServerEvent(event: ServerEvent) returns (o: Outcome)
      requires Valid()
      modifies this, state, clients
      ensures Valid()
      ensures Handled(Snapshot(), o) == EventOf(old(Snapshot()), clients.failing, event)
    {
      match event {
        case ClientMessageReceived(client, message) =>
          o := HandleClientMessage(client, message);
        case OpenFile(path) =>
          if path !in files {
            return Failed(FileNotFound(path));
          }
          state.data := files[path];
          state.path := Some(path);
          o := SendUpdate();
        case WriteFile(path) =>
          if path !in files {
            return Failed(FileNotFound(path));
          }
          files := files[path := state.data];
          o := Done;
        case CloseFile =>
          state.path := None;
          state.data := "";
          o := SendUpdate();
        case IssueCommand(command) =>
          o := IssueCommandLine(command);
      }
    }

    /** One turn of `server_event_loop_thread`: the oldest event is taken off the
        queue and handled; an empty queue is where the source would wait. */
    method Step() returns (r: StepResult)
      requires Valid()
      modifies this, state, clients
      ensures Valid()
      ensures Stepped(Snapshot(), r) == StepOf(old(Snapshot()), clients.failing)
    {
      if events == [] {
        return Idle;
      }
      var event := events[0];
      events := events[1..];
      var o := HandleServerEvent(event);
      r := Ran(event, o);
    }

    /** One turn of the loop, described by what it leaves of a run of `left` turns. */
    method Turn(ghost left: nat) returns (r: StepResult)
      requires Valid() && left > 0
      modifies this, state, clients
      ensures Valid()
      ensures var run := RunOf(old(Snapshot()), clients.failing, left);
        var next := RunOf(Snapshot(), clients.failing, left - 1);
        match r
        case Idle => run == Session(Snapshot(), [], Drained)
        case Ran(_, outcome) =>
          match outcome
          case Panicked(p) => run == Session(Snapshot(), [], Crashed(p))
          case Failed(f) => run == next.(errors := [f] + next.errors)
          case Done => run == next
    {
      RunTurn(Snapshot(), clients.failing, left);
      r := Step();
    }

    /** `server_event_loop_thread` for at most `turns` turns: an error is logged
        and the loop goes on; a panic ends it. */
    method Run(turns: nat) returns (errors: seq<Failure>, halt: Halt)
      requires Valid()
      modifies this, state, clients
      ensures Valid()
      ensures Session(Snapshot(), errors, halt) == RunOf(old(Snapshot()), clients.failing, turns)
    {
      errors := [];
      var left: nat := turns;
      ghost var total := RunOf(Snapshot(), clients.failing, turns);
      ghost var rest := total;
      while left > 0
        invariant Valid()
        invariant rest == RunOf(Snapshot(), clients.failing, left)
        invariant total == rest.(errors := errors + rest.errors)
        decreases left
      {
        var r := Turn(left);
        ghost var next := RunOf(Snapshot(), clients.failing, left - 1);
        match r {
          case Idle =>
            return errors, Drained;
          case Ran(_, outcome) =>
            match outcome {
              case Panicked(p) =>
                return errors, Crashed(p);
              case Failed(f) =>
                LogAppend(errors, f, next.errors);
                errors := errors + [f];
              case Done =>
            }
        }
        rest := next;
        left := left - 1;
      }
      halt := OutOfTurns;
    }
  }
}
