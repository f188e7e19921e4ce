/** The modal key handling of the server (`handle_input` in src/server/main.rs) and
    the parsing of a command line (the `IssueCommand` arm of `handle_server_event`),
    as functions on the editor state. */
module Modal {
  import opened Wrappers
  import opened Text
  import opened Message
  import opened EditorState
  import opened Registry

  /** The server events a handler can put on the queue. */
  datatype ServerEvent =
    | ClientMessageReceived(client: ClientId, message: ClientMessage)
    | OpenFile(path: string)
    | WriteFile(path: string)
    | CloseFile
    | IssueCommand(command: string)

  /** What a key does to the editor: the new state and, after Enter in Command mode,
      the command line to issue; or the panic of unwrapping a missing command, with
      the editor as the arm left it before the panic. */
  datatype KeyResult = Keyed(editor: Editor, issued: Option<string>) | NoCommand(editor: Editor)

  /** The arms of `handle_input`, tried in order; an unlisted pair changes nothing. */
  function KeyEffect(e: Editor, key: Key): (r: KeyResult)
    ensures Consistent(e) ==> r.Keyed? && Consistent(r.editor)
    ensures r.editor.path == e.path && r.editor.size == e.size
    ensures r.editor.data != e.data ==> e.mode == BufferMode.Insert
    ensures r.NoCommand? ==>
      e.mode == Command && e.command.None? &&
      r.editor == if key == Char('\n') then e.(mode := Normal) else e
    ensures r.Keyed? && r.issued.Some? ==>
      e.mode == Command && key == Char('\n') && Some(r.issued.value) == e.command &&
      r.editor == e.(mode := Normal, command := None)
  {
    if e.mode == Normal && key == Char('i') then Keyed(e.(mode := BufferMode.Insert), None)
    else if e.mode == Normal && key == Char(':') then Keyed(e.(mode := Command, command := Some("")), None)
    else if key == Esc then Keyed(e.(mode := Normal, command := None), None)
    else if e.mode == BufferMode.Insert && key.Backspace? then
      Keyed(e.(data := if e.data == "" then "" else e.data[..|e.data| - 1]), None)
    else if e.mode == BufferMode.Insert && key.Char? then Keyed(e.(data := e.data + [key.c]), None)
    else if e.mode == Command && key.Char? then
      if key.c == '\n' then
        if e.command.None? then NoCommand(e.(mode := Normal))
        else Keyed(e.(mode := Normal, command := None), Some(e.command.value))
      else if key.c == '\t' then Keyed(e, None)
      else if e.command.None? then NoCommand(e)
      else Keyed(e.(command := Some(e.command.value + [key.c])), None)
    else if e.mode == Command && key.Backspace? then
      if e.command.None? then NoCommand(e)
      else
        var text := e.command.value;
        Keyed(e.(command := Some(if text == "" then "" else text[..|text| - 1])), None)
    else Keyed(e, None)
  }

  /** The pairs of mode and key that `handle_input` has an arm for. */
  predicate Listed(mode: BufferMode, key: Key)
  {
    (mode == Normal && (key == Char('i') || key == Char(':'))) ||
    key == Esc ||
    (mode == BufferMode.Insert && (key.Backspace? || key.Char?)) ||
    (mode == Command && (key.Char? || key.Backspace?))
  }

  /** Normal mode: `i` enters Insert mode, `:` enters Command mode with an empty
      command line; nothing else about the state changes. */
  lemma NormalKeys(e: Editor)
    requires e.mode == Normal
    ensures KeyEffect(e, Char('i')) == Keyed(e.(mode := BufferMode.Insert), None)
    ensures KeyEffect(e, Char(':')) == Keyed(e.(mode := Command, command := Some("")), None)
  {
  }

  /** Esc returns to Normal mode and drops the command line, from any mode. */
  lemma EscapeKey(e: Editor)
    ensures KeyEffect(e, Esc) == Keyed(e.(mode := Normal, command := None), None)
  {
  }

  /** Insert mode: a character is appended to the text, Backspace drops the last
      character (and does nothing to empty text); mode and command stay. */
  lemma InsertKeys(e: Editor, c: char)
    requires e.mode == BufferMode.Insert
    ensures KeyEffect(e, Char(c)) == Keyed(e.(data := e.data + [c]), None)
    ensures e.data != "" ==> KeyEffect(e, Backspace) == Keyed(e.(data := e.data[..|e.data| - 1]), None)
    ensures e.data == "" ==> KeyEffect(e, Backspace) == Keyed(e, None)
  {
  }

  /** Command mode: Enter leaves for Normal mode and issues exactly the text typed,
      a tab is ignored, another character is appended to the command line and
      Backspace drops its last character. */
  lemma CommandKeys(e: Editor, c: char)
    requires e.mode == Command && e.command.Some?
    ensures KeyEffect(e, Char('\n')) == Keyed(e.(mode := Normal, command := None), e.command)
    ensures KeyEffect(e, Char('\t')) == Keyed(e, None)
    ensures c != '\n' && c != '\t' ==>
      KeyEffect(e, Char(c)) == Keyed(e.(command := Some(e.command.value + [c])), None)
    ensures var text := e.command.value;
      KeyEffect(e, Backspace) ==
        Keyed(e.(command := Some(if text == "" then "" else text[..|text| - 1])), None)
  {
  }

  /** A pair of mode and key without an arm changes nothing. */
  lemma UnlistedKeysIgnored(e: Editor, key: Key)
    requires !Listed(e.mode, key)
    ensures KeyEffect(e, key) == Keyed(e, None)
  {
  }

  /** The mode and command invariant holds throughout a sequence of keys, and so
      every unwrap of the command line succeeds. */
  lemma {:induction false} KeysKeepConsistent(e: Editor, keys: seq<Key>)
    requires Consistent(e)
    ensures Typed(e, keys).Keyed? && Consistent(Typed(e, keys).editor)
    decreases |keys|
  {
    if keys != [] {
      KeysKeepConsistent(e, keys[..|keys| - 1]);
    }
  }

  /** The editor after a sequence of keys, ignoring the commands they issue. */
  function Typed(e: Editor, keys: seq<Key>): KeyResult
  {
    if keys == [] then Keyed(e, None)
    else
      var before := Typed(e, keys[..|keys| - 1]);
      if before.NoCommand? then before else KeyEffect(before.editor, Last(keys))
  }

  // ---------------------------------------------------------------------------
  // Command lines

  /** What an issued command line does: queue an event, nothing, or panic. */
  datatype CommandEffect = Enqueue(event: ServerEvent) | NoEffect | Abort(panic: Panic)

  /** The `IssueCommand` arm: the line is split at every single space; `open` takes
      the second piece as a file name, `write` takes it or else the current path,
      `close` takes nothing, and any other first piece does nothing. */
  function CommandOf(command: string, path: Option<string>): (r: CommandEffect)
    ensures r.Enqueue? ==> r.event.OpenFile? || r.event.WriteFile? || r.event.CloseFile?
    ensures r.Abort? ==> r.panic == MissingFileName || r.panic == NoPathToWrite
  {
    var parts := Split(command, ' ');
    if parts[0] == "open" then
      if |parts| > 1 then Enqueue(OpenFile(parts[1])) else Abort(MissingFileName)
    else if parts[0] == "write" then
      if |parts| > 1 then Enqueue(WriteFile(parts[1]))
      else if path.Some? then Enqueue(WriteFile(path.value))
      else Abort(NoPathToWrite)
    else if parts[0] == "close" then Enqueue(CloseFile)
    else NoEffect
  }

  /** `open X` opens the first word of X; `open` alone panics. */
  lemma OpenCommand(rest: string, path: Option<string>)
    ensures CommandOf("open" + [' '] + rest, path) == Enqueue(OpenFile(Split(rest, ' ')[0]))
    ensures CommandOf("open", path) == Abort(MissingFileName)
  {
    SplitAfterWord("open", rest, ' ');
    SplitNoSep("open", ' ');
  }

  /** `write X` writes to the first word of X; `write` alone writes to the current
      path, and panics when there is none. */
  lemma WriteCommand(rest: string, path: Option<string>)
    ensures CommandOf("write" + [' '] + rest, path) == Enqueue(WriteFile(Split(rest, ' ')[0]))
    ensures CommandOf("write", path) ==
      if path.Some? then Enqueue(WriteFile(path.value)) else Abort(NoPathToWrite)
  {
    SplitAfterWord("write", rest, ' ');
    SplitNoSep("write", ' ');
  }

  /** `close`, with or without further words, closes the buffer. */
  lemma CloseCommand(rest: string, path: Option<string>)
    ensures CommandOf("close" + [' '] + rest, path) == Enqueue(CloseFile)
    ensures CommandOf("close", path) == Enqueue(CloseFile)
  {
    SplitAfterWord("close", rest, ' ');
    SplitNoSep("close", ' ');
  }

  /** A command whose first word is not `open`, `write` or `close` does nothing. */
  lemma UnknownCommand(word: string, rest: string, path: Option<string>)
    requires ' ' !in word && word != "open" && word != "write" && word != "close"
    ensures CommandOf(word + [' '] + rest, path) == NoEffect
    ensures CommandOf(word, path) == NoEffect
  {
    SplitAfterWord(word, rest, ' ');
    SplitNoSep(word, ' ');
  }
}
