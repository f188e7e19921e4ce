/** The daemon's document model (`BufferMode` and `TermTextState` in src/server/main.rs). */
module EditorState {
  import opened Wrappers
  import opened Message

  datatype BufferMode = Normal | Insert | Command

  /** The mode as `#[derive(Debug)]` prints it. */
  function ModeName(m: BufferMode): (name: string)
    ensures |name| > 0
  {
    match m
    case Normal => "Normal"
    case Insert => "Insert"
    case Command => "Command"
  }

  /** The whole of TermTextState as a value. */
  datatype Editor = Editor(path: Option<string>, command: Option<string>, data: string, mode: BufferMode, size: Size)

  /** The invariant that makes the command-mode unwraps of handle_input safe. */
  predicate Consistent(e: Editor)
  {
    e.command.Some? <==> e.mode == Command
  }

  /** The state `TermTextState::default()` builds. */
  const Initial: Editor := Editor(None, None, "", Normal, (0, 0))

  lemma InitialConsistent()
    ensures Consistent(Initial)
  {
  }

  /** One open file's text and path, as the renderer reads it. */
  datatype Buffer = Buffer(data: string, path: Option<string>)

  /** What the renderer reads of the state. */
  datatype View = View(mode: BufferMode, command: Option<string>, buffer: Option<Buffer>, size: Size)

  /** The state as the renderer sees it: it always has a current buffer. */
  function ViewOf(e: Editor): (v: View)
    ensures v.buffer == Some(Buffer(e.data, e.path))
    ensures v.mode == e.mode && v.command == e.command && v.size == e.size
  {
    View(e.mode, e.command, Some(Buffer(e.data, e.path)), e.size)
  }

  /** The state the daemon's event loop mutates in place. */
  class TermTextState {
    var path: Option<string>
    var command: Option<string>
    var data: string
    var mode: BufferMode
    var size: Size

    constructor ()
      ensures Value() == Initial && Valid()
    {
      path, command, data, mode, size := None, None, "", Normal, (0, 0);
    }

    function Value(): Editor
      reads this
    {
      Editor(path, command, data, mode, size)
    }

    predicate Valid()
      reads this
    {
      Consistent(Value())
    }
  }
}
