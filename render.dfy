/** The renderer (src/server/render.rs): editor state to the messages every client
    is sent. The buffer becomes one line-numbered block covering the screen, then a
    status row, then the cursor position. */
module Render {
  import opened Wrappers
  import opened Text
  import opened Message
  import opened EditorState

  /** Width of the line-number gutter `"{:6} | "`. */
  const GUTTER_WIDTH: nat := 9
  /** A tab is drawn as this many spaces. */
  const TAB_WIDTH: nat := 4

  // ---------------------------------------------------------------------------
  // Decimal line numbers, `{:6}`

  function DigitChar(d: nat): (c: char)
    requires d < 10
    ensures '0' <= c <= '9' && c as int - '0' as int == d
  {
    ('0' as int + d) as char
  }

  /** The decimal digits of `n`, most significant first. */
  function Digits(n: nat): (s: string)
    ensures 1 <= |s|
    ensures forall i :: 0 <= i < |s| ==> '0' <= s[i] <= '9'
    ensures n < 10 ==> |s| == 1
    ensures n >= 10 ==> s[0] != '0'
  {
    if n < 10 then [DigitChar(n)] else Digits(n / 10) + [DigitChar(n % 10)]
  }

  /** The number a string of decimal digits denotes: the partner of Digits. */
  function DecimalValue(s: string): nat
    requires forall i :: 0 <= i < |s| ==> '0' <= s[i] <= '9'
  {
    if s == [] then 0
    else DecimalValue(s[..|s| - 1]) * 10 + (s[|s| - 1] as int - '0' as int)
  }

  lemma {:induction false} DigitsRoundTrip(n: nat)
    ensures DecimalValue(Digits(n)) == n
  {
    if n >= 10 {
      var s := Digits(n);
      assert s[..|s| - 1] == Digits(n / 10);
      DigitsRoundTrip(n / 10);
    }
  }

  /** Line numbers below 10^6 fill at most the six columns of the gutter. */
  lemma {:induction false} DigitsFit(n: nat, width: nat, bound: nat)
    requires n < bound
    requires bound == Pow10(width) && width >= 1
    ensures |Digits(n)| <= width
  {
    if n >= 10 {
      DigitsFit(n / 10, width - 1, Pow10(width - 1));
    }
  }

  function Pow10(k: nat): (p: nat)
    ensures p >= 1
  {
    if k == 0 then 1 else 10 * Pow10(k - 1)
  }

  function Spaces(n: nat): (s: string)
    ensures |s| == n && forall i :: 0 <= i < n ==> s[i] == ' '
  {
    seq(n, _ => ' ')
  }

  /** A tab expands to the four spaces `render` pushes for it. */
  lemma TabIsFourSpaces()
    ensures Spaces(TAB_WIDTH) == "    "
  {
  }

  /** `format!("{:w}", s)` of a number rendered as `s`: right-aligned in `w` columns. */
  function PadLeft(s: string, w: nat): (r: string)
    ensures |s| <= w ==> |r| == w
    ensures |s| >= w ==> r == s
    ensures r[|r| - |s|..] == s
    ensures r[..|r| - |s|] == Spaces(|r| - |s|)
  {
    if |s| < w then Spaces(w - |s|) + s else s
  }

  /** The gutter of line number `n` (1-based). */
  function Gutter(n: nat): string
  {
    PadLeft(Digits(n), 6) + " | "
  }

  /** Below a million, the gutter is the number right-aligned in six columns, then
      " | ". */
  lemma GutterShape(n: nat)
    requires n < 1000000
    ensures |Gutter(n)| == GUTTER_WIDTH && Gutter(n)[6..] == " | "
    ensures |Digits(n)| <= 6 && Gutter(n)[6 - |Digits(n)|..6] == Digits(n)
    ensures forall i :: 0 <= i < 6 - |Digits(n)| ==> Gutter(n)[i] == ' '
  {
    var g := Gutter(n);
    DigitsFit(n, 6, 1000000);
    DigitsRoundTrip(n);
    assert g[..6] == PadLeft(Digits(n), 6);
  }

  /** A gutter is spaces, digits and " | ": never a tab. */
  lemma GutterNoTab(n: nat)
    ensures '\t' !in Gutter(n)
  {
    var d := Digits(n);
    assert '\t' !in d;
    if |d| < 6 {
      assert PadLeft(d, 6) == Spaces(6 - |d|) + d;
      assert '\t' !in Spaces(6 - |d|);
    }
  }

  // ---------------------------------------------------------------------------
  // Tab expansion and the buffer block

  /** The text of a line as drawn: each tab becomes four spaces. */
  function ExpandTabs(s: string): (r: string)
    ensures |r| == |s| + (TAB_WIDTH - 1) * Count(s, '\t')
    ensures '\t' !in r
  {
    if s == [] then []
    else (if s[0] == '\t' then Spaces(TAB_WIDTH) else [s[0]]) + ExpandTabs(s[1..])
  }

  /** Tab expansion works character by character. */
  lemma {:induction false} ExpandTabsAppend(a: string, b: string)
    ensures ExpandTabs(a + b) == ExpandTabs(a) + ExpandTabs(b)
  {
    if a == [] {
      assert a + b == b;
    } else {
      assert (a + b)[1..] == a[1..] + b;
      ExpandTabsAppend(a[1..], b);
    }
  }

  /** The drawn line grows by four spaces on a tab and by the character otherwise. */
  lemma ExpandTabsSnoc(s: string, c: char)
    ensures ExpandTabs(s + [c]) == ExpandTabs(s) + (if c == '\t' then Spaces(TAB_WIDTH) else [c])
  {
    ExpandTabsAppend(s, [c]);
    assert [c][1..] == [];
  }

  /** Line number `n` of the block, holding the text `piece`. */
  function NumberedLine(n: nat, piece: string): string
  {
    Gutter(n) + ExpandTabs(piece)
  }

  /** The buffer's lines, each behind its gutter: line k (0-based) is numbered k + 1. */
  function NumberedLines(pieces: seq<string>): (lines: seq<string>)
    ensures |lines| == |pieces|
  {
    seq(|pieces|, k requires 0 <= k < |pieces| => NumberedLine(k + 1, pieces[k]))
  }

  lemma NumberedLinesSnoc(pieces: seq<string>, piece: string)
    ensures NumberedLines(pieces + [piece]) == NumberedLines(pieces) + [NumberedLine(|pieces| + 1, piece)]
  {
    var a := NumberedLines(pieces + [piece]);
    var b := NumberedLines(pieces) + [NumberedLine(|pieces| + 1, piece)];
    assert |a| == |b|;
    forall k | 0 <= k < |a| ensures a[k] == b[k] {
      if k < |pieces| {
        assert (pieces + [piece])[k] == pieces[k];
        assert b[k] == NumberedLines(pieces)[k];
      } else {
        assert (pieces + [piece])[k] == piece;
      }
    }
  }

  /** The block drawn for the buffer text `data`: one line per newline-separated piece. */
  function BufferLines(data: string): (lines: seq<string>)
    ensures |lines| == Count(data, '\n') + 1
  {
    SplitCount(data, '\n');
    NumberedLines(Split(data, '\n'))
  }

  /** Every line of the block starts with its own 1-based number in the gutter, then the
      piece of text with its tabs expanded; no line contains a tab. */
  lemma BufferLinesShape(data: string, k: nat)
    requires k < |BufferLines(data)| && k < 999999
    ensures var line := BufferLines(data)[k];
      |line| >= GUTTER_WIDTH && line[..GUTTER_WIDTH] == Gutter(k + 1) &&
      line[GUTTER_WIDTH..] == ExpandTabs(Split(data, '\n')[k]) &&
      '\t' !in line
  {
    var line := BufferLines(data)[k];
    assert line == Gutter(k + 1) + ExpandTabs(Split(data, '\n')[k]);
    GutterShape(k + 1);
    GutterNoTab(k + 1);
  }

  // ---------------------------------------------------------------------------
  // Status row and cursor

  /** The status row sits on the last screen row, or on row 0 of a screen with no rows. */
  function StatusPos(size: Size): (p: Position)
    ensures p.0 == 0
    ensures size.1 > 0 ==> p.1 == size.1 - 1
    ensures size.1 == 0 ==> p.1 == 0
  {
    if size.1 > 0 then (0, size.1 - 1) else (0, 0)
  }

  /** One character as `{:?}` prints it inside a quoted path: a path's `Debug` escapes
      each character with `char::escape_debug`, which escapes both quote characters. */
  function EscapeChar(c: char): string
  {
    if c == '"' then "\\\""
    else if c == '\'' then "\\'"
    else if c == '\\' then "\\\\"
    else if c == '\n' then "\\n"
    else if c == '\r' then "\\r"
    else if c == '\t' then "\\t"
    else if c == '\0' then "\\0"
    else [c]
  }

  function Escape(s: string): string
  {
    if s == [] then "" else EscapeChar(s[0]) + Escape(s[1..])
  }

  predicate Plain(c: char)
  {
    c != '"' && c != '\'' && c != '\\' && c != '\n' && c != '\r' && c != '\t' && c != '\0'
  }

  /** A path as `{path:?}` prints it: quoted, and verbatim when nothing needs escaping. */
  function QuotedPath(p: string): (q: string)
    ensures |q| >= 2 && q[0] == '"' && q[|q| - 1] == '"'
    ensures (forall i :: 0 <= i < |p| ==> Plain(p[i])) ==> q == "\"" + p + "\""
  {
    if forall i :: 0 <= i < |p| ==> Plain(p[i]) then
      EscapePlain(p);
      "\"" + Escape(p) + "\""
    else "\"" + Escape(p) + "\""
  }

  /** An apostrophe in a path is escaped, unlike in `str`'s `Debug`. */
  lemma ApostropheEscaped()
    ensures QuotedPath("it's") == "\"it\\'s\""
  {
    assert !Plain("it's"[2]);
    assert Escape("it's") == "it" + Escape("'s") by {
      assert "it's"[1..] == "t's" && "t's"[1..] == "'s";
    }
    assert Escape("'s") == "\\'s" by {
      assert "'s"[1..] == "s" && "s"[1..] == "";
    }
  }

  lemma {:induction false} EscapePlain(s: string)
    requires forall i :: 0 <= i < |s| ==> Plain(s[i])
    ensures Escape(s) == s
  {
    if s != [] {
      EscapePlain(s[1..]);
      assert s == [s[0]] + s[1..];
    }
  }

  /** `"tt: "`, the mode's name, then ` command` while a command is being typed, then
      ` "path"` when the current buffer has a path. */
  function StatusLine(v: View): (line: string)
    ensures |line| >= 4 + |ModeName(v.mode)|
    ensures line[..4 + |ModeName(v.mode)|] == "tt: " + ModeName(v.mode)
    ensures v.command.None? && (v.buffer.None? || v.buffer.value.path.None?) ==> line == "tt: " + ModeName(v.mode)
  {
    var head := "tt: " + ModeName(v.mode);
    var withCommand := if v.command.Some? then head + " " + v.command.value else head;
    var line := if v.buffer.Some? && v.buffer.value.path.Some?
      then withCommand + " " + QuotedPath(v.buffer.value.path.value)
      else withCommand;
    assert line[..|head|] == head;
    line
  }

  /** Inputs on which none of the renderer's u16 counters overflows: line numbers go
      up to the number of lines, the column of every line is a u16, and the last
      line's column plus the gutter is a u16 too. */
  predicate Renderable(v: View)
  {
    v.buffer.Some? ==>
      var pieces := Split(v.buffer.value.data, '\n');
      |pieces| <= 0xFFFF &&
      (forall k :: 0 <= k < |pieces| ==> |ExpandTabs(pieces[k])| <= 0xFFFF) &&
      |ExpandTabs(Last(pieces))| + GUTTER_WIDTH <= 0xFFFF
  }

  /** Where the cursor goes: after the last character of the last line, past the
      gutter, on the last line; with no buffer, just past the gutter on row 0. */
  function CursorAt(v: View): (p: Position)
    requires Renderable(v)
    ensures v.buffer.None? ==> p == (GUTTER_WIDTH, 0)
    ensures v.buffer.Some? ==> p.1 == Count(v.buffer.value.data, '\n')
  {
    if v.buffer.None? then (GUTTER_WIDTH, 0)
    else
      var pieces := Split(v.buffer.value.data, '\n');
      SplitCount(v.buffer.value.data, '\n');
      (|ExpandTabs(Last(pieces))| + GUTTER_WIDTH, |pieces| - 1)
  }

  /** What `render` returns: the buffer block (when there is a current buffer), then
      the status row, then the cursor. */
  function Rendered(v: View): (msgs: seq<ServerMessage>)
    requires Renderable(v)
    ensures |msgs| == if v.buffer.Some? then 3 else 2
    ensures v.buffer.Some? ==> msgs[0] == Update((0, 0), v.size, BufferLines(v.buffer.value.data))
    ensures msgs[|msgs| - 2] == Update(StatusPos(v.size), (v.size.0, 1), [StatusLine(v)])
    ensures msgs[|msgs| - 1] == Cursor(CursorAt(v))
  {
    var status := Update(StatusPos(v.size), (v.size.0, 1), [StatusLine(v)]);
    var cursor := Cursor(CursorAt(v));
    if v.buffer.Some? then [Update((0, 0), v.size, BufferLines(v.buffer.value.data)), status, cursor]
    else [status, cursor]
  }

  /** The example of a buffer holding "ab\tc": the cursor lands after the gutter,
      the two letters, the four columns of the tab and the last letter. */
  lemma TabCursorExample(mode: BufferMode, size: Size)
    ensures var v := View(mode, None, Some(Buffer("ab\tc", None)), size);
      Renderable(v) && CursorAt(v) == (GUTTER_WIDTH + 2 + TAB_WIDTH + 1, 0)
  {
    var text := "ab\tc";
    SplitNoSep(text, '\n');
    assert Split(text, '\n') == [text];
    assert Count(text, '\t') == 1 by {
      assert text[1..][1..][1..] == "c";
    }
    assert |ExpandTabs(text)| == 7;
    var v := View(mode, None, Some(Buffer(text, None)), size);
    assert Last(Split(v.buffer.value.data, '\n')) == text;
  }

  // ---------------------------------------------------------------------------
  // The renderer itself: one pass over the buffer's characters.

  /** Text read so far, cut at its newlines: the pieces before the last newline, and
      the piece after it. */
  datatype Reading = Reading(done: seq<string>, current: string)

  /** What the renderer loop holds after a reading: the finished lines, the line
      being built, and the cursor on that line. */
  predicate Drawn(r: Reading, lines: seq<string>, line: string, col: int, row: int)
  {
    lines == NumberedLines(r.done) &&
    line == NumberedLine(|r.done| + 1, r.current) &&
    col == |ExpandTabs(r.current)| && row == |r.done|
  }

  lemma NewlineStep(r: Reading, lines: seq<string>, line: string, col: int, row: int)
    requires Drawn(r, lines, line, col, row)
    ensures Drawn(ReadOne(r, '\n'), lines + [line], Gutter(row + 2), 0, row + 1)
  {
    var next := ReadOne(r, '\n');
    assert next == Reading(r.done + [r.current], "");
    NumberedLinesSnoc(r.done, r.current);
    assert lines + [line] == NumberedLines(next.done);
    assert |next.done| == row + 1;
    assert ExpandTabs("") == "";
    assert NumberedLine(row + 2, "") == Gutter(row + 2);
  }

  lemma CharStep(r: Reading, lines: seq<string>, line: string, col: int, row: int, c: char)
    requires Drawn(r, lines, line, col, row) && c != '\n'
    ensures var grown := if c == '\t' then Spaces(TAB_WIDTH) else [c];
      Drawn(ReadOne(r, c), lines, line + grown, col + |grown|, row)
  {
    var grown := if c == '\t' then Spaces(TAB_WIDTH) else [c];
    ExpandTabsSnoc(r.current, c);
    ConcatAssoc(Gutter(|r.done| + 1), ExpandTabs(r.current), grown);
  }

  /** Before the first character: no finished line, line 1's gutter, column 0. */
  lemma DrawnStart(data: string)
    ensures Drawn(PiecesRead(data[..0]), [], "     1 | ", 0, 0)
  {
    assert data[..0] == [];
    assert Digits(1) == "1";
  }

  /** After the last character, the finished lines plus the current one are the block,
      and the cursor is at the end of the last line. */
  lemma DrawnDone(data: string, lines: seq<string>, line: string, col: int, row: int)
    requires Drawn(PiecesRead(data), lines, line, col, row)
    ensures lines + [line] == BufferLines(data)
    ensures col == |ExpandTabs(Last(Split(data, '\n')))| && row == Count(data, '\n')
  {
    var r := PiecesRead(data);
    PiecesReadIsSplit(data);
    SplitCount(data, '\n');
    NumberedLinesSnoc(r.done, r.current);
  }

  /** The pieces of `s` as a left-to-right reader sees them: a newline closes the
      current piece and opens an empty one, any other character extends it. */
  function PiecesRead(s: string): Reading
  {
    if s == [] then Reading([], "") else ReadOne(PiecesRead(s[..|s| - 1]), s[|s| - 1])
  }

  function ReadOne(r: Reading, c: char): Reading
  {
    if c == '\n' then Reading(r.done + [r.current], "") else r.(current := r.current + [c])
  }

  /** Reading one more character of `s`. */
  lemma PiecesReadStep(s: string, i: nat)
    requires i < |s|
    ensures PiecesRead(s[..i + 1]) == ReadOne(PiecesRead(s[..i]), s[i])
  {
    assert s[..i + 1][..i] == s[..i];
  }

  /** Reading character by character yields exactly the pieces of `split('\n')`. */
  lemma {:induction false} PiecesReadIsSplit(s: string)
    ensures PiecesRead(s).done + [PiecesRead(s).current] == Split(s, '\n')
  {
    if s != [] {
      var init := s[..|s| - 1];
      var c := s[|s| - 1];
      var r := PiecesRead(init);
      PiecesReadIsSplit(init);
      assert s == init + [c];
      SplitSnoc(init, c, '\n');
      var before := r.done + [r.current];
      if c != '\n' {
        assert before[..|before| - 1] == r.done;
      }
    }
  }

  /** One turn of the loop of `render`: a `'\n'` closes the current line and opens
      the next one behind its gutter, a tab adds four spaces, any other character is
      copied; the cursor column counts what the current line holds. */
  method ReadChar(ghost r: Reading, lines: seq<string>, line: string, col: int, row: int, ch: char)
    returns (lines': seq<string>, line': string, col': int, row': int)
    requires Drawn(r, lines, line, col, row)
    ensures Drawn(ReadOne(r, ch), lines', line', col', row')
  {
    if ch == '\n' {
      NewlineStep(r, lines, line, col, row);
      lines' := lines + [line];
      line' := Gutter(row + 2);
      col', row' := 0, row + 1;
    } else if ch == '\t' {
      CharStep(r, lines, line, col, row, ch);
      TabIsFourSpaces();
      lines' := lines;
      line' := line + "    ";
      col', row' := col + 4, row;
    } else {
      CharStep(r, lines, line, col, row, ch);
      lines' := lines;
      line' := line + [ch];
      col', row' := col + 1, row;
    }
  }

  /** The loop of `render` over the buffer text: the block of numbered lines and the
      cursor (column, row) after the last character. */
  method RenderBuffer(data: string) returns (lines: seq<string>, col: int, row: int)
    ensures lines == BufferLines(data)
    ensures col == |ExpandTabs(Last(Split(data, '\n')))| && row == Count(data, '\n')
  {
    var line;
    lines, line, col, row := ReadAll(data);
    DrawnDone(data, lines, line, col, row);
    lines := lines + [line];
  }

  /** The `for ch in data.chars()` loop itself: after it, the finished lines, the
      line being built and the cursor are those of the whole text. */
  method ReadAll(data: string) returns (lines: seq<string>, line: string, col: int, row: int)
    ensures Drawn(PiecesRead(data), lines, line, col, row)
  {
    lines := [];
    line := "     1 | ";
    col, row := 0, 0;
    DrawnStart(data);
    var i := 0;
    while i < |data|
      invariant 0 <= i <= |data|
      invariant Drawn(PiecesRead(data[..i]), lines, line, col, row)
    {
      PiecesReadStep(data, i);
      lines, line, col, row := ReadChar(PiecesRead(data[..i]), lines, line, col, row, data[i]);
      i := i + 1;
    }
    assert data[..i] == data;
  }

  /** The status row of `render`: the mode, the command line being typed, and the
      quoted path of the current buffer. It builds the line piece by piece with the
      `push_str` calls of src/server/render.rs:57-67 on purpose, and its contract ties
      that mutable string to the one-expression definitions `StatusPos` and
      `StatusLine` the lemmas are stated over. */
  method StatusRow(v: View) returns (status: ServerMessage)
    ensures status == Update(StatusPos(v.size), (v.size.0, 1), [StatusLine(v)])
  {
    var size := v.size;
    var statusPos: Position := if size.1 > 0 then (0, size.1 - 1) else (0, 0);
    var statusLine := "tt: " + ModeName(v.mode);
    if v.command.Some? {
      statusLine := statusLine + " " + v.command.value;
    }
    if v.buffer.Some? && v.buffer.value.path.Some? {
      statusLine := statusLine + " " + QuotedPath(v.buffer.value.path.value);
    }
    assert statusLine == StatusLine(v);
    status := Update(statusPos, (size.0, 1), [statusLine]);
  }

  /** `render`: the buffer block, the status row and the cursor; it only reads the state. */
  method Render(v: View) returns (messages: seq<ServerMessage>)
    requires Renderable(v)
    ensures messages == Rendered(v)
  {
    var status := StatusRow(v);
    if v.buffer.Some? {
      var lines, col, row := RenderBuffer(v.buffer.value.data);
      SplitCount(v.buffer.value.data, '\n');
      assert (col + GUTTER_WIDTH, row) == CursorAt(v);
      var at: Position := (col + GUTTER_WIDTH, row);
      messages := [Update((0, 0), v.size, lines), status, Cursor(at)];
    } else {
      messages := [status, Cursor((GUTTER_WIDTH, 0))];
    }
  }
}
