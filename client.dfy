/** The terminal client (src/client/main.rs): drawing the daemon's updates, turning
    key presses into requests, and noticing terminal resizes. The terminal is an
    output list of commands; the requests sent to the daemon form a list too. */
module Client {
  import opened Wrappers
  import opened Message

  /** What the client writes to the terminal: a cursor move to a 1-based column and
      row, one character, or a flush. */
  datatype TermOutput = Goto(col: nat, row: nat) | Put(ch: char) | Flush

  // ---------------------------------------------------------------------------
  // goto

  /** `goto`: termion counts columns and rows from 1, the protocol from 0. The u16
      sum must not overflow. */
  function GotoCmd(pos: Position): (out: TermOutput)
    requires pos.0 < 0xFFFF && pos.1 < 0xFFFF
    ensures out.Goto? && 1 <= out.col <= 0xFFFF && 1 <= out.row <= 0xFFFF
    ensures (out.col - 1, out.row - 1) == pos
  {
    Goto(pos.0 + 1, pos.1 + 1)
  }

  /** Distinct positions give distinct cursor moves. */
  lemma GotoInjective(p: Position, q: Position)
    requires p.0 < 0xFFFF && p.1 < 0xFFFF && q.0 < 0xFFFF && q.1 < 0xFFFF
    requires GotoCmd(p) == GotoCmd(q)
    ensures p == q
  {
    assert (GotoCmd(p).col - 1, GotoCmd(p).row - 1) == p;
  }

  // ---------------------------------------------------------------------------
  // do_update

  /** Bytes in the UTF-8 encoding of `s`: what `str::len` counts. */
  function Utf8Len(s: string): (n: nat)
    ensures |s| <= n <= 4 * |s|
  {
    if s == [] then 0
    else (if s[0] as int < 0x80 then 1 else if s[0] as int < 0x800 then 2
          else if s[0] as int < 0x10000 then 3 else 4) + Utf8Len(s[1..])
  }

  predicate Ascii(s: string)
  {
    forall j :: 0 <= j < |s| ==> s[j] as int < 0x80
  }

  lemma {:induction false} AsciiUtf8Len(s: string)
    requires Ascii(s)
    ensures Utf8Len(s) == |s|
  {
    if s != [] {
      assert Ascii(s[1..]) by {
        forall j | 0 <= j < |s[1..]| ensures s[1..][j] as int < 0x80 {
          assert s[1..][j] == s[j + 1];
        }
      }
      AsciiUtf8Len(s[1..]);
    }
  }

  /** Line `i` of an update, or the empty line when there is none. */
  function LineAt(lines: seq<string>, i: nat): string
  {
    if i < |lines| then lines[i] else ""
  }

  function Puts(s: string): (out: seq<TermOutput>)
    ensures |out| == |s|
  {
    seq(|s|, j requires 0 <= j < |s| => Put(s[j]))
  }

  /** How many spaces pad a row: the width less the line's length in bytes. */
  function Padding(line: string, width: nat): nat
  {
    if Utf8Len(line) < width then width - Utf8Len(line) else 0
  }

  function Spaces(n: nat): (s: string)
    ensures |s| == n && forall j :: 0 <= j < n ==> s[j] == ' '
  {
    seq(n, _ => ' ')
  }

  /** One drawn row: at most `width` characters of the line, then the padding. */
  function RowOutput(line: string, width: nat): (out: seq<TermOutput>)
    ensures |out| == (if |line| < width then |line| else width) + Padding(line, width)
  {
    var shown := if |line| < width then line else line[..width];
    Puts(shown) + Puts(Spaces(Padding(line, width)))
  }

  /** The drawn rows for lines `0..n` of an update. */
  function RowTexts(width: nat, lines: seq<string>, n: nat): (r: seq<seq<TermOutput>>)
    ensures |r| == n
  {
    if n == 0 then [] else RowTexts(width, lines, n - 1) + [RowOutput(LineAt(lines, n - 1), width)]
  }

  /** Row i of an update shows line i of the buffer, or nothing past its end. */
  lemma {:induction false} RowTextsAt(width: nat, lines: seq<string>, n: nat, i: nat)
    requires i < n
    ensures RowTexts(width, lines, n)[i] == RowOutput(LineAt(lines, i), width)
    decreases n
  {
    if i < n - 1 {
      RowTextsAt(width, lines, n - 1, i);
    }
  }

  /** Rows written one under another from `pos`, each after the cursor move to
      its start. */
  function Framed(x: nat, y: nat, rows: seq<seq<TermOutput>>): seq<TermOutput>
  {
    if |rows| == 0 then []
    else Framed(x, y, rows[..|rows| - 1]) + [Goto(x + 1, y + |rows|)] + rows[|rows| - 1]
  }

  /** An update can be drawn without a u16 overflow in the row arithmetic. */
  predicate Drawable(pos: Position, size: Size)
  {
    size.1 == 0 || (pos.0 < 0xFFFF && pos.1 + size.1 <= 0xFFFF)
  }

  /** What `do_update` writes: `height` rows, then a flush. */
  function Drawn(pos: Position, size: Size, lines: seq<string>): seq<TermOutput>
    requires Drawable(pos, size)
  {
    Framed(pos.0, pos.1, RowTexts(size.0, lines, size.1)) + [Flush]
  }

  /** The cursor moves of a run of terminal output, in order. */
  function Moves(out: seq<TermOutput>): seq<TermOutput>
  {
    if |out| == 0 then []
    else Moves(out[..|out| - 1]) + (if out[|out| - 1].Goto? then [out[|out| - 1]] else [])
  }

  lemma {:induction false} MovesAppend(a: seq<TermOutput>, b: seq<TermOutput>)
    ensures Moves(a + b) == Moves(a) + Moves(b)
    decreases |b|
  {
    if b == [] {
      assert a + b == a;
    } else {
      assert (a + b)[..|a + b| - 1] == a + b[..|b| - 1];
      MovesAppend(a, b[..|b| - 1]);
    }
  }

  lemma {:induction false} MovesOfPuts(s: string)
    ensures Moves(Puts(s)) == []
    decreases |s|
  {
    if s != [] {
      assert Puts(s)[..|s| - 1] == Puts(s[..|s| - 1]);
      MovesOfPuts(s[..|s| - 1]);
    }
  }

  /** The 1-based cursor moves to the starts of rows `0..n` below `(x, y)`. */
  function RowStarts(x: nat, y: nat, n: nat): (r: seq<TermOutput>)
    ensures |r| == n && forall i :: 0 <= i < n ==> r[i] == Goto(x + 1, y + i + 1)
  {
    if n == 0 then [] else RowStarts(x, y, n - 1) + [Goto(x + 1, y + n)]
  }

  /** An update moves the cursor exactly `height` times, to the start of row i at
      `(x, y + i)` for each i, in order. */
  lemma {:induction false} DrawnMoves(pos: Position, size: Size, lines: seq<string>)
    requires Drawable(pos, size)
    ensures Moves(Drawn(pos, size, lines)) == RowStarts(pos.0, pos.1, size.1)
  {
    var rows := RowTexts(size.0, lines, size.1);
    forall i | 0 <= i < |rows|
      ensures Moves(rows[i]) == []
    {
      RowTextsAt(size.0, lines, size.1, i);
      RowHasNoMoves(LineAt(lines, i), size.0);
    }
    FramedMoves(pos.0, pos.1, rows);
    MovesAppend(Framed(pos.0, pos.1, rows), [Flush]);
    assert Moves([Flush]) == [] by { assert [Flush][..0] == []; }
  }

  /** A row writes characters only. */
  lemma RowHasNoMoves(line: string, width: nat)
    ensures Moves(RowOutput(line, width)) == []
  {
    var shown := if |line| < width then line else line[..width];
    MovesAppend(Puts(shown), Puts(Spaces(Padding(line, width))));
    MovesOfPuts(shown);
    MovesOfPuts(Spaces(Padding(line, width)));
  }

  /** A cursor move followed by a row adds just that move. */
  lemma MovesStep(prior: seq<TermOutput>, g: TermOutput, row: seq<TermOutput>)
    requires g.Goto? && Moves(row) == []
    ensures Moves(prior + [g] + row) == Moves(prior) + [g]
  {
    MovesAppend(prior + [g], row);
    MovesAppend(prior, [g]);
    assert Moves([g]) == [g] by { assert [g][..0] == []; }
  }

  lemma {:induction false} FramedMoves(x: nat, y: nat, rows: seq<seq<TermOutput>>)
    requires forall i :: 0 <= i < |rows| ==> Moves(rows[i]) == []
    ensures Moves(Framed(x, y, rows)) == RowStarts(x, y, |rows|)
    decreases |rows|
  {
    if |rows| > 0 {
      var prior := rows[..|rows| - 1];
      FramedMoves(x, y, prior);
      MovesStep(Framed(x, y, prior), Goto(x + 1, y + |rows|), rows[|rows| - 1]);
    }
  }

  /** Lines at index `height` or beyond are never drawn. */
  lemma LinesBeyondHeightIgnored(pos: Position, size: Size, lines: seq<string>, more: seq<string>)
    requires Drawable(pos, size) && |lines| >= size.1
    ensures Drawn(pos, size, lines + more) == Drawn(pos, size, lines)
  {
    var a := RowTexts(size.0, lines + more, size.1);
    var b := RowTexts(size.0, lines, size.1);
    forall i | 0 <= i < size.1
      ensures a[i] == b[i]
    {
      RowTextsAt(size.0, lines + more, size.1, i);
      RowTextsAt(size.0, lines, size.1, i);
      assert LineAt(lines + more, i) == LineAt(lines, i);
    }
    assert a == b;
  }

  /** A row with no line is drawn as `width` spaces. */
  lemma MissingLineIsBlank(width: nat)
    ensures RowOutput("", width) == Puts(Spaces(width))
  {
    assert Puts("") == [];
  }

  /** At most `width` characters of a line are written, and no more than its first
      ones. */
  lemma RowShowsPrefix(line: string, width: nat)
    ensures var k := if |line| < width then |line| else width;
      RowOutput(line, width)[..k] == Puts(line[..k])
  {
    var k := if |line| < width then |line| else width;
    var shown := if |line| < width then line else line[..width];
    assert shown == line[..k];
    assert (Puts(shown) + Puts(Spaces(Padding(line, width))))[..k] == Puts(shown);
  }

  /** A row of ASCII text is written exactly `width` characters wide. */
  lemma AsciiRowFillsWidth(line: string, width: nat)
    requires Ascii(line)
    ensures |RowOutput(line, width)| == width
  {
    AsciiUtf8Len(line);
  }

  /** Padding counts bytes, not characters: a line holding one two-byte character
      leaves a row of width 3 one column short. */
  lemma MultibyteRowIsShort()
    ensures |RowOutput("\U{e9}", 3)| == 2
  {
    assert Utf8Len("\U{e9}") == 2 by { assert "\U{e9}"[1..] == []; }
  }

  /** One more row appends its cursor move and the row itself. */
  lemma FramedSnoc(x: nat, y: nat, rows: seq<seq<TermOutput>>, row: seq<TermOutput>)
    ensures Framed(x, y, rows + [row]) == Framed(x, y, rows) + ([Goto(x + 1, y + |rows| + 1)] + row)
  {
    assert (rows + [row])[..|rows|] == rows;
    var g := Goto(x + 1, y + |rows| + 1);
    assert Framed(x, y, rows) + [g] + row == Framed(x, y, rows) + ([g] + row);
  }

  /** One turn of the row loop of `do_update`: row `i` is drawn below the rows before it. */
  lemma DrawnStep(x: nat, y: nat, width: nat, lines: seq<string>, i: nat, out: seq<TermOutput>, row: seq<TermOutput>)
    requires out == Framed(x, y, RowTexts(width, lines, i))
    requires row == [Goto(x + 1, y + i + 1)] + RowOutput(LineAt(lines, i), width)
    ensures out + row == Framed(x, y, RowTexts(width, lines, i + 1))
  {
    FramedSnoc(x, y, RowTexts(width, lines, i), RowOutput(LineAt(lines, i), width));
  }

  /** `do_update`: for each of the `height` rows, a cursor move, the visible part of
      the line and the padding; then a flush. */
  method DoUpdate(pos: Position, size: Size, lines: seq<string>) returns (out: seq<TermOutput>)
    requires Drawable(pos, size)
    ensures out == Drawn(pos, size, lines)
  {
    var (x, y) := pos;
    var (width, height) := size;
    out := [];
    var i := 0;
    while i < height
      invariant 0 <= i <= height
      invariant out == Framed(x, y, RowTexts(width, lines, i))
    {
      var row := DrawRow(x, y + i, width, LineAt(lines, i));
      DrawnStep(x, y, width, lines, i, out, row);
      out := out + row;
      i := i + 1;
    }
    out := out + [Flush];
  }

  /** One row of `do_update`: the cursor move to its start, then the row itself. */
  method DrawRow(x: u16, y: u16, width: nat, line: string) returns (out: seq<TermOutput>)
    requires x < 0xFFFF && y < 0xFFFF
    ensures out == [Goto(x + 1, y + 1)] + RowOutput(line, width)
  {
    out := [GotoCmd((x, y))];
    var row := WriteRow(line, width);
    out := out + row;
  }

  /** The two inner loops of `do_update`: the characters of the line up to the
      width, then one space for each byte short of the width. */
  method WriteRow(line: string, width: nat) returns (out: seq<TermOutput>)
    ensures out == RowOutput(line, width)
  {
    out := [];
    var j := 0;
    while j < |line| && j < width
      invariant 0 <= j <= |line| && j <= width
      invariant out == Puts(line[..j])
    {
      assert line[..j + 1] == line[..j] + [line[j]];
      out := out + [Put(line[j])];
      j := j + 1;
    }
    assert (if |line| < width then line else line[..width]) == line[..j];
    var k := Utf8Len(line);
    ghost var start := out;
    while k < width
      invariant out == start + Puts(Spaces(if k <= width then k - Utf8Len(line) else 0))
      invariant Utf8Len(line) <= k <= width || (k == Utf8Len(line) && k > width)
    {
      assert Spaces(k + 1 - Utf8Len(line)) == Spaces(k - Utf8Len(line)) + [' '];
      out := out + [Put(' ')];
      k := k + 1;
    }
  }

  // ---------------------------------------------------------------------------
  // The run loop

  /** Events of the client's run loop. */
  datatype ClientEvent = KeyPressed(key: TermionKey) | ServerMessageReceived(message: ServerMessage) | Resized(size: Size)

  /** What a key press does: Ctrl-c quits, a key the conversion handles is forwarded;
      any other key makes the conversion panic. */
  datatype KeyAction = Quit | Forward(message: ClientMessage) | Unconvertible

  function KeyDispatch(k: TermionKey): (a: KeyAction)
    ensures a.Quit? <==> k == TCtrl('c')
    ensures a.Unconvertible? <==> k.Unhandled?
    ensures a.Forward? ==> a.message.SendInput? && ToTermion(a.message.key) == k
  {
    if k == TCtrl('c') then Quit
    else match FromTermion(k)
      case None => Unconvertible
      case Some(key) => Forward(SendInput(key))
  }

  /** How the run loop stands: still running, left after Ctrl-c, or dead of a panic. */
  datatype RunState = Running | Quitted | Crashed
  datatype Terminal = Terminal(sent: seq<ClientMessage>, screen: seq<TermOutput>, state: RunState)

  /** What the client has sent before its run loop starts: `Connect`, then `Open`
      when it was given a file name. */
  function Startup(filename: Option<string>): (t: Terminal)
    ensures t.state == Running && t.screen == []
    ensures filename.Some? ==> t.sent == [Connect, Open(filename.value)]
    ensures filename.None? ==> t.sent == [Connect]
  {
    Terminal([Connect] + (if filename.Some? then [Open(filename.value)] else []), [], Running)
  }

  /** One event of the run loop. */
  function OnEvent(t: Terminal, e: ClientEvent): Terminal
  {
    match e
    case KeyPressed(k) =>
      (match KeyDispatch(k)
       case Quit => t.(sent := t.sent + [Disconnect], state := Quitted)
       case Forward(m) => t.(sent := t.sent + [m])
       case Unconvertible => t.(state := Crashed))
    case ServerMessageReceived(m) =>
      (match m
       case Update(pos, size, lines) =>
         if Drawable(pos, size) then t.(screen := t.screen + Drawn(pos, size, lines)) else t.(state := Crashed)
       case Cursor(pos) =>
         if pos.0 < 0xFFFF && pos.1 < 0xFFFF then t.(screen := t.screen + [GotoCmd(pos), Flush])
         else t.(state := Crashed)
       case _ => t)
    case Resized(size) => t.(sent := t.sent + [Resize(size)])
  }

  /** The run loop over a sequence of events, from a starting terminal; once it has
      quit or crashed, later events are not looked at. */
  function Session(t: Terminal, events: seq<ClientEvent>): (r: Terminal)
    ensures t.state != Running ==> r == t
  {
    if events == [] then t
    else
      var prior := Session(t, events[..|events| - 1]);
      if prior.state != Running then prior else OnEvent(prior, events[|events| - 1])
  }

  /** Ctrl-c sends `Disconnect` as the last request and ends the loop: nothing after
      it is sent or drawn. */
  lemma {:induction false} CtrlCEndsSession(t: Terminal, before: seq<ClientEvent>, after: seq<ClientEvent>)
    requires Session(t, before).state == Running
    ensures var r := Session(t, before + [KeyPressed(TCtrl('c'))] + after);
      r.state == Quitted && r.sent == Session(t, before).sent + [Disconnect] &&
      r.screen == Session(t, before).screen
    decreases |after|
  {
    var quit := before + [KeyPressed(TCtrl('c'))];
    assert quit[..|quit| - 1] == before;
    if after != [] {
      var all := quit + after;
      assert all[..|all| - 1] == quit + after[..|after| - 1];
      CtrlCEndsSession(t, before, after[..|after| - 1]);
    } else {
      assert quit + after == quit;
    }
  }

  /** Every key other than Ctrl-c that the conversion handles is forwarded as
      `SendInput`, and the loop goes on. */
  lemma ForwardsKey(t: Terminal, k: TermionKey)
    requires t.state == Running && k != TCtrl('c') && !k.Unhandled?
    ensures OnEvent(t, KeyPressed(k)) == t.(sent := t.sent + [SendInput(FromTermion(k).value)])
  {
  }

  /** The run loop as a method: events are taken in order until Ctrl-c or a panic. */
  method RunLoop(filename: Option<string>, events: seq<ClientEvent>) returns (t: Terminal)
    ensures t == Session(Startup(filename), events)
  {
    t := Startup(filename);
    var i := 0;
    while i < |events|
      invariant 0 <= i <= |events|
      invariant t == Session(Startup(filename), events[..i])
      invariant t.state == Running
    {
      assert events[..i + 1][..i] == events[..i];
      var e := events[i];
      match e {
        case KeyPressed(k) =>
          if k == TCtrl('c') {
            t := t.(sent := t.sent + [Disconnect], state := Quitted);
            QuitStops(Startup(filename), events, i + 1);
            return;
          } else {
            var key := FromTermion(k);
            if key.None? {
              t := t.(state := Crashed);
              QuitStops(Startup(filename), events, i + 1);
              return;
            }
            t := t.(sent := t.sent + [SendInput(key.value)]);
          }
        case ServerMessageReceived(m) =>
          match m {
            case Update(pos, size, lines) =>
              if !Drawable(pos, size) {
                t := t.(state := Crashed);
                QuitStops(Startup(filename), events, i + 1);
                return;
              }
              var drawn := DoUpdate(pos, size, lines);
              t := t.(screen := t.screen + drawn);
            case Cursor(pos) =>
              if !(pos.0 < 0xFFFF && pos.1 < 0xFFFF) {
                t := t.(state := Crashed);
                QuitStops(Startup(filename), events, i + 1);
                return;
              }
              t := t.(screen := t.screen + [GotoCmd(pos), Flush]);
            case _ =>
          }
        case Resized(size) =>
          t := t.(sent := t.sent + [Resize(size)]);
      }
      i := i + 1;
    }
    assert events[..i] == events;
  }

  /** After the loop has stopped, the remaining events change nothing. */
  lemma {:induction false} QuitStops(t: Terminal, events: seq<ClientEvent>, i: nat)
    requires i <= |events| && Session(t, events[..i]).state != Running
    ensures Session(t, events) == Session(t, events[..i])
    decreases |events| - i
  {
    if i < |events| {
      assert events[..i + 1][..i] == events[..i];
      QuitStops(t, events, i + 1);
    } else {
      assert events[..i] == events;
    }
  }

  // ---------------------------------------------------------------------------
  // resize_listener

  /** The sizes `resize_listener` reports for a run of polled terminal sizes: a size
      is reported when it differs from the last one reported, starting from (1, 1). */
  function Reported(current: Size, samples: seq<Size>): seq<Size>
    decreases |samples|
  {
    if samples == [] then []
    else if samples[0] != current then [samples[0]] + Reported(samples[0], samples[1..])
    else Reported(current, samples[1..])
  }

  /** The size the listener compares against after the samples. */
  function Current(current: Size, samples: seq<Size>): Size
    decreases |samples|
  {
    if samples == [] then current else Current(samples[0], samples[1..])
  }

  /** No report repeats the one before it, or the starting size, and every report is
      a polled size. */
  lemma {:induction false} ReportedChangesOnly(current: Size, samples: seq<Size>)
    ensures var r := Reported(current, samples);
      (r != [] ==> r[0] != current) &&
      (forall j :: 0 < j < |r| ==> r[j] != r[j - 1]) &&
      (forall j :: 0 <= j < |r| ==> r[j] in samples)
    decreases |samples|
  {
    if samples != [] {
      ReportedChangesOnly(if samples[0] != current then samples[0] else current, samples[1..]);
      var r := Reported(current, samples);
      if samples[0] != current {
        var rest := Reported(samples[0], samples[1..]);
        assert r == [samples[0]] + rest;
        forall j | 0 < j < |r| ensures r[j] != r[j - 1] {
          assert r[j] == rest[j - 1];
          if j > 1 { assert r[j - 1] == rest[j - 2]; }
        }
      }
    }
  }

  /** The listener always ends up comparing against the last polled size, and it has
      reported that size unless it was the size it started from. */
  lemma {:induction false} CurrentIsLastSample(current: Size, samples: seq<Size>)
    requires samples != []
    ensures Current(current, samples) == samples[|samples| - 1]
    ensures var r := Reported(current, samples);
      if r == [] then samples[|samples| - 1] == current else r[|r| - 1] == samples[|samples| - 1]
    decreases |samples|
  {
    if |samples| > 1 {
      CurrentIsLastSample(samples[0], samples[1..]);
      CurrentIsLastSample(current, [samples[0]]);
      assert samples[1..][|samples| - 2] == samples[|samples| - 1];
      if samples[0] == current {
        CurrentIsLastSample(current, samples[1..]);
      }
    }
  }

  /** `resize_listener` over a run of polled sizes: the sizes it sends, and the size
      it compares against afterwards. */
  method ResizeListener(samples: seq<Size>) returns (sent: seq<Size>, current: Size)
    ensures sent == Reported((1, 1), samples)
    ensures current == Current((1, 1), samples)
  {
    current := (1, 1);
    sent := [];
    var i := 0;
    while i < |samples|
      invariant 0 <= i <= |samples|
      invariant sent + Reported(current, samples[i..]) == Reported((1, 1), samples)
      invariant Current(current, samples[i..]) == Current((1, 1), samples)
    {
      var size := samples[i];
      assert samples[i..][1..] == samples[i + 1..];
      if current != size {
        sent := sent + [size];
        current := size;
      }
      i := i + 1;
    }
  }
}
