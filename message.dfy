/** The protocol types shared by the daemon and the client (src/message.rs). */
module Message {
  import opened Wrappers

  type u8 = x: int | 0 <= x < 0x100
  type u16 = x: int | 0 <= x < 0x1_0000

  /** Screen coordinates (x, y) and terminal dimensions (width, height). */
  type Position = (u16, u16)
  type Size = (u16, u16)

  /** A key as the protocol carries it. */
  datatype Key =
    | Backspace | Left | Right | Up | Down | Home | End | PageUp | PageDown
    | BackTab | Delete | Insert
    | F(n: u8)
    | Char(c: char) | Alt(c: char) | Ctrl(c: char)
    | Null | Esc

  /** termion's `event::Key`: the same named keys and payload keys, plus the
      variants the conversion does not handle, folded into one catch-all. */
  datatype TermionKey =
    | TBackspace | TLeft | TRight | TUp | TDown | THome | TEnd | TPageUp | TPageDown
    | TBackTab | TDelete | TInsert
    | TF(n: u8)
    | TChar(c: char) | TAlt(c: char) | TCtrl(c: char)
    | TNull | TEsc
    | Unhandled(variant: nat)

  /** Request from a client to the daemon, with the variants the daemon's handler
      and the client actually exchange. */
  datatype ClientMessage =
    | Connect
    | RequestRefresh
    | Open(filename: string)
    | SendInput(key: Key)
    | Resize(size: Size)
    | Disconnect

  /** Message pushed from the daemon to its clients. */
  datatype ServerMessage =
    | Log(text: string)
    | Update(pos: Position, size: Size, lines: seq<string>)
    | Cursor(at: Position)
    | Shutdown

  /** The conversion `From<termion::event::Key> for Key`; `None` stands for its panic
      on a termion key it does not list. */
  function FromTermion(k: TermionKey): (r: Option<Key>)
    ensures r.None? <==> k.Unhandled?
    ensures r.Some? ==> ToTermion(r.value) == k
  {
    match k
    case TBackspace => Some(Backspace)
    case TLeft => Some(Left)
    case TRight => Some(Right)
    case TUp => Some(Up)
    case TDown => Some(Down)
    case THome => Some(Home)
    case TEnd => Some(End)
    case TPageUp => Some(PageUp)
    case TPageDown => Some(PageDown)
    case TBackTab => Some(BackTab)
    case TDelete => Some(Delete)
    case TInsert => Some(Insert)
    case TF(n) => Some(F(n))
    case TChar(c) => Some(Char(c))
    case TAlt(c) => Some(Alt(c))
    case TCtrl(c) => Some(Ctrl(c))
    case TNull => Some(Null)
    case TEsc => Some(Esc)
    case Unhandled(_) => None
  }

  /** The termion key each protocol key comes from: the partner of FromTermion. */
  function ToTermion(k: Key): (r: TermionKey)
    ensures !r.Unhandled?
  {
    match k
    case Backspace => TBackspace
    case Left => TLeft
    case Right => TRight
    case Up => TUp
    case Down => TDown
    case Home => THome
    case End => TEnd
    case PageUp => TPageUp
    case PageDown => TPageDown
    case BackTab => TBackTab
    case Delete => TDelete
    case Insert => TInsert
    case F(n) => TF(n)
    case Char(c) => TChar(c)
    case Alt(c) => TAlt(c)
    case Ctrl(c) => TCtrl(c)
    case Null => TNull
    case Esc => TEsc
  }

  /** Every protocol key is reached, and from exactly the termion key of the same name. */
  lemma KeyRoundTrip(k: Key)
    ensures FromTermion(ToTermion(k)) == Some(k)
  {
  }

  /** The conversion never maps two handled termion keys to the same key. */
  lemma FromTermionInjective(a: TermionKey, b: TermionKey)
    requires FromTermion(a).Some? && FromTermion(a) == FromTermion(b)
    ensures a == b
  {
  }

  /** Character and function-key payloads pass through unchanged. */
  lemma FromTermionKeepsPayload(c: char, n: u8)
    ensures FromTermion(TChar(c)) == Some(Char(c))
    ensures FromTermion(TAlt(c)) == Some(Alt(c))
    ensures FromTermion(TCtrl(c)) == Some(Ctrl(c))
    ensures FromTermion(TF(n)) == Some(F(n))
  {
  }
}
