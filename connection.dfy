/** Length-prefixed framing over a stream socket (src/connection.rs). A frame is an
    8-byte little-endian length followed by that many payload bytes. The socket is
    an abstract byte stream whose syscalls move as many bytes as a chunking oracle
    allows; the payload's serialization is a parameter. */
module Connection {
  import opened Wrappers

  type byte = x: int | 0 <= x < 0x100

  const HEADER_LEN: nat := 8
  /** 2^64: the payload length must fit the u64 header. */
  const U64_LIMIT: nat := 0x1_0000_0000_0000_0000
  /** 2^63: a `Vec<u8>` holds at most `isize::MAX` bytes on a 64-bit target, and
      `vec![0u8; n]` panics with "capacity overflow" for any larger n. */
  const ALLOC_LIMIT: nat := 0x8000_0000_0000_0000

  /** I/O failures: an OS error from a syscall, or data the deserializer rejects. */
  datatype IoError = Os(code: int) | InvalidData

  /** What the next syscall on a socket does: move at most `limit` bytes, or fail. */
  datatype Step = Transfer(limit: nat) | Fail(err: IoError)

  function Pow256(n: nat): (p: nat)
    ensures p >= 1
  {
    if n == 0 then 1 else 256 * Pow256(n - 1)
  }

  /** `v` as `n` little-endian bytes, low byte first. */
  function LeEncode(v: nat, n: nat): (b: seq<byte>)
    ensures |b| == n
  {
    if n == 0 then [] else [v % 256] + LeEncode(v / 256, n - 1)
  }

  /** The number that little-endian bytes stand for. */
  function LeDecode(b: seq<byte>): (v: nat)
    ensures v < Pow256(|b|)
  {
    if b == [] then 0 else b[0] + 256 * LeDecode(b[1..])
  }

  lemma {:induction false} LeDecodeEncode(v: nat, n: nat)
    requires v < Pow256(n)
    ensures LeDecode(LeEncode(v, n)) == v
  {
    if n > 0 {
      LeDecodeEncode(v / 256, n - 1);
      assert LeEncode(v, n)[1..] == LeEncode(v / 256, n - 1);
    }
  }

  lemma {:induction false} LeEncodeDecode(b: seq<byte>)
    ensures LeEncode(LeDecode(b), |b|) == b
  {
    if b != [] {
      var v := LeDecode(b);
      assert v % 256 == b[0] && v / 256 == LeDecode(b[1..]);
      LeEncodeDecode(b[1..]);
    }
  }

  /** The frame header for a payload of `len` bytes (`write_u64::<LittleEndian>`). */
  function Header(len: nat): (h: seq<byte>)
    requires len < U64_LIMIT
    ensures |h| == HEADER_LEN
    ensures LeDecode(h) == len
  {
    assert Pow256(8) == U64_LIMIT;
    LeDecodeEncode(len, 8);
    LeEncode(len, 8)
  }

  // ---------------------------------------------------------------------------
  // The syscalls, and the two loops of `send` and `receive`, as functions of the
  // oracle: the methods below are proved to behave as these say.

  /** What one syscall returns, and the oracle left after it. */
  datatype Call = Call(result: Result<nat, IoError>, plan: seq<Step>)

  /** One `send(2)` of a `len`-byte buffer: how many bytes it accepts, and the oracle
      left after it. With the oracle exhausted the whole buffer goes out. */
  function SendCall(len: nat, plan: seq<Step>): (r: Call)
    ensures r.result.Ok? ==> r.result.value <= len
    ensures plan == [] ==> r == Call(Ok(len), [])
    ensures plan != [] ==> r.plan == plan[1..]
  {
    if plan == [] then Call(Ok(len), [])
    else match plan[0]
      case Transfer(limit) => Call(Ok(if limit < len then limit else len), plan[1..])
      case Fail(e) => Call(Err(e), plan[1..])
  }

  /** One `recv(2)` into `space` free bytes with `available` bytes pending from the
      peer. A result of 0 means the peer has closed the stream. */
  function RecvCall(space: nat, available: nat, plan: seq<Step>): (r: Call)
    ensures r.result.Ok? ==> r.result.value <= space && r.result.value <= available
    ensures plan == [] ==> r == Call(Ok(Min(space, available)), [])
    ensures plan != [] ==> r.plan == plan[1..]
  {
    if plan == [] then Call(Ok(Min(space, available)), [])
    else match plan[0]
      case Transfer(limit) => Call(Ok(Min(limit, Min(space, available))), plan[1..])
      case Fail(e) => Call(Err(e), plan[1..])
  }

  function Min(a: nat, b: nat): nat { if a < b then a else b }

  /** What a send loop leaves behind: its result, the bytes it put on the wire, and
      the oracle that remains. */
  datatype Sent = Sent(result: Result<(), IoError>, wire: seq<byte>, plan: seq<Step>)

  function After(prefix: seq<byte>, s: Sent): Sent
  {
    s.(wire := prefix + s.wire)
  }

  lemma AfterAfter(a: seq<byte>, b: seq<byte>, s: Sent)
    ensures After(a, After(b, s)) == After(a + b, s)
  {
    assert a + (b + s.wire) == (a + b) + s.wire;
  }

  /** The header loop: each call resumes from the first unsent byte. */
  function HeaderLoop(h: seq<byte>, off: nat, plan: seq<Step>): (s: Sent)
    requires off <= |h|
    decreases |plan|, |h| - off
  {
    if off == |h| then Sent(Ok(()), [], plan)
    else
      var Call(c, rest) := SendCall(|h| - off, plan);
      match c
      case Err(e) => Sent(Err(e), [], rest)
      case Ok(n) => After(h[off..off + n], HeaderLoop(h, off + n, rest))
  }

  /** The bytes a call sends from the resume point extend what is on the wire. */
  lemma WireAdvance(w0: seq<byte>, h: seq<byte>, off: nat, n: nat)
    requires off + n <= |h|
    ensures (w0 + h[..off]) + h[off..][..n] == w0 + h[..off + n]
  {
    assert h[off..][..n] == h[off..off + n];
    assert h[..off] + h[off..off + n] == h[..off + n];
  }

  /** A failed call ends the header loop with what was sent before it. */
  lemma HeaderFails(s0: Sent, h: seq<byte>, off: nat, plan: seq<Step>, e: IoError, rest: seq<Step>)
    requires off < |h| && SendCall(|h| - off, plan) == Call(Err(e), rest)
    requires s0 == After(h[..off], HeaderLoop(h, off, plan))
    ensures s0 == Sent(Err(e), h[..off], rest)
  {
  }

  /** Once the whole header is sent, the loop ends with all of it on the wire. */
  lemma HeaderDone(s0: Sent, h: seq<byte>, plan: seq<Step>)
    requires s0 == After(h[..|h|], HeaderLoop(h, |h|, plan))
    ensures s0 == Sent(Ok(()), h, plan)
  {
    assert h[..|h|] == h;
  }

  /** A successful call of the header loop moves the resume point past what it sent. */
  lemma HeaderAdvance(s0: Sent, h: seq<byte>, off: nat, plan: seq<Step>, n: nat, rest: seq<Step>)
    requires off < |h| && SendCall(|h| - off, plan) == Call(Ok(n), rest)
    requires s0 == After(h[..off], HeaderLoop(h, off, plan))
    ensures off + n <= |h|
    ensures s0 == After(h[..off + n], HeaderLoop(h, off + n, rest))
  {
    var chunk := h[off..off + n];
    assert HeaderLoop(h, off, plan) == After(chunk, HeaderLoop(h, off + n, rest));
    AfterAfter(h[..off], chunk, HeaderLoop(h, off + n, rest));
    assert h[..off] + chunk == h[..off + n];
  }

  /** One turn of the header loop that sent `n` bytes: the wire and the loop's
      outcome both move past them. */
  lemma HeaderStep(s0: Sent, h: seq<byte>, off: nat, plan: seq<Step>, n: nat, rest: seq<Step>, w0: seq<byte>, wire: seq<byte>)
    requires off < |h| && SendCall(|h| - off, plan) == Call(Ok(n), rest)
    requires s0 == After(h[..off], HeaderLoop(h, off, plan))
    requires wire == (w0 + h[..off]) + h[off..][..n]
    ensures off + n <= |h|
    ensures wire == w0 + h[..off + n]
    ensures s0 == After(h[..off + n], HeaderLoop(h, off + n, rest))
  {
    HeaderAdvance(s0, h, off, plan, n, rest);
    WireAdvance(w0, h, off, n);
  }

  /** The payload loop: every call is handed the whole payload again, and the loop
      ends once the counts it was told add up to at least the payload's length. */
  function PayloadLoop(p: seq<byte>, total: nat, plan: seq<Step>): (s: Sent)
    decreases |plan|, if total < |p| then |p| - total else 0
  {
    if total >= |p| then Sent(Ok(()), [], plan)
    else
      var Call(c, rest) := SendCall(|p|, plan);
      match c
      case Err(e) => Sent(Err(e), [], rest)
      case Ok(n) => After(p[..n], PayloadLoop(p, total + n, rest))
  }

  /** A failed call ends the payload loop with what was sent before it. */
  lemma PayloadFails(s0: Sent, p: seq<byte>, acc: seq<byte>, total: nat, plan: seq<Step>, e: IoError, rest: seq<Step>)
    requires total < |p| && SendCall(|p|, plan) == Call(Err(e), rest)
    requires s0 == After(acc, PayloadLoop(p, total, plan))
    ensures s0 == Sent(Err(e), acc, rest)
  {
  }

  /** A successful call of the payload loop adds the first bytes of the payload to
      what is on the wire. */
  lemma PayloadAdvance(s0: Sent, p: seq<byte>, acc: seq<byte>, total: nat, plan: seq<Step>, n: nat, rest: seq<Step>)
    requires total < |p| && SendCall(|p|, plan) == Call(Ok(n), rest)
    requires s0 == After(acc, PayloadLoop(p, total, plan))
    ensures n <= |p|
    ensures s0 == After(acc + p[..n], PayloadLoop(p, total + n, rest))
  {
    assert PayloadLoop(p, total, plan) == After(p[..n], PayloadLoop(p, total + n, rest));
    AfterAfter(acc, p[..n], PayloadLoop(p, total + n, rest));
  }

  /** One turn of the payload loop that sent `n` bytes: the wire gains the first `n`
      bytes of the payload and the loop's outcome moves past them. */
  lemma PayloadStep(s0: Sent, p: seq<byte>, acc: seq<byte>, total: nat, plan: seq<Step>, n: nat, rest: seq<Step>, w0: seq<byte>, wire: seq<byte>)
    requires total < |p| && SendCall(|p|, plan) == Call(Ok(n), rest)
    requires s0 == After(acc, PayloadLoop(p, total, plan))
    requires wire == (w0 + acc) + p[..n]
    ensures n <= |p|
    ensures wire == w0 + (acc + p[..n])
    ensures s0 == After(acc + p[..n], PayloadLoop(p, total + n, rest))
  {
    PayloadAdvance(s0, p, acc, total, plan, n, rest);
  }

  /** Everything `send` does with a serialized payload `p`. */
  function SendFrame(p: seq<byte>, plan: seq<Step>): Sent
    requires |p| < U64_LIMIT
  {
    var hs := HeaderLoop(Header(|p|), 0, plan);
    if hs.result.Err? then hs
    else After(hs.wire, PayloadLoop(p, 0, hs.plan))
  }

  /** How a read loop ended: its buffer filled, the peer closed first, or a recv failed. */
  datatype ReadEnd = Filled | Closed | Failed(err: IoError)

  /** What a read loop leaves behind: how it ended, how many pending bytes it consumed,
      and the oracle that remains. */
  datatype Read = Read(end: ReadEnd, consumed: nat, plan: seq<Step>)

  /** The read loop filling `need` bytes of which `got` are already in: it stops with
      Closed on the first recv that yields 0. */
  function ReadLoop(need: nat, got: nat, incoming: seq<byte>, plan: seq<Step>): (r: Read)
    requires got <= need
    ensures r.consumed <= |incoming|
    ensures r.end.Filled? ==> r.consumed == need - got
    decreases |plan|, need - got
  {
    if got == need then Read(Filled, 0, plan)
    else
      var Call(c, rest) := RecvCall(need - got, |incoming|, plan);
      match c
      case Err(e) => Read(Failed(e), 0, rest)
      case Ok(n) =>
        if n == 0 then Read(Closed, 0, rest)
        else
          var r := ReadLoop(need, got + n, incoming[n..], rest);
          r.(consumed := n + r.consumed)
  }

  /** ReadLoop unfolded at a recv that delivered bytes. */
  lemma ReadLoopStep(need: nat, got: nat, incoming: seq<byte>, plan: seq<Step>, n: nat, rest: seq<Step>)
    requires got < need && 0 < n && RecvCall(need - got, |incoming|, plan) == Call(Ok(n), rest)
    ensures n <= need - got && n <= |incoming|
    ensures ReadLoop(need, got, incoming, plan)
         == ReadLoop(need, got + n, incoming[n..], rest).(consumed := n + ReadLoop(need, got + n, incoming[n..], rest).consumed)
  {
  }

  /** How a read loop that already has `got` bytes and goes on from `incoming` and
      `plan` ends, the `got` bytes counted as consumed too. */
  function Resumed(need: nat, got: nat, incoming: seq<byte>, plan: seq<Step>): Read
    requires got <= need
  {
    var rl := ReadLoop(need, got, incoming, plan);
    rl.(consumed := got + rl.consumed)
  }

  /** A recv that fails or yields 0 ends the read loop with what was read before it. */
  lemma ReadLoopStops(r0: Read, need: nat, got: nat, incoming: seq<byte>, plan: seq<Step>, c: Call)
    requires got < need && RecvCall(need - got, |incoming|, plan) == c
    requires c.result.Err? || c.result.value == 0
    requires r0 == Resumed(need, got, incoming, plan)
    ensures r0 == Read(if c.result.Err? then Failed(c.result.error) else Closed, got, c.plan)
  {
  }

  lemma DropDrop(s: seq<byte>, a: nat, b: nat)
    requires a + b <= |s|
    ensures s[a..][b..] == s[a + b..]
  {
  }

  /** The loop invariant of the read loop survives a recv that delivered bytes. */
  lemma ReadLoopAdvance(r0: Read, need: nat, got: nat, incoming: seq<byte>, plan: seq<Step>, n: nat, rest: seq<Step>)
    requires got < need && 0 < n && RecvCall(need - got, |incoming|, plan) == Call(Ok(n), rest)
    requires r0 == Resumed(need, got, incoming, plan)
    ensures n <= need - got && n <= |incoming|
    ensures r0 == Resumed(need, got + n, incoming[n..], rest)
  {
    ReadLoopStep(need, got, incoming, plan, n, rest);
  }

  /** One turn of the read loop that received `n` bytes: the pending input and the
      loop's outcome both move past them. */
  lemma ReadStep(r0: Read, need: nat, got: nat, incoming0: seq<byte>, pending: seq<byte>, plan: seq<Step>, n: nat, rest: seq<Step>, incoming: seq<byte>)
    requires got < need && got <= |incoming0| && pending == incoming0[got..]
    requires 0 < n && RecvCall(need - got, |pending|, plan) == Call(Ok(n), rest)
    requires r0 == Resumed(need, got, pending, plan)
    requires incoming == pending[n..]
    ensures got + n <= need && got + n <= |incoming0|
    ensures incoming == incoming0[got + n..]
    ensures r0 == Resumed(need, got + n, incoming, rest)
  {
    ReadLoopAdvance(r0, need, got, pending, plan, n, rest);
    DropDrop(incoming0, got, n);
  }

  /** The bytes a recv copies in extend the filled prefix of the buffer. */
  lemma FillStep(b0: seq<byte>, b1: seq<byte>, total: nat, n: nat, incoming0: seq<byte>)
    requires total + n <= |b0| && total + n <= |incoming0|
    requires b0[..total] == incoming0[..total]
    requires b1 == b0[..total] + incoming0[total..][..n] + b0[total + n..]
    ensures b1[..total + n] == incoming0[..total + n]
  {
    assert b1[..total + n] == b0[..total] + incoming0[total..][..n];
    assert incoming0[..total + n] == incoming0[..total] + incoming0[total..][..n];
  }

  /** What `receive` leaves behind before deserialization: the payload, None if the
      peer closed first, or the error; or the capacity-overflow panic of a header that
      announces more than a buffer can hold. Both carry the bytes consumed and the
      oracle left. */
  datatype Received =
    | Received(result: Result<Option<seq<byte>>, IoError>, consumed: nat, plan: seq<Step>)
    | Oversized(consumed: nat, plan: seq<Step>)

  function ReceiveFrame(incoming: seq<byte>, plan: seq<Step>): (r: Received)
    ensures r.consumed <= |incoming|
    ensures r.Oversized? <==>
      (ReadLoop(HEADER_LEN, 0, incoming, plan).end == Filled &&
       |incoming| >= HEADER_LEN && LeDecode(incoming[..HEADER_LEN]) >= ALLOC_LIMIT)
    ensures r.Oversized? ==> r.consumed == HEADER_LEN && r.plan == ReadLoop(HEADER_LEN, 0, incoming, plan).plan
  {
    var hr := ReadLoop(HEADER_LEN, 0, incoming, plan);
    match hr.end
    case Failed(e) => Received(Err(e), hr.consumed, hr.plan)
    case Closed => Received(Ok(None), hr.consumed, hr.plan)
    case Filled =>
      var len := LeDecode(incoming[..HEADER_LEN]);
      if len >= ALLOC_LIMIT then Oversized(HEADER_LEN, hr.plan)
      else
      var body := incoming[HEADER_LEN..];
      var br := ReadLoop(len, 0, body, hr.plan);
      match br.end
      case Failed(e) => Received(Err(e), HEADER_LEN + br.consumed, br.plan)
      case Closed => Received(Ok(None), HEADER_LEN + br.consumed, br.plan)
      case Filled => Received(Ok(Some(body[..len])), HEADER_LEN + len, br.plan)
  }

  /** What `receive` ends in: the value it returns, or the capacity-overflow panic. */
  datatype Reception<T> = Returned(value: Result<Option<T>, IoError>) | CapacityOverflow

  /** The deserialization step of `receive`: a payload the parser rejects is an error. */
  function Decoded<T>(r: Received, parse: seq<byte> -> Option<T>): Reception<T>
  {
    match r
    case Oversized(_, _) => CapacityOverflow
    case Received(Err(e), _, _) => Returned(Err(e))
    case Received(Ok(None), _, _) => Returned(Ok(None))
    case Received(Ok(Some(p)), _, _) =>
      Returned(if parse(p).Some? then Ok(Some(parse(p).value)) else Err(InvalidData))
  }

  /** An oracle under which every recv delivers at least one byte and none fails. */
  predicate Steady(plan: seq<Step>)
  {
    forall i :: 0 <= i < |plan| ==> plan[i].Transfer? && plan[i].limit > 0
  }

  // ---------------------------------------------------------------------------
  // The properties of the framing.

  /** Whatever the chunking, a header loop that succeeds has put exactly the unsent
      part of the header on the wire. */
  lemma {:induction false} HeaderLoopSendsRest(h: seq<byte>, off: nat, plan: seq<Step>)
    requires off <= |h|
    ensures HeaderLoop(h, off, plan).result.Ok? ==> HeaderLoop(h, off, plan).wire == h[off..]
    decreases |plan|, |h| - off
  {
    if off < |h| {
      var Call(c, rest) := SendCall(|h| - off, plan);
      if c.Ok? {
        HeaderLoopSendsRest(h, off + c.value, rest);
        assert h[off..off + c.value] + h[off + c.value..] == h[off..];
      }
    }
  }

  /** The header loop fails only if the oracle names a failure. */
  lemma {:induction false} HeaderLoopFailsOnlyOnFail(h: seq<byte>, off: nat, plan: seq<Step>)
    requires off <= |h|
    requires forall i :: 0 <= i < |plan| ==> plan[i].Transfer?
    ensures HeaderLoop(h, off, plan).result.Ok?
    decreases |plan|, |h| - off
  {
    if off < |h| {
      var Call(c, rest) := SendCall(|h| - off, plan);
      HeaderLoopFailsOnlyOnFail(h, off + c.value, rest);
    }
  }

  /** When the first payload call accepts the whole payload, the wire carries exactly
      header ++ payload. */
  lemma FullWritesGiveFrame(p: seq<byte>, plan: seq<Step>)
    requires |p| < U64_LIMIT
    requires AllTransfers(plan, |p|)
    ensures SendFrame(p, plan).result.Ok?
    ensures SendFrame(p, plan).wire == Header(|p|) + p
  {
    var h := Header(|p|);
    HeaderLoopFailsOnlyOnFail(h, 0, plan);
    HeaderLoopSendsRest(h, 0, plan);
    AllTransfersSuffix(h, 0, plan, |p|);
    var hs := HeaderLoop(h, 0, plan);
    assert hs.wire == h;
    var ps := PayloadLoop(p, 0, hs.plan);
    if |p| > 0 {
      var Call(c, rest) := SendCall(|p|, hs.plan);
      assert c == Ok(|p|);
      assert p[..|p|] == p;
      assert ps == After(p, PayloadLoop(p, |p|, rest));
      assert ps.result.Ok? && ps.wire == p;
    } else {
      assert ps.wire == [] == p;
    }
    assert SendFrame(p, plan) == After(hs.wire, ps);
  }

  /** An oracle under which every send writes at least `bound` bytes and none fails. */
  predicate AllTransfers(q: seq<Step>, bound: nat)
  {
    forall i :: 0 <= i < |q| ==> q[i].Transfer? && q[i].limit >= bound
  }

  /** The header loop hands on a suffix of its oracle. */
  lemma {:induction false} AllTransfersSuffix(h: seq<byte>, off: nat, plan: seq<Step>, bound: nat)
    requires off <= |h|
    requires AllTransfers(plan, bound)
    ensures AllTransfers(HeaderLoop(h, off, plan).plan, bound)
    decreases |plan|, |h| - off
  {
    if off < |h| {
      var Call(c, rest) := SendCall(|h| - off, plan);
      assert c.Ok?;
      assert AllTransfers(rest, bound) by {
        assert forall i :: 0 <= i < |rest| ==> rest[i] == plan[i + 1];
      }
      AllTransfersSuffix(h, off + c.value, rest, bound);
      assert HeaderLoop(h, off, plan) == After(h[off..off + c.value], HeaderLoop(h, off + c.value, rest));
    }
  }

  /** The payload loop's quirk: when the first payload call writes only its first `n`
      bytes and the next one writes whole buffers, the whole payload follows those `n`
      bytes again, so the peer sees the payload's first `n` bytes twice. */
  lemma PartialPayloadIsResent(p: seq<byte>, h: nat, n: nat, k: nat, later: seq<Step>)
    requires |p| < U64_LIMIT && 0 < n < |p| && k >= |p| && h >= HEADER_LEN
    ensures var s := SendFrame(p, [Transfer(h), Transfer(n), Transfer(k)] + later);
      s.result == Ok(()) && s.wire == Header(|p|) + p[..n] + p && s.plan == later
    ensures Header(|p|) + p[..n] + p != Header(|p|) + p
  {
    var hd := Header(|p|);
    var plan := [Transfer(h), Transfer(n), Transfer(k)] + later;
    var rest := [Transfer(n), Transfer(k)] + later;
    var rest2 := [Transfer(k)] + later;
    assert plan[1..] == rest && rest[1..] == rest2 && rest2[1..] == later;
    assert HeaderLoop(hd, HEADER_LEN, rest) == Sent(Ok(()), [], rest);
    assert HeaderLoop(hd, 0, plan) == Sent(Ok(()), hd, rest) by {
      assert hd[0..HEADER_LEN] == hd;
    }
    assert PayloadLoop(p, n + |p|, later) == Sent(Ok(()), [], later);
    assert PayloadLoop(p, n, rest2) == After(p, PayloadLoop(p, n + |p|, later)) by {
      assert p[..|p|] == p;
    }
    assert PayloadLoop(p, 0, rest) == After(p[..n], PayloadLoop(p, n, rest2));
    assert |hd + p[..n] + p| != |hd + p|;
  }

  /** The smallest instance: a two-byte payload whose first write takes one byte. */
  lemma PartialPayloadExample()
    ensures SendFrame([7, 9], [Transfer(8), Transfer(1), Transfer(2)]).result == Ok(())
    ensures SendFrame([7, 9], [Transfer(8), Transfer(1), Transfer(2)]).wire == Header(2) + [7] + [7, 9]
  {
    PartialPayloadIsResent([7, 9], 8, 1, 2, []);
    assert [Transfer(8), Transfer(1), Transfer(2)] + [] == [Transfer(8), Transfer(1), Transfer(2)];
    assert [7, 9][..1] == [7];
  }

  /** A read loop that fills its buffer consumed exactly the bytes it needed. */
  lemma {:induction false} ReadLoopFills(need: nat, got: nat, incoming: seq<byte>, plan: seq<Step>)
    requires got <= need
    requires need - got <= |incoming|
    requires Steady(plan)
    ensures ReadLoop(need, got, incoming, plan).end == Filled
    decreases |plan|, need - got
  {
    if got < need {
      var Call(c, rest) := RecvCall(need - got, |incoming|, plan);
      assert Steady(rest);
      ReadLoopFills(need, got + c.value, incoming[c.value..], rest);
    }
  }

  /** A complete frame arriving under a steady oracle is received as its payload,
      consuming exactly the frame and leaving what follows it, unless its length is
      beyond what a buffer can hold; then the header alone is read and `receive`
      panics. */
  lemma FrameRoundTrip(p: seq<byte>, after: seq<byte>, plan: seq<Step>)
    requires |p| < U64_LIMIT
    requires Steady(plan)
    ensures var r := ReceiveFrame(Header(|p|) + p + after, plan);
      if |p| < ALLOC_LIMIT then r.Received? && r.result == Ok(Some(p)) && r.consumed == HEADER_LEN + |p|
      else r.Oversized? && r.consumed == HEADER_LEN
  {
    var h := Header(|p|);
    var incoming := h + p + after;
    assert incoming[..HEADER_LEN] == h;
    assert incoming[HEADER_LEN..] == p + after;
    ReadLoopFills(HEADER_LEN, 0, incoming, plan);
    if |p| < ALLOC_LIMIT {
      ReadLoopKeepsSteady(HEADER_LEN, 0, incoming, plan);
      var hr := ReadLoop(HEADER_LEN, 0, incoming, plan);
      ReadLoopFills(|p|, 0, p + after, hr.plan);
      assert (p + after)[..|p|] == p;
    }
  }

  lemma {:induction false} ReadLoopKeepsSteady(need: nat, got: nat, incoming: seq<byte>, plan: seq<Step>)
    requires got <= need
    requires Steady(plan)
    ensures Steady(ReadLoop(need, got, incoming, plan).plan)
    decreases |plan|, need - got
  {
    if got < need {
      var Call(c, rest) := RecvCall(need - got, |incoming|, plan);
      assert Steady(rest);
      if c.Ok? && c.value > 0 {
        ReadLoopKeepsSteady(need, got + c.value, incoming[c.value..], rest);
      }
    }
  }

  /** A receive that hands back a payload read exactly one frame: a header announcing
      the payload's length, then the payload. */
  lemma {:induction false} ReceivedIsFrame(incoming: seq<byte>, plan: seq<Step>)
    ensures var r := ReceiveFrame(incoming, plan);
      r.Received? && r.result.Ok? && r.result.value.Some? ==>
        var p := r.result.value.value;
        r.consumed == HEADER_LEN + |p| && LeDecode(incoming[..HEADER_LEN]) == |p| &&
        incoming[..r.consumed] == incoming[..HEADER_LEN] + p
  {
    var r := ReceiveFrame(incoming, plan);
    if r.Received? && r.result.Ok? && r.result.value.Some? {
      var p := r.result.value.value;
      assert incoming[..HEADER_LEN + |p|] == incoming[..HEADER_LEN] + incoming[HEADER_LEN..][..|p|];
    }
  }

  /** Sending then receiving a message gives it back when the socket writes whole
      buffers and reads steadily, provided parse inverts serialize on it and the
      serialized message fits a buffer; a longer one makes the receiver panic. */
  lemma SendReceiveRoundTrip<T>(m: T, serialize: T -> seq<byte>, parse: seq<byte> -> Option<T>,
                                sendPlan: seq<Step>, recvPlan: seq<Step>)
    requires |serialize(m)| < U64_LIMIT
    requires parse(serialize(m)) == Some(m)
    requires AllTransfers(sendPlan, |serialize(m)|)
    requires Steady(recvPlan)
    ensures var s := SendFrame(serialize(m), sendPlan);
      s.result.Ok? &&
      Decoded(ReceiveFrame(s.wire, recvPlan), parse) ==
        if |serialize(m)| < ALLOC_LIMIT then Returned(Ok(Some(m))) else CapacityOverflow
  {
    var p := serialize(m);
    FullWritesGiveFrame(p, sendPlan);
    FrameRoundTrip(p, [], recvPlan);
    assert Header(|p|) + p + [] == Header(|p|) + p;
  }

  /** The repository's own test: the value 42, serialized as the two bytes "42",
      travels as a ten-byte frame and comes back as 42. */
  lemma FortyTwo()
    ensures Header(2) == [2, 0, 0, 0, 0, 0, 0, 0]
    ensures var r := ReceiveFrame([2, 0, 0, 0, 0, 0, 0, 0, 0x34, 0x32], []);
      r.Received? && r.result == Ok(Some([0x34, 0x32]))
  {
    assert LeEncode(2, 8) == [2, 0, 0, 0, 0, 0, 0, 0];
    FrameRoundTrip([0x34, 0x32], [], []);
    assert Header(2) + [0x34, 0x32] + [] == [2, 0, 0, 0, 0, 0, 0, 0, 0x34, 0x32];
  }

  /** A header whose last byte is 0x80 or more announces at least 2^63 bytes: the
      header is read, and `receive` panics before any payload recv, whatever the
      parser. */
  lemma OversizedHeaderPanics<T>(h: seq<byte>, rest: seq<byte>, plan: seq<Step>, parse: seq<byte> -> Option<T>)
    requires |h| == HEADER_LEN && h[7] >= 0x80
    requires Steady(plan)
    ensures var r := ReceiveFrame(h + rest, plan);
      r == Oversized(HEADER_LEN, r.plan) && Decoded(r, parse) == CapacityOverflow
  {
    var incoming := h + rest;
    assert incoming[..HEADER_LEN] == h;
    ReadLoopFills(HEADER_LEN, 0, incoming, plan);
    LeDecodeTop(h);
    assert Pow256(7) == 0x100_0000_0000_0000;
  }

  /** The last byte of a little-endian number weighs 256^(n-1). */
  lemma {:induction false} LeDecodeTop(b: seq<byte>)
    requires |b| > 0
    ensures LeDecode(b) >= b[|b| - 1] * Pow256(|b| - 1)
  {
    if |b| > 1 {
      LeDecodeTop(b[1..]);
      var top, w := b[|b| - 1], Pow256(|b| - 2);
      assert b[1..][|b| - 2] == top;
      assert 256 * (top * w) == top * (256 * w);
    }
  }

  // ---------------------------------------------------------------------------
  // The socket and the connection.

  /** A connected stream socket: the bytes it has sent, the bytes the peer has sent
      that are still to be read, and the oracles deciding each syscall. */
  class Socket {
    var wire: seq<byte>
    var sendPlan: seq<Step>
    var incoming: seq<byte>
    var recvPlan: seq<Step>

    constructor (incoming: seq<byte>, sendPlan: seq<Step>, recvPlan: seq<Step>)
      ensures this.wire == [] && this.incoming == incoming
      ensures this.sendPlan == sendPlan && this.recvPlan == recvPlan
    {
      this.wire := [];
      this.incoming := incoming;
      this.sendPlan := sendPlan;
      this.recvPlan := recvPlan;
    }

    /** `send(fd, buf, flags)`. */
    method Send(buf: seq<byte>) returns (r: Result<nat, IoError>)
      modifies this
      ensures Call(r, sendPlan) == SendCall(|buf|, old(sendPlan))
      ensures wire == old(wire) + (if r.Ok? then buf[..r.value] else [])
      ensures incoming == old(incoming) && recvPlan == old(recvPlan)
    {
      var c := SendCall(|buf|, sendPlan);
      r, sendPlan := c.result, c.plan;
      if r.Ok? {
        wire := wire + buf[..r.value];
      }
    }

    /** `recv(fd, &mut buf[from..], flags)`. */
    method Recv(buf: array<byte>, from: nat) returns (r: Result<nat, IoError>)
      requires from <= buf.Length
      modifies this, buf
      ensures Call(r, recvPlan) == RecvCall(buf.Length - from, |old(incoming)|, old(recvPlan))
      ensures r.Ok? ==> incoming == old(incoming)[r.value..]
      ensures r.Err? ==> incoming == old(incoming)
      ensures r.Err? ==> buf[..] == old(buf[..])
      ensures r.Ok? ==> buf[..] == old(buf[..])[..from] + old(incoming)[..r.value] + old(buf[..])[from + r.value..]
      ensures wire == old(wire) && sendPlan == old(sendPlan)
    {
      var c := RecvCall(buf.Length - from, |incoming|, recvPlan);
      r, recvPlan := c.result, c.plan;
      if r.Ok? {
        var n := r.value;
        forall j | from <= j < from + n {
          buf[j] := incoming[j - from];
        }
        assert buf[..] == old(buf[..])[..from] + incoming[..n] + old(buf[..])[from + n..];
        incoming := incoming[n..];
      }
    }
  }

  /** One end of a client/daemon connection; `fd` is its identity. */
  class Connection {
    const fd: nat
    const socket: Socket

    constructor (fd: nat, socket: Socket)
      ensures this.fd == fd && this.socket == socket
    {
      this.fd := fd;
      this.socket := socket;
    }

    /** `Connection::send`: serialize, write the header, then the payload. Errors of
        either syscall loop are returned at once. */
    method Send<T>(message: T, serialize: T -> seq<byte>) returns (r: Result<(), IoError>)
      requires |serialize(message)| < U64_LIMIT
      modifies socket
      ensures var s := SendFrame(serialize(message), old(socket.sendPlan));
        r == s.result && socket.wire == old(socket.wire) + s.wire && socket.sendPlan == s.plan
      ensures socket.incoming == old(socket.incoming) && socket.recvPlan == old(socket.recvPlan)
    {
      var json := serialize(message);
      var sizeBuf := Header(|json|);
      r := SendHeader(sizeBuf);
      if r.Err? {
        return;
      }
      r := SendPayload(json);
    }

    /** The header loop of `send`: each call is handed the unsent rest of the header. */
    method SendHeader(sizeBuf: seq<byte>) returns (r: Result<(), IoError>)
      modifies socket
      ensures var s := HeaderLoop(sizeBuf, 0, old(socket.sendPlan));
        r == s.result && socket.wire == old(socket.wire) + s.wire && socket.sendPlan == s.plan
      ensures socket.incoming == old(socket.incoming) && socket.recvPlan == old(socket.recvPlan)
    {
      ghost var wire0 := socket.wire;
      ghost var plan0 := socket.sendPlan;
      ghost var s0 := HeaderLoop(sizeBuf, 0, plan0);
      var total: nat := 0;
      ghost var plan, wire := plan0, wire0;
      while total < |sizeBuf|
        invariant total <= |sizeBuf|
        invariant socket.sendPlan == plan && socket.wire == wire
        invariant wire == wire0 + sizeBuf[..total]
        invariant s0 == After(sizeBuf[..total], HeaderLoop(sizeBuf, total, plan))
        invariant socket.incoming == old(socket.incoming) && socket.recvPlan == old(socket.recvPlan)
        decreases |plan|, |sizeBuf| - total
      {
        var n := socket.Send(sizeBuf[total..]);
        if n.Err? {
          HeaderFails(s0, sizeBuf, total, plan, n.error, socket.sendPlan);
          return Err(n.error);
        }
        HeaderStep(s0, sizeBuf, total, plan, n.value, socket.sendPlan, wire0, socket.wire);
        plan, wire := socket.sendPlan, socket.wire;
        total := total + n.value;
      }
      HeaderDone(s0, sizeBuf, plan);
      return Ok(());
    }

    /** The payload loop of `send`: each call is handed the whole payload. */
    method SendPayload(buf: seq<byte>) returns (r: Result<(), IoError>)
      modifies socket
      ensures var s := PayloadLoop(buf, 0, old(socket.sendPlan));
        r == s.result && socket.wire == old(socket.wire) + s.wire && socket.sendPlan == s.plan
      ensures socket.incoming == old(socket.incoming) && socket.recvPlan == old(socket.recvPlan)
    {
      ghost var wire0 := socket.wire;
      ghost var plan0 := socket.sendPlan;
      ghost var s0 := PayloadLoop(buf, 0, plan0);
      ghost var acc: seq<byte> := [];
      var total: nat := 0;
      ghost var plan := plan0;
      while total < |buf|
        invariant socket.sendPlan == plan && socket.wire == wire0 + acc
        invariant s0 == After(acc, PayloadLoop(buf, total, plan))
        invariant socket.incoming == old(socket.incoming) && socket.recvPlan == old(socket.recvPlan)
        decreases |plan|, if total < |buf| then |buf| - total else 0
      {
        var n := socket.Send(buf);
        if n.Err? {
          PayloadFails(s0, buf, acc, total, plan, n.error, socket.sendPlan);
          return Err(n.error);
        }
        PayloadStep(s0, buf, acc, total, plan, n.value, socket.sendPlan, wire0, socket.wire);
        plan := socket.sendPlan;
        acc := acc + buf[..n.value];
        total := total + n.value;
      }
      return Ok(());
    }

    /** `Connection::receive`: read the 8 header bytes, then as many payload bytes as
        the header announces, then deserialize. A recv yielding 0 bytes means None; a
        length beyond what a buffer can hold is the panic of `vec!`. */
    method Receive<T>(parse: seq<byte> -> Option<T>) returns (r: Reception<T>)
      modifies socket
      ensures var o := ReceiveFrame(old(socket.incoming), old(socket.recvPlan));
        r == Decoded(o, parse) &&
        socket.incoming == old(socket.incoming)[o.consumed..] && socket.recvPlan == o.plan
      ensures socket.wire == old(socket.wire) && socket.sendPlan == old(socket.sendPlan)
    {
      ghost var incoming0 := socket.incoming;
      ghost var hr := ReadLoop(HEADER_LEN, 0, socket.incoming, socket.recvPlan);
      var sizeBuf := new byte[HEADER_LEN];
      var end := ReadInto(sizeBuf);
      if end.Failed? {
        return Returned(Err(end.err));
      }
      if end.Closed? {
        return Returned(Ok(None));
      }
      var len := LeDecode(sizeBuf[..]);
      if len >= ALLOC_LIMIT {
        return CapacityOverflow;
      }
      ghost var body := incoming0[HEADER_LEN..];
      assert socket.incoming == body;
      ghost var br := ReadLoop(len, 0, body, socket.recvPlan);
      var messageBuf := new byte[len];
      end := ReadInto(messageBuf);
      if end.Failed? {
        return Returned(Err(end.err));
      }
      if end.Closed? {
        return Returned(Ok(None));
      }
      var payload := messageBuf[..];
      assert payload == body[..len];
      assert incoming0[HEADER_LEN + len..] == body[len..];
      var message := parse(payload);
      if message.None? {
        return Returned(Err(InvalidData));
      }
      return Returned(Ok(Some(message.value)));
    }

    /** One read loop of `receive`: recv into the unfilled rest of `buf` until it is
        full, stopping at the first recv that fails or yields 0. */
    method ReadInto(buf: array<byte>) returns (end: ReadEnd)
      modifies socket, buf
      ensures var rl := ReadLoop(buf.Length, 0, old(socket.incoming), old(socket.recvPlan));
        end == rl.end && socket.incoming == old(socket.incoming)[rl.consumed..] && socket.recvPlan == rl.plan
      ensures end == Filled ==> buf[..] == old(socket.incoming)[..buf.Length]
      ensures socket.wire == old(socket.wire) && socket.sendPlan == old(socket.sendPlan)
    {
      ghost var incoming0 := socket.incoming;
      ghost var r0 := ReadLoop(buf.Length, 0, incoming0, socket.recvPlan);
      var total: nat := 0;
      while total < buf.Length
        invariant total <= buf.Length && total <= |incoming0|
        invariant socket.incoming == incoming0[total..]
        invariant buf[..total] == incoming0[..total]
        invariant r0 == Resumed(buf.Length, total, socket.incoming, socket.recvPlan)
        invariant socket.wire == old(socket.wire) && socket.sendPlan == old(socket.sendPlan)
        decreases |socket.recvPlan|, buf.Length - total
      {
        var read := RecvMore(buf, total, r0, incoming0);
        if read.Err? || read.value == 0 {
          return if read.Err? then Failed(read.error) else Closed;
        }
        total := total + read.value;
      }
      assert buf[..] == incoming0[..buf.Length];
      return Filled;
    }

    /** One turn of the read loop: a recv into `buf[total..]`, with what it does to
        the outcome of the loop and to the filled prefix of `buf`. */
    method RecvMore(buf: array<byte>, total: nat, ghost r0: Read, ghost incoming0: seq<byte>) returns (read: Result<nat, IoError>)
      requires total < buf.Length && total <= |incoming0|
      requires socket.incoming == incoming0[total..] && buf[..total] == incoming0[..total]
      requires r0 == Resumed(buf.Length, total, socket.incoming, socket.recvPlan)
      modifies socket, buf
      ensures read.Err? || read.value == 0 ==>
        r0 == Read(if read.Err? then Failed(read.error) else Closed, total, socket.recvPlan) &&
        socket.incoming == old(socket.incoming)
      ensures read.Ok? && read.value > 0 ==> var n := read.value;
        total + n <= buf.Length && total + n <= |incoming0| &&
        socket.incoming == incoming0[total + n..] && buf[..total + n] == incoming0[..total + n] &&
        r0 == Resumed(buf.Length, total + n, socket.incoming, socket.recvPlan) &&
        (|socket.recvPlan| < |old(socket.recvPlan)| || socket.recvPlan == old(socket.recvPlan) == [])
      ensures socket.wire == old(socket.wire) && socket.sendPlan == old(socket.sendPlan)
    {
      ghost var pending, plan, b0 := socket.incoming, socket.recvPlan, buf[..];
      read := socket.Recv(buf, total);
      if read.Err? || read.value == 0 {
        ReadLoopStops(r0, buf.Length, total, pending, plan, Call(read, socket.recvPlan));
        return;
      }
      ReadStep(r0, buf.Length, total, incoming0, pending, plan, read.value, socket.recvPlan, socket.incoming);
      FillStep(b0, buf[..], total, read.value, incoming0);
    }
  }
}
