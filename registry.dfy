/** The server's client registry (`CLIENTS` in src/server/main.rs): the connected
    clients in connection order, and the sends made to them. */
module Registry {
  import opened Text
  import opened Message

  /** A client is known by its connection's file descriptor. */
  type ClientId = nat

  /** One message handed to one client's connection. */
  datatype Delivery = Delivery(client: ClientId, message: ServerMessage)

  /** Why a handler returned an error. */
  datatype Failure = SendFailed(client: ClientId) | FileNotFound(path: string)

  /** Why a handler panicked: an absent client, `open` without a file name, a bare
      `write` with no current path, a command missing in Command mode, or a u16
      counter of the renderer overflowing. */
  datatype Panic = ClientNotFound | MissingFileName | NoPathToWrite | CommandMissing | CounterOverflow

  /** What a handler returns: `Ok(())`, an `Err` it propagated, or a panic. */
  datatype Outcome = Done | Failed(failure: Failure) | Panicked(panic: Panic)

  /** How many clients, from the front, a broadcast reaches before the first client
      whose connection fails. */
  function Reach(cs: seq<ClientId>, failing: set<ClientId>): (k: nat)
    ensures k <= |cs|
    ensures forall j :: 0 <= j < k ==> cs[j] !in failing
    ensures k < |cs| ==> cs[k] in failing
  {
    if cs == [] then 0
    else if cs[0] in failing then 0
    else 1 + Reach(cs[1..], failing)
  }

  /** The same message handed to each of `cs`, in order. */
  function Addressed(cs: seq<ClientId>, m: ServerMessage): (ds: seq<Delivery>)
    ensures |ds| == |cs|
    ensures forall j :: 0 <= j < |cs| ==> ds[j] == Delivery(cs[j], m)
  {
    seq(|cs|, j requires 0 <= j < |cs| => Delivery(cs[j], m))
  }

  /** The messages client `c` was handed, in order. */
  function Inbox(ds: seq<Delivery>, c: ClientId): seq<ServerMessage>
  {
    if ds == [] then []
    else Inbox(ds[..|ds| - 1], c) + (if ds[|ds| - 1].client == c then [ds[|ds| - 1].message] else [])
  }

  lemma {:induction false} InboxAppend(a: seq<Delivery>, b: seq<Delivery>, c: ClientId)
    ensures Inbox(a + b, c) == Inbox(a, c) + Inbox(b, c)
    decreases |b|
  {
    if b == [] {
      assert a + b == a;
    } else {
      assert (a + b)[..|a + b| - 1] == a + b[..|b| - 1];
      InboxAppend(a, b[..|b| - 1], c);
    }
  }

  function Occurrences(cs: seq<ClientId>, c: ClientId): nat
  {
    multiset(cs)[c]
  }

  /** A broadcast hands a client its message once for each time it is registered. */
  lemma {:induction false} InboxOfAddressed(cs: seq<ClientId>, m: ServerMessage, c: ClientId)
    ensures Inbox(Addressed(cs, m), c) == seq(Occurrences(cs, c), _ => m)
    decreases |cs|
  {
    if cs != [] {
      var init := cs[..|cs| - 1];
      assert cs == init + [Last(cs)];
      assert Addressed(cs, m)[..|cs| - 1] == Addressed(init, m);
      InboxOfAddressed(init, m, c);
      assert multiset(cs) == multiset(init) + multiset{Last(cs)};
    }
  }

  /** Where `c` is first registered. */
  function FirstIndex(cs: seq<ClientId>, c: ClientId): (k: nat)
    requires c in cs
    ensures k < |cs| && cs[k] == c && c !in cs[..k]
  {
    if cs[0] == c then 0
    else
      var k := 1 + FirstIndex(cs[1..], c);
      assert cs[..k] == [cs[0]] + cs[1..][..k - 1];
      k
  }

  /** `Vec::swap_remove(i)`: entry `i` is overwritten by the last entry, which is then
      dropped; every other entry keeps its place. */
  function SwapRemove(cs: seq<ClientId>, i: nat): (r: seq<ClientId>)
    requires i < |cs|
    ensures |r| == |cs| - 1
    ensures forall k :: 0 <= k < |r| ==> r[k] == if k == i then Last(cs) else cs[k]
  {
    cs[i := Last(cs)][..|cs| - 1]
  }

  /** swap_remove removes exactly the one entry: the rest is a permutation of what the
      other entries were. */
  lemma SwapRemovePermutes(cs: seq<ClientId>, i: nat)
    requires i < |cs|
    ensures multiset(SwapRemove(cs, i)) == multiset(cs) - multiset{cs[i]}
  {
    var n := |cs| - 1;
    if i == n {
      assert SwapRemove(cs, i) == cs[..n];
      assert cs == cs[..n] + [cs[n]];
    } else {
      SwapRemoveSplit(cs, i);
      MovedLast(cs[..i], cs[i], cs[i + 1..n], cs[n]);
    }
  }

  /** Removing an entry before the last: the last entry takes its place. */
  lemma SwapRemoveSplit(cs: seq<ClientId>, i: nat)
    requires i < |cs| - 1
    ensures cs == cs[..i] + [cs[i]] + cs[i + 1..|cs| - 1] + [cs[|cs| - 1]]
    ensures SwapRemove(cs, i) == cs[..i] + [cs[|cs| - 1]] + cs[i + 1..|cs| - 1]
  {
  }

  /** Moving the last element into the place of `x` loses `x` and nothing else. */
  lemma MovedLast(before: seq<ClientId>, x: ClientId, mid: seq<ClientId>, y: ClientId)
    ensures multiset(before + [y] + mid) == multiset(before + [x] + mid + [y]) - multiset{x}
  {
  }

  /** What the sends of a list of messages hand over, and how they end. */
  datatype Fan = Fan(deliveries: seq<Delivery>, outcome: Outcome)

  /** The `for` loop of `send_update`: broadcast each message in turn and stop at the
      first broadcast that fails. */
  function FanOut(msgs: seq<ServerMessage>, members: seq<ClientId>, failing: set<ClientId>): (f: Fan)
    ensures f.outcome.Done? || f.outcome.Failed?
  {
    if msgs == [] then Fan([], Done)
    else
      var prior := FanOut(msgs[..|msgs| - 1], members, failing);
      if !prior.outcome.Done? then prior
      else
        var k := Reach(members, failing);
        Fan(prior.deliveries + Addressed(members[..k], Last(msgs)),
            if k < |members| then Failed(SendFailed(members[k])) else Done)
  }

  /** With no broken connection, every message goes to every client, and a client
      registered once receives exactly the messages, in order. */
  lemma {:induction false} FanOutReachesAll(msgs: seq<ServerMessage>, members: seq<ClientId>, failing: set<ClientId>, c: ClientId)
    requires Reach(members, failing) == |members|
    requires Occurrences(members, c) == 1
    ensures FanOut(msgs, members, failing).outcome == Done
    ensures Inbox(FanOut(msgs, members, failing).deliveries, c) == msgs
    decreases |msgs|
  {
    if msgs != [] {
      var init := msgs[..|msgs| - 1];
      FanOutReachesAll(init, members, failing, c);
      var prior := FanOut(init, members, failing);
      assert members[..|members|] == members;
      InboxAppend(prior.deliveries, Addressed(members, Last(msgs)), c);
      InboxOfAddressed(members, Last(msgs), c);
      assert seq(1, _ => Last(msgs)) == [Last(msgs)];
      assert init + [Last(msgs)] == msgs;
    }
  }

  /** With a broken connection, only the first message is sent, and only to the
      clients in front of the first broken one; the error names that client. */
  lemma {:induction false} FanOutStopsAtFirstFailure(msgs: seq<ServerMessage>, members: seq<ClientId>, failing: set<ClientId>)
    requires Reach(members, failing) < |members| && msgs != []
    ensures var k := Reach(members, failing);
      FanOut(msgs, members, failing) == Fan(Addressed(members[..k], msgs[0]), Failed(SendFailed(members[k])))
    decreases |msgs|
  {
    if |msgs| > 1 {
      var init := msgs[..|msgs| - 1];
      FanOutStopsAtFirstFailure(init, members, failing);
      assert init[0] == msgs[0];
    } else {
      assert msgs[..0] == [];
    }
  }

  /** Once a broadcast has failed, the later messages change nothing. */
  lemma {:induction false} FanOutKeepsFailure(msgs: seq<ServerMessage>, i: nat, members: seq<ClientId>, failing: set<ClientId>)
    requires i <= |msgs| && !FanOut(msgs[..i], members, failing).outcome.Done?
    ensures FanOut(msgs, members, failing) == FanOut(msgs[..i], members, failing)
    decreases |msgs| - i
  {
    if i < |msgs| {
      assert msgs[..i + 1][..i] == msgs[..i];
      FanOutKeepsFailure(msgs, i + 1, members, failing);
    } else {
      assert msgs[..i] == msgs;
    }
  }

  /** One turn of the `for` loop of `send_update`, after messages before `j` all went
      out: the fan-out now covers message `j` as well. */
  lemma FanOutStep(msgs: seq<ServerMessage>, j: nat, members: seq<ClientId>, failing: set<ClientId>, sent: seq<Delivery>, o: Outcome)
    requires j < |msgs| && FanOut(msgs[..j], members, failing) == Fan(sent, Done)
    requires o == if Reach(members, failing) < |members|
      then Failed(SendFailed(members[Reach(members, failing)])) else Done
    ensures FanOut(msgs[..j + 1], members, failing)
         == Fan(sent + Addressed(members[..Reach(members, failing)], msgs[j]), o)
  {
    assert msgs[..j + 1][..j] == msgs[..j];
  }

  /** The registry: `Vec<ConnectedClient>` plus the log of what was sent through it.
      Which connections are broken is fixed when the registry is made: a send to a
      client in `failing` returns an error and hands over nothing. */
  class Clients {
    var members: seq<ClientId>
    var delivered: seq<Delivery>
    const failing: set<ClientId>

    constructor (failing: set<ClientId>)
      ensures members == [] && delivered == [] && this.failing == failing
    {
      members := [];
      delivered := [];
      this.failing := failing;
    }

    /** `connect_client`: the new client goes to the back of the registry. */
    method Connect(c: ClientId)
      modifies this
      ensures members == old(members) + [c]
      ensures delivered == old(delivered)
    {
      members := members + [c];
    }

    /** `broadcast`: sends `m` to each client in registry order and returns the first
        error, so that no later client receives `m`. */
    method Broadcast(m: ServerMessage) returns (o: Outcome)
      modifies this
      ensures members == old(members)
      ensures delivered == old(delivered) + Addressed(members[..Reach(members, failing)], m)
      ensures o == if Reach(members, failing) < |members|
        then Failed(SendFailed(members[Reach(members, failing)])) else Done
    {
      var i := 0;
      while i < |members|
        invariant 0 <= i <= |members|
        invariant members == old(members)
        invariant forall j :: 0 <= j < i ==> members[j] !in failing
        invariant delivered == old(delivered) + Addressed(members[..i], m)
      {
        var c := members[i];
        if c in failing {
          ReachIs(members, failing, i);
          return Failed(SendFailed(c));
        }
        assert Addressed(members[..i + 1], m) == Addressed(members[..i], m) + [Delivery(c, m)];
        delivered := delivered + [Delivery(c, m)];
        i := i + 1;
      }
      ReachIs(members, failing, i);
      assert members[..i] == members;
      o := Done;
    }

    /** The `for` loop of `send_update`: each message is broadcast in turn, and the
        first error ends the loop. */
    method BroadcastAll(messages: seq<ServerMessage>) returns (o: Outcome)
      modifies this
      ensures members == old(members)
      ensures delivered == old(delivered) + FanOut(messages, members, failing).deliveries
      ensures o == FanOut(messages, members, failing).outcome
    {
      o := Done;
      var j := 0;
      ghost var m, bad := members, failing;
      ghost var r := Reach(m, bad);
      ghost var sent: seq<Delivery> := [];
      while j < |messages|
        invariant 0 <= j <= |messages|
        invariant members == m && o == Done
        invariant delivered == old(delivered) + sent
        invariant FanOut(messages[..j], m, bad) == Fan(sent, Done)
      {
        o := Broadcast(messages[j]);
        FanOutStep(messages, j, m, bad, sent, o);
        sent := sent + Addressed(m[..r], messages[j]);
        if !o.Done? {
          FanOutKeepsFailure(messages, j + 1, m, bad);
          return;
        }
        j := j + 1;
      }
      assert messages[..j] == messages;
    }

    /** `disconnect_client`: removes the first entry equal to `c` by swap-remove;
        `found` is false exactly when `c` is not registered, where the source panics. */
    method Disconnect(c: ClientId) returns (found: bool)
      modifies this
      ensures found <==> c in old(members)
      ensures found ==> members == SwapRemove(old(members), FirstIndex(old(members), c))
      ensures !found ==> members == old(members)
      ensures delivered == old(delivered)
    {
      var i := 0;
      while i < |members|
        invariant 0 <= i <= |members|
        invariant members == old(members) && delivered == old(delivered)
        invariant c !in members[..i]
      {
        if members[i] == c {
          FirstIndexIs(members, c, i);
          members := members[i := members[|members| - 1]][..|members| - 1];
          return true;
        }
        assert members[..i + 1] == members[..i] + [members[i]];
        i := i + 1;
      }
      assert members[..i] == members;
      return false;
    }
  }

  /** The first `k` clients are exactly those the broadcast reaches. */
  lemma ReachIs(cs: seq<ClientId>, failing: set<ClientId>, k: nat)
    requires k <= |cs|
    requires forall j :: 0 <= j < k ==> cs[j] !in failing
    requires k < |cs| ==> cs[k] in failing
    ensures Reach(cs, failing) == k
  {
  }

  /** An entry equal to `c` with no `c` before it is the first one. */
  lemma FirstIndexIs(cs: seq<ClientId>, c: ClientId, i: nat)
    requires i < |cs| && cs[i] == c && c !in cs[..i]
    ensures FirstIndex(cs, c) == i
  {
  }
}
