/** The dashboard connection registry of services/websocket_service.ts.

    `Dispatch` states, as pure functions on a `Registry` (the `clients` map and
    the sequence of frames written to sockets), what every send, broadcast and
    disconnect does; `WebSocket.WebSocketService` performs the same steps in
    place and is proved to produce exactly those registries.

    A socket is reduced to two facts: whether its `readyState` is OPEN, and
    whether `send` throws on it. A broadcast walks a snapshot of the keys in
    insertion order and skips the ids deleted since the snapshot was taken,
    which is how a JavaScript `Map` iterator behaves when entries are deleted
    under it; a throwing send disconnects that client, which deletes it and
    broadcasts `user_disconnected` to the rest before the walk goes on. */
module Dispatch {
  import opened Wrappers
  import opened Seqs
  import opened OrderedMaps
  import opened Types

  datatype Socket = Socket(open: bool, failsOnSend: bool)

  datatype Client = Client(id: string, socket: Socket, connectedAt: int)

  /** One frame written to the socket of client `to`. */
  datatype Delivery = Delivery(to: string, msg: ServerMessage)

  datatype Registry = Registry(clients: OMap<Client>, outbox: seq<Delivery>)

  const InvalidMessageFormat: string := "Invalid message format"

  /** `exclude_client_id && client_id === exclude_client_id`. */
  predicate Excluded(exclude: Option<string>, id: string) {
    exclude.Some? && exclude.value != "" && id == exclude.value
  }

  /** A client whose send would throw. */
  predicate Failing(c: Client) {
    c.socket.open && c.socket.failsOnSend
  }

  /** No registered client would make a send throw. */
  predicate Healthy(m: map<string, Client>) {
    forall id :: id in m ==> !Failing(m[id])
  }

  /** What any send or broadcast may do to the registry: forget clients, but only
      those in `dropped` or whose send throws, and append frames, only to open
      clients whose send succeeds. */
  ghost predicate Shrinks(before: Registry, after: Registry, dropped: set<string>) {
    && (before.clients.Valid() ==> after.clients.Valid())
    && (forall id :: id in after.clients.m ==> id in before.clients.m && after.clients.m[id] == before.clients.m[id])
    && (forall id :: id in before.clients.m && id !in after.clients.m ==> id in dropped || Failing(before.clients.m[id]))
    && before.outbox <= after.outbox
    && (forall i :: |before.outbox| <= i < |after.outbox| ==>
          var to := after.outbox[i].to;
          to in before.clients.m && before.clients.m[to].socket.open && !before.clients.m[to].socket.failsOnSend)
    && |after.clients.m| <= |before.clients.m|
  }

  /** The frames a registry gained. */
  function NewFrames(before: Registry, after: Registry): seq<Delivery>
    requires |before.outbox| <= |after.outbox|
  {
    after.outbox[|before.outbox|..]
  }

  /** `broadcast_to_all_clients(msg, exclude)`, continuing from the keys still
      `pending` in the snapshot. */
  function Fanout(reg: Registry, msg: ServerMessage, exclude: Option<string>, pending: seq<string>): (r: Registry)
    ensures |r.clients.m| <= |reg.clients.m| && |reg.outbox| <= |r.outbox|
    decreases |reg.clients.m|, 1, |pending|
  {
    if pending == [] then reg
    else
      var next := FanoutStep(reg, msg, exclude, pending[0]);
      Fanout(next, msg, exclude, pending[1..])
  }

  /** One iteration of the broadcast loop, for the client registered as `id`. */
  function FanoutStep(reg: Registry, msg: ServerMessage, exclude: Option<string>, id: string): (r: Registry)
    ensures |r.clients.m| <= |reg.clients.m| && |reg.outbox| <= |r.outbox|
    decreases |reg.clients.m|, 0, 0
  {
    if id !in reg.clients.m || Excluded(exclude, id) || !reg.clients.m[id].socket.open then reg
    else if reg.clients.m[id].socket.failsOnSend then Disconnect(reg, id)
    else Registry(reg.clients, reg.outbox + [Delivery(id, msg)])
  }

  /** `handle_client_disconnect(id)`: delete, then tell the rest how many remain. */
  function Disconnect(reg: Registry, id: string): (r: Registry)
    ensures |r.clients.m| <= |reg.clients.Delete(id).m| <= |reg.clients.m| && |reg.outbox| <= |r.outbox|
    decreases |reg.clients.Delete(id).m|, 2, 0
  {
    var rest := Registry(reg.clients.Delete(id), reg.outbox);
    Fanout(rest, UserDisconnected(|rest.clients.m|), None, rest.clients.keys)
  }

  /** `send_to_client(id, msg)`. */
  function SendTo(reg: Registry, id: string, msg: ServerMessage): (r: Registry)
    ensures |r.clients.m| <= |reg.clients.m| && |reg.outbox| <= |r.outbox|
  {
    if id !in reg.clients.m || !reg.clients.m[id].socket.open then reg
    else if reg.clients.m[id].socket.failsOnSend then Disconnect(reg, id)
    else Registry(reg.clients, reg.outbox + [Delivery(id, msg)])
  }

  /** Every frame gained is `msg` or a `user_disconnected` notice. */
  ghost predicate NoticesOr(before: Registry, after: Registry, msg: ServerMessage) {
    forall i :: |before.outbox| <= i < |after.outbox| ==> after.outbox[i].msg == msg || after.outbox[i].msg.UserDisconnected?
  }

  /** The excluded id gains nothing but `user_disconnected` notices. */
  ghost predicate ExcludedHearsNotices(before: Registry, after: Registry, exclude: Option<string>) {
    forall i :: |before.outbox| <= i < |after.outbox| && Excluded(exclude, after.outbox[i].to) ==> after.outbox[i].msg.UserDisconnected?
  }

  /** Unless it is itself a notice, `msg` is only sent to ids of `ids`. */
  ghost predicate MsgWithin(before: Registry, after: Registry, msg: ServerMessage, ids: seq<string>) {
    forall i :: |before.outbox| <= i < |after.outbox| && after.outbox[i].msg == msg && !msg.UserDisconnected? ==> after.outbox[i].to in ids
  }

  /** Two registry changes in a row. */
  lemma ShrinksCompose(a: Registry, b: Registry, c: Registry, d1: set<string>, d2: set<string>)
    requires Shrinks(a, b, d1) && Shrinks(b, c, d2)
    ensures Shrinks(a, c, d1 + d2)
  {
    forall i | |a.outbox| <= i < |c.outbox|
      ensures var to := c.outbox[i].to;
        to in a.clients.m && a.clients.m[to].socket.open && !a.clients.m[to].socket.failsOnSend
    {
      if i < |b.outbox| {
        assert c.outbox[i] == b.outbox[i];
      }
    }
  }

  /** The same for the three facts about the frames. */
  lemma FramesCompose(a: Registry, b: Registry, c: Registry, msg: ServerMessage, exclude: Option<string>, ids: seq<string>)
    requires a.outbox <= b.outbox <= c.outbox
    requires NoticesOr(a, b, msg) && NoticesOr(b, c, msg)
    requires ExcludedHearsNotices(a, b, exclude) && ExcludedHearsNotices(b, c, exclude)
    requires MsgWithin(a, b, msg, ids) && MsgWithin(b, c, msg, ids)
    ensures NoticesOr(a, c, msg) && ExcludedHearsNotices(a, c, exclude) && MsgWithin(a, c, msg, ids)
  {
    forall i | |a.outbox| <= i < |b.outbox| ensures c.outbox[i] == b.outbox[i] {
    }
  }

  /** A broadcast never sends to a closed client, never drops a client whose send
      succeeds, sends nothing but `msg` and `user_disconnected` notices, gives the
      excluded id at most those notices, and gives `msg` only to ids of the snapshot. */
  lemma {:induction false} FanoutShrinks(reg: Registry, msg: ServerMessage, exclude: Option<string>, pending: seq<string>)
    ensures var r := Fanout(reg, msg, exclude, pending);
      && Shrinks(reg, r, {})
      && NoticesOr(reg, r, msg)
      && ExcludedHearsNotices(reg, r, exclude)
      && MsgWithin(reg, r, msg, pending)
    decreases |reg.clients.m|, 1, |pending|
  {
    if pending != [] {
      var next := FanoutStep(reg, msg, exclude, pending[0]);
      var r := Fanout(next, msg, exclude, pending[1..]);
      FanoutStepShrinks(reg, msg, exclude, pending[0]);
      FanoutShrinks(next, msg, exclude, pending[1..]);
      ShrinksCompose(reg, next, r, {}, {});
      MsgWithinWiden(reg, next, msg, [pending[0]], pending);
      MsgWithinWiden(next, r, msg, pending[1..], pending);
      FramesCompose(reg, next, r, msg, exclude, pending);
    }
  }

  /** `MsgWithin` for a smaller set of ids implies it for a larger one. */
  lemma MsgWithinWiden(a: Registry, b: Registry, msg: ServerMessage, xs: seq<string>, ys: seq<string>)
    requires MsgWithin(a, b, msg, xs) && forall x :: x in xs ==> x in ys
    ensures MsgWithin(a, b, msg, ys)
  {
  }

  lemma {:induction false} FanoutStepShrinks(reg: Registry, msg: ServerMessage, exclude: Option<string>, id: string)
    ensures var r := FanoutStep(reg, msg, exclude, id);
      && Shrinks(reg, r, {})
      && NoticesOr(reg, r, msg)
      && ExcludedHearsNotices(reg, r, exclude)
      && MsgWithin(reg, r, msg, [id])
    decreases |reg.clients.m|, 0, 0
  {
    if id in reg.clients.m && !Excluded(exclude, id) && reg.clients.m[id].socket.open {
      if reg.clients.m[id].socket.failsOnSend {
        ThrowingStepShrinks(reg, msg, exclude, id);
      } else {
        var r := FanoutStep(reg, msg, exclude, id);
        assert NewFrames(reg, r) == [Delivery(id, msg)];
      }
    }
  }

  /** The disconnect a throwing send causes drops only clients whose send throws
      and writes only notices. */
  lemma ThrowingStepShrinks(reg: Registry, msg: ServerMessage, exclude: Option<string>, id: string)
    requires id in reg.clients.m && Failing(reg.clients.m[id])
    ensures var r := Disconnect(reg, id);
      && Shrinks(reg, r, {})
      && NoticesOr(reg, r, msg)
      && ExcludedHearsNotices(reg, r, exclude)
      && MsgWithin(reg, r, msg, [id])
    decreases |reg.clients.Delete(id).m|, 3, 0
  {
    DisconnectShrinks(reg, id);
  }

  /** A disconnect forgets `id`, and otherwise only clients whose send throws, and
      sends nothing but `user_disconnected` notices. */
  lemma {:induction false} DisconnectShrinks(reg: Registry, id: string)
    ensures var r := Disconnect(reg, id);
      && Shrinks(reg, r, {id})
      && id !in r.clients.m
      && (forall i :: |reg.outbox| <= i < |r.outbox| ==> r.outbox[i].msg.UserDisconnected?)
    decreases |reg.clients.Delete(id).m|, 2, 0
  {
    var rest := Registry(reg.clients.Delete(id), reg.outbox);
    var notice := UserDisconnected(|rest.clients.m|);
    FanoutShrinks(rest, notice, None, rest.clients.keys);
    DeleteShrinks(reg, id);
    ShrinksCompose(reg, rest, Disconnect(reg, id), {id}, {});
    assert {id} + {} == {id};
  }

  /** Deleting a client forgets exactly it and sends nothing. */
  lemma DeleteShrinks(reg: Registry, id: string)
    ensures Shrinks(reg, Registry(reg.clients.Delete(id), reg.outbox), {id})
  {
  }

  lemma SendToShrinks(reg: Registry, id: string, msg: ServerMessage)
    ensures var r := SendTo(reg, id, msg);
      && Shrinks(reg, r, {})
      && (forall i :: |reg.outbox| <= i < |r.outbox| ==> r.outbox[i] == Delivery(id, msg) || r.outbox[i].msg.UserDisconnected?)
  {
    if id in reg.clients.m && reg.clients.m[id].socket.open && reg.clients.m[id].socket.failsOnSend {
      DisconnectShrinks(reg, id);
    }
  }

  /** The connection handler: register the client, greet it, then tell the others. */
  function Connect(reg: Registry, id: string, socket: Socket, now: int): (r: Registry)
    requires id !in reg.clients.m
  {
    var joined := Registry(reg.clients.Set(id, Client(id, socket, now)), reg.outbox);
    var hello := UserConnected(|joined.clients.m|, now);
    var greeted := SendTo(joined, id, hello);
    Fanout(greeted, hello, Some(id), greeted.clients.keys)
  }

  // ---------------------------------------------------------------- reference definition

  /** The frames a broadcast writes when no send throws: one per pending id that is
      registered, open and not excluded, in snapshot order. */
  function Deliveries(msg: ServerMessage, exclude: Option<string>, pending: seq<string>, m: map<string, Client>): seq<Delivery> {
    if pending == [] then []
    else
      var id := pending[0];
      (if id in m && !Excluded(exclude, id) && m[id].socket.open then [Delivery(id, msg)] else [])
      + Deliveries(msg, exclude, pending[1..], m)
  }

  /** Without throwing sends a broadcast keeps every client and writes exactly
      the reference frames. */
  lemma {:induction false} HealthyFanout(reg: Registry, msg: ServerMessage, exclude: Option<string>, pending: seq<string>)
    requires Healthy(reg.clients.m)
    ensures Fanout(reg, msg, exclude, pending)
         == Registry(reg.clients, reg.outbox + Deliveries(msg, exclude, pending, reg.clients.m))
    decreases |pending|
  {
    if pending != [] {
      var next := FanoutStep(reg, msg, exclude, pending[0]);
      HealthyStep(reg, msg, exclude, pending[0]);
      HealthyFanout(next, msg, exclude, pending[1..]);
    }
  }

  /** One step of a broadcast in which no send throws. */
  lemma HealthyStep(reg: Registry, msg: ServerMessage, exclude: Option<string>, id: string)
    requires Healthy(reg.clients.m)
    ensures FanoutStep(reg, msg, exclude, id)
         == Registry(reg.clients, reg.outbox + Deliveries(msg, exclude, [id], reg.clients.m))
  {
    assert [id][1..] == [];
  }

  /** Over a snapshot without repeats, the reference frames reach every registered,
      open, non-excluded client exactly once and nobody else. */
  lemma {:induction false} DeliveriesExactlyOnce(msg: ServerMessage, exclude: Option<string>, pending: seq<string>, m: map<string, Client>, id: string)
    requires Distinct(pending)
    ensures multiset(Deliveries(msg, exclude, pending, m))[Delivery(id, msg)]
         == if id in pending && id in m && !Excluded(exclude, id) && m[id].socket.open then 1 else 0
  {
    if pending != [] {
      assert pending[0] !in pending[1..];
      assert Distinct(pending[1..]);
      DeliveriesExactlyOnce(msg, exclude, pending[1..], m, id);
      assert id in pending <==> id == pending[0] || id in pending[1..];
    }
  }

  /** A broadcast over `a + b` is a broadcast over `a` followed by one over `b`. */
  lemma {:induction false} FanoutAppend(reg: Registry, msg: ServerMessage, exclude: Option<string>, a: seq<string>, b: seq<string>)
    ensures Fanout(reg, msg, exclude, a + b) == Fanout(Fanout(reg, msg, exclude, a), msg, exclude, b)
    decreases |a|
  {
    if a == [] {
      assert a + b == b;
    } else {
      var step := FanoutStep(reg, msg, exclude, a[0]);
      assert (a + b)[0] == a[0] && (a + b)[1..] == a[1..] + b;
      assert Fanout(reg, msg, exclude, a + b) == Fanout(step, msg, exclude, a[1..] + b);
      assert Fanout(reg, msg, exclude, a) == Fanout(step, msg, exclude, a[1..]);
      FanoutAppend(step, msg, exclude, a[1..], b);
    }
  }

  /** Whatever else fails, a broadcast delivers `msg` at most once to each client,
      and only to ids of the snapshot. */
  lemma {:induction false} FanoutAtMostOnce(reg: Registry, msg: ServerMessage, exclude: Option<string>, pending: seq<string>, id: string)
    requires Distinct(pending) && !msg.UserDisconnected?
    ensures var r := Fanout(reg, msg, exclude, pending);
      multiset(NewFrames(reg, r))[Delivery(id, msg)] <= if id in pending then 1 else 0
    decreases |pending|
  {
    var r := Fanout(reg, msg, exclude, pending);
    if pending == [] {
      assert NewFrames(reg, r) == [];
    } else {
      var next := FanoutStep(reg, msg, exclude, pending[0]);
      StepAtMostOnce(reg, msg, exclude, pending[0], id);
      OutboxExtends(reg, msg, exclude, pending);
      assert pending[0] !in pending[1..];
      assert Distinct(pending[1..]);
      FanoutAtMostOnce(next, msg, exclude, pending[1..], id);
      NewFramesSplit(reg, next, r);
    }
  }

  /** The outbox of a broadcast and of its first step both extend the one before. */
  lemma OutboxExtends(reg: Registry, msg: ServerMessage, exclude: Option<string>, pending: seq<string>)
    requires pending != []
    ensures var next := FanoutStep(reg, msg, exclude, pending[0]);
      reg.outbox <= next.outbox <= Fanout(next, msg, exclude, pending[1..]).outbox
  {
    var next := FanoutStep(reg, msg, exclude, pending[0]);
    FanoutStepShrinks(reg, msg, exclude, pending[0]);
    FanoutShrinks(next, msg, exclude, pending[1..]);
  }

  /** The frames gained over two steps are those of the first, then of the second. */
  lemma NewFramesSplit(a: Registry, b: Registry, c: Registry)
    requires a.outbox <= b.outbox <= c.outbox
    ensures NewFrames(a, c) == NewFrames(a, b) + NewFrames(b, c)
  {
  }

  /** One broadcast step gives `msg` at most once, and only to the id it visits. */
  lemma StepAtMostOnce(reg: Registry, msg: ServerMessage, exclude: Option<string>, visited: string, id: string)
    requires !msg.UserDisconnected?
    ensures var next := FanoutStep(reg, msg, exclude, visited);
      multiset(NewFrames(reg, next))[Delivery(id, msg)] <= if id == visited then 1 else 0
  {
    var next := FanoutStep(reg, msg, exclude, visited);
    var step := NewFrames(reg, next);
    if visited !in reg.clients.m || Excluded(exclude, visited) || !reg.clients.m[visited].socket.open {
      assert step == [];
    } else if reg.clients.m[visited].socket.failsOnSend {
      DisconnectShrinks(reg, visited);
      assert forall i :: 0 <= i < |step| ==> step[i].msg.UserDisconnected?;
      assert Delivery(id, msg) !in step;
    } else {
      assert step == [Delivery(visited, msg)];
    }
  }

  /** A client whose send throws, reached by the broadcast, is no longer registered
      afterwards; no other client is dropped except for the same reason. */
  lemma {:induction false} FailingClientRemoved(reg: Registry, msg: ServerMessage, exclude: Option<string>, pending: seq<string>, id: string)
    requires id in pending && !Excluded(exclude, id)
    requires id in reg.clients.m && Failing(reg.clients.m[id])
    ensures id !in Fanout(reg, msg, exclude, pending).clients.m
    decreases |pending|
  {
    var next := FanoutStep(reg, msg, exclude, pending[0]);
    FanoutStepShrinks(reg, msg, exclude, pending[0]);
    if pending[0] == id {
      DisconnectShrinks(reg, id);
      FanoutShrinks(next, msg, exclude, pending[1..]);
    } else {
      assert id in pending[1..];
      if id in next.clients.m {
        FailingClientRemoved(next, msg, exclude, pending[1..], id);
      } else {
        FanoutShrinks(next, msg, exclude, pending[1..]);
      }
    }
  }

  /** `handle_client_disconnect` when no remaining send throws: the id is gone
      (if it was there) and every other open client hears the new count once. */
  lemma HealthyDisconnect(reg: Registry, id: string)
    requires Healthy(reg.clients.Delete(id).m)
    ensures var rest := reg.clients.Delete(id);
      Disconnect(reg, id) == Registry(rest, reg.outbox + Deliveries(UserDisconnected(|rest.m|), None, rest.keys, rest.m))
  {
    var rest := Registry(reg.clients.Delete(id), reg.outbox);
    HealthyFanout(rest, UserDisconnected(|rest.clients.m|), None, rest.clients.keys);
  }

  /** The scenario of one throwing client among healthy ones: a broadcast removes
      exactly it, gives the clients before it `msg`, then tells everyone left that
      one fewer dashboard remains, then gives the clients after it `msg`. */
  lemma OneFailingClient(reg: Registry, msg: ServerMessage, exclude: Option<string>, before: seq<string>, f: string, after: seq<string>)
    requires reg.clients.Valid() && reg.clients.keys == before + [f] + after
    requires f in reg.clients.m && Failing(reg.clients.m[f]) && !Excluded(exclude, f)
    requires Healthy(reg.clients.Delete(f).m)
    ensures var rest := reg.clients.Delete(f);
      Fanout(reg, msg, exclude, reg.clients.keys)
      == Registry(rest, reg.outbox
                        + Deliveries(msg, exclude, before, reg.clients.m)
                        + Deliveries(UserDisconnected(|rest.m|), None, rest.keys, rest.m)
                        + Deliveries(msg, exclude, after, rest.m))
  {
    var rest := reg.clients.Delete(f);
    FBeforeUnique(reg.clients.keys, before, f, after);
    FanoutSplitAt(reg, msg, exclude, before, f, after);
    var r1 := Fanout(reg, msg, exclude, before);
    HealthyPrefix(reg, msg, exclude, before, f);
    var r2 := FanoutStep(r1, msg, exclude, f);
    FailingStep(r1, msg, exclude, f);
    HealthyFanout(r2, msg, exclude, after);
  }

  /** Splitting a broadcast at the position of one key of the snapshot. */
  lemma FanoutSplitAt(reg: Registry, msg: ServerMessage, exclude: Option<string>, before: seq<string>, f: string, after: seq<string>)
    requires reg.clients.keys == before + [f] + after
    ensures Fanout(reg, msg, exclude, reg.clients.keys)
         == Fanout(FanoutStep(Fanout(reg, msg, exclude, before), msg, exclude, f), msg, exclude, after)
  {
    assert reg.clients.keys == before + ([f] + after);
    FanoutAppend(reg, msg, exclude, before, [f] + after);
    assert ([f] + after)[0] == f && ([f] + after)[1..] == after;
  }

  /** The step that reaches the throwing client, when every other send succeeds. */
  lemma FailingStep(reg: Registry, msg: ServerMessage, exclude: Option<string>, f: string)
    requires f in reg.clients.m && Failing(reg.clients.m[f]) && !Excluded(exclude, f)
    requires Healthy(reg.clients.Delete(f).m)
    ensures var rest := reg.clients.Delete(f);
      FanoutStep(reg, msg, exclude, f)
      == Registry(rest, reg.outbox + Deliveries(UserDisconnected(|rest.m|), None, rest.keys, rest.m))
  {
    HealthyDisconnect(reg, f);
  }

  /** In a key order without repeats, `f` does not occur before its own position. */
  lemma FBeforeUnique(keys: seq<string>, before: seq<string>, f: string, after: seq<string>)
    requires Distinct(keys) && keys == before + [f] + after
    ensures f !in before
  {
    assert keys[|before|] == f;
    forall i | 0 <= i < |before| ensures before[i] != f {
      assert keys[i] == before[i];
    }
  }

  /** The clients before `f` in the snapshot all send successfully. */
  lemma {:induction false} HealthyPrefix(reg: Registry, msg: ServerMessage, exclude: Option<string>, pending: seq<string>, f: string)
    requires f !in pending
    requires forall id :: id in reg.clients.m && id != f ==> !Failing(reg.clients.m[id])
    ensures Fanout(reg, msg, exclude, pending) == Registry(reg.clients, reg.outbox + Deliveries(msg, exclude, pending, reg.clients.m))
    decreases |pending|
  {
    if pending != [] {
      var next := FanoutStep(reg, msg, exclude, pending[0]);
      assert next.clients == reg.clients;
      HealthyPrefix(next, msg, exclude, pending[1..], f);
    }
  }

  /** A new dashboard among healthy ones: the map grows by one, the newcomer is
      greeted with the new size (if its socket is open), and every other open
      client hears the same message once. */
  lemma HealthyConnect(reg: Registry, id: string, socket: Socket, now: int)
    requires reg.clients.Valid() && id !in reg.clients.m && id != ""
    requires Healthy(reg.clients.m) && !(socket.open && socket.failsOnSend)
    ensures var joined := reg.clients.Set(id, Client(id, socket, now));
      var hello := UserConnected(|reg.clients.m| + 1, now);
      && |joined.m| == |reg.clients.m| + 1
      && Connect(reg, id, socket, now)
         == Registry(joined, reg.outbox + (if socket.open then [Delivery(id, hello)] else [])
                                        + Deliveries(hello, Some(id), joined.keys, joined.m))
  {
    var joined := Registry(reg.clients.Set(id, Client(id, socket, now)), reg.outbox);
    var hello := UserConnected(|joined.clients.m|, now);
    assert |joined.clients.m| == |reg.clients.m| + 1;
    HealthyJoin(reg.clients.m, id, Client(id, socket, now));
    HealthySendTo(joined, id, hello);
    var greeted := SendTo(joined, id, hello);
    HealthyFanout(greeted, hello, Some(id), greeted.clients.keys);
  }

  /** Adding a client whose send succeeds keeps a registry healthy. */
  lemma HealthyJoin(m: map<string, Client>, id: string, c: Client)
    requires Healthy(m) && !Failing(c)
    ensures Healthy(m[id := c])
  {
  }

  /** `send_to_client` to a client whose send succeeds writes exactly one frame,
      to it, if it is open, and nothing otherwise; the registry is untouched. */
  lemma HealthySendTo(reg: Registry, id: string, msg: ServerMessage)
    requires id in reg.clients.m ==> !Failing(reg.clients.m[id])
    ensures SendTo(reg, id, msg)
         == Registry(reg.clients, reg.outbox + (if id in reg.clients.m && reg.clients.m[id].socket.open then [Delivery(id, msg)] else []))
  {
  }

  /** A send that throws removes exactly that client; the others stay registered
      unless their own send throws in the `user_disconnected` broadcast. */
  lemma FailingSendTo(reg: Registry, id: string, msg: ServerMessage)
    requires id in reg.clients.m && Failing(reg.clients.m[id])
    ensures var r := SendTo(reg, id, msg);
      && id !in r.clients.m
      && forall other :: other in reg.clients.m && other != id && !Failing(reg.clients.m[other]) ==> other in r.clients.m
  {
    DisconnectShrinks(reg, id);
  }

  /** `handle_client_disconnect` for an id that is not registered still broadcasts
      the current count to everyone. */
  lemma DisconnectAbsent(reg: Registry, id: string)
    requires reg.clients.Valid() && id !in reg.clients.m && Healthy(reg.clients.m)
    ensures Disconnect(reg, id)
         == Registry(reg.clients, reg.outbox + Deliveries(UserDisconnected(|reg.clients.m|), None, reg.clients.keys, reg.clients.m))
  {
    DeleteAbsent(reg.clients, id);
    HealthyDisconnect(reg, id);
  }

  /** Deleting an id that is not registered leaves the map as it was. */
  lemma DeleteAbsent(c: OMap<Client>, id: string)
    requires c.Valid() && id !in c.m
    ensures c.Delete(id) == c
  {
    WithoutAbsent(c.keys, id);
    assert c.m - {id} == c.m;
  }

  /** Once no socket is open, a broadcast changes nothing. */
  lemma {:induction false} ClosedFanoutSilent(reg: Registry, msg: ServerMessage, exclude: Option<string>, pending: seq<string>)
    requires forall id :: id in reg.clients.m ==> !reg.clients.m[id].socket.open
    ensures Fanout(reg, msg, exclude, pending) == reg
  {
    if pending != [] {
      ClosedFanoutSilent(reg, msg, exclude, pending[1..]);
    }
  }
}
