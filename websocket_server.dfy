/** `WebSocketService` of services/websocket_service.ts: the registry of dashboard
    clients, updated in place, and the frames written to their sockets. Each
    method is proved to leave exactly the registry that the matching function of
    `Dispatch` computes; what those functions guarantee is proved there.

    The client id (`uuidv4()`) and the instant of connection are parameters; the
    server socket itself is reduced to a `listening` flag. */
module WebSocket {
  import opened Wrappers
  import opened Json
  import opened Seqs
  import opened OrderedMaps
  import opened Types
  import opened Dispatch
  import opened Validation
  import opened Analytics

  /** `client.websocket.close()`: the socket leaves the OPEN state at once. */
  function CloseClient(c: Client): (r: Client)
    ensures !r.socket.open && r.id == c.id && r.connectedAt == c.connectedAt
  {
    c.(socket := c.socket.(open := false))
  }

  /** Every registered socket closed, the registry itself untouched. */
  function CloseSockets(c: OMap<Client>): (r: OMap<Client>)
    ensures r.keys == c.keys && r.m.Keys == c.m.Keys
    ensures forall id :: id in r.m ==> r.m[id] == CloseClient(c.m[id])
    ensures c.Valid() ==> r.Valid()
  {
    OMap(c.keys, map id | id in c.m :: CloseClient(c.m[id]))
  }

  /** `JSON.parse` (None when the text is not JSON) followed by the union schema. */
  function ParseFrame(frame: Option<Json>): (r: Option<ClientMessage>)
    ensures r.Some? ==> frame.Some? && ParseClientMessage(frame.value) == r
    ensures frame.Some? && ClientToServerMessageSchema(frame.value) ==> r.Some?
  {
    if frame.None? then None else ParseClientMessage(frame.value)
  }

  /** `{ total_connections, connected_clients }`. */
  datatype ConnectionStats = ConnectionStats(total_connections: nat, connected_clients: seq<string>)

  class WebSocketService {
    var clients: OMap<Client>
    var outbox: seq<Delivery>
    var listening: bool
    const analytics: AnalyticsService

    ghost predicate Valid()
      reads this
    {
      clients.Valid()
    }

    /** The registry as the functions of `Dispatch` see it. */
    function Abs(): Registry
      reads this
    {
      Registry(clients, outbox)
    }

    constructor (analytics: AnalyticsService)
      ensures Valid() && listening
      ensures clients == Empty() && outbox == [] && this.analytics == analytics
    {
      clients := Empty();
      outbox := [];
      listening := true;
      this.analytics := analytics;
    }

    /** `broadcast_to_all_clients`: walks a snapshot of the keys; ids deleted
        meanwhile are skipped, as the `Map` iterator skips them. */
    method BroadcastToAllClients(msg: ServerMessage, exclude: Option<string>)
      modifies this
      ensures Abs() == Fanout(old(Abs()), msg, exclude, old(clients.keys))
      ensures listening == old(listening)
      decreases |clients.m|, 1
    {
      var start := Abs();
      var snapshot := clients.keys;
      var i := 0;
      while i < |snapshot|
        invariant 0 <= i <= |snapshot|
        invariant Fanout(start, msg, exclude, snapshot) == Fanout(Abs(), msg, exclude, snapshot[i..])
        invariant |clients.m| <= |start.clients.m|
        invariant listening == old(listening)
      {
        var id := snapshot[i];
        ghost var before := Abs();
        assert snapshot[i..][0] == id && snapshot[i..][1..] == snapshot[i + 1..];
        if id in clients.m && !Excluded(exclude, id) && clients.m[id].socket.open {
          if clients.m[id].socket.failsOnSend {
            HandleClientDisconnect(id);
          } else {
            outbox := outbox + [Delivery(id, msg)];
          }
        }
        assert Abs() == FanoutStep(before, msg, exclude, id);
        i := i + 1;
      }
    }

    /** `broadcast_user_disconnected_event`: the count of the remaining clients. */
    method BroadcastUserDisconnectedEvent()
      modifies this
      ensures Abs() == Fanout(old(Abs()), UserDisconnected(|old(clients.m)|), None, old(clients.keys))
      ensures listening == old(listening)
      decreases |clients.m|, 2
    {
      BroadcastToAllClients(UserDisconnected(|clients.m|), None);
    }

    /** `handle_client_disconnect`: on `close`, on `error`, or after a send throws. */
    method HandleClientDisconnect(id: string)
      modifies this
      ensures Abs() == Disconnect(old(Abs()), id)
      ensures listening == old(listening)
      decreases |clients.Delete(id).m|, 3
    {
      clients := clients.Delete(id);
      BroadcastUserDisconnectedEvent();
    }

    /** `send_to_client`: silent when the client is gone or not open. */
    method SendToClient(id: string, msg: ServerMessage)
      modifies this
      ensures Abs() == SendTo(old(Abs()), id, msg)
      ensures listening == old(listening)
    {
      if id !in clients.m || !clients.m[id].socket.open {
        return;
      }
      if clients.m[id].socket.failsOnSend {
        HandleClientDisconnect(id);
      } else {
        outbox := outbox + [Delivery(id, msg)];
      }
    }

    /** `send_error_to_client`. */
    method SendErrorToClient(id: string, message: string)
      modifies this
      ensures Abs() == SendTo(old(Abs()), id, ErrorFrame(message))
      ensures listening == old(listening)
    {
      SendToClient(id, ErrorFrame(message));
    }

    /** `send_user_connected_event`: greet the new client, then tell the others. */
    method SendUserConnectedEvent(newId: string, now: int)
      modifies this
      ensures var hello := UserConnected(|old(clients.m)|, now);
        var greeted := SendTo(old(Abs()), newId, hello);
        Abs() == Fanout(greeted, hello, Some(newId), greeted.clients.keys)
      ensures listening == old(listening)
    {
      var hello := UserConnected(|clients.m|, now);
      SendToClient(newId, hello);
      BroadcastToAllClients(hello, Some(newId));
    }

    /** The `connection` handler: register the socket under a fresh id and announce it. */
    method OnConnection(id: string, socket: Socket, now: int)
      requires id !in clients.m
      modifies this
      ensures Abs() == Connect(old(Abs()), id, socket, now)
      ensures listening == old(listening)
    {
      clients := clients.Set(id, Client(id, socket, now));
      SendUserConnectedEvent(id, now);
    }

    /** The `message` handler around `handle_client_message`: a frame that is not
        JSON or that the union schema rejects earns an error frame; a stats request
        is answered; a tracked action is only logged. */
    method OnMessage(id: string, frame: Option<Json>, now: int)
      requires analytics.Valid()
      modifies this
      ensures ParseFrame(frame).None? ==> Abs() == SendTo(old(Abs()), id, ErrorFrame(InvalidMessageFormat))
      ensures ParseFrame(frame).Some? && ParseFrame(frame).value.RequestDetailedStats? ==>
        Abs() == SendTo(old(Abs()), id,
          DetailedStatsResponse(analytics.GetDetailedStats(ParseFrame(frame).value.filter.GetOr(NoFilter), now)))
      ensures ParseFrame(frame).Some? && ParseFrame(frame).value.TrackDashboardAction? ==> Abs() == old(Abs())
      ensures listening == old(listening)
    {
      var parsed := ParseFrame(frame);
      match parsed {
        case None =>
          SendErrorToClient(id, InvalidMessageFormat);
        case Some(RequestDetailedStats(filter)) =>
          HandleDetailedStatsRequest(id, filter, now);
        case Some(TrackDashboardAction(action, details)) =>
          HandleDashboardAction(id, action, details);
      }
    }

    /** `handle_detailed_stats_request`: a missing filter filters nothing. */
    method HandleDetailedStatsRequest(id: string, filter: Option<StatsFilter>, now: int)
      requires analytics.Valid()
      modifies this
      ensures Abs() == SendTo(old(Abs()), id, DetailedStatsResponse(analytics.GetDetailedStats(filter.GetOr(NoFilter), now)))
      ensures listening == old(listening)
    {
      var stats := analytics.GetDetailedStats(filter.GetOr(NoFilter), now);
      SendToClient(id, DetailedStatsResponse(stats));
    }

    /** `handle_dashboard_action`: logged only, nothing changes. */
    method HandleDashboardAction(id: string, action: string, details: map<string, Json>)
      ensures Abs() == old(Abs())
    {
    }

    /** `broadcast_visitor_update`. */
    method BroadcastVisitorUpdate(e: VisitorEvent, stats: AnalyticsSummary)
      modifies this
      ensures Abs() == Fanout(old(Abs()), VisitorUpdate(e, stats), None, old(clients.keys))
      ensures listening == old(listening)
    {
      BroadcastToAllClients(VisitorUpdate(e, stats), None);
    }

    /** `broadcast_session_activity`. */
    method BroadcastSessionActivity(s: SessionData)
      modifies this
      ensures Abs() == Fanout(old(Abs()), SessionActivity(s), None, old(clients.keys))
      ensures listening == old(listening)
    {
      BroadcastToAllClients(SessionActivity(s), None);
    }

    /** `broadcast_alert`. */
    method BroadcastAlert(level: AlertLevel, message: string, details: map<string, Json>)
      modifies this
      ensures Abs() == Fanout(old(Abs()), Alert(AlertRecord(level, message, details)), None, old(clients.keys))
      ensures listening == old(listening)
    {
      BroadcastToAllClients(Alert(AlertRecord(level, message, details)), None);
    }

    /** `get_connection_stats`: the size of the registry and its ids in insertion order. */
    function GetConnectionStats(): (r: ConnectionStats)
      requires Valid()
      reads this
      ensures r.total_connections == |r.connected_clients|
      ensures forall id :: id in r.connected_clients <==> id in clients.m
      ensures Distinct(r.connected_clients)
    {
      clients.SizeIsKeyCount();
      ConnectionStats(|clients.m|, clients.keys)
    }

    /** `close`: every socket leaves the OPEN state and the server stops listening.
        The `close` events the sockets emit later are not part of this call. */
    method Close()
      requires Valid()
      modifies this
      ensures clients == CloseSockets(old(clients)) && outbox == old(outbox)
      ensures !listening
    {
      var target := CloseSockets(clients);
      var snapshot := clients.keys;
      var m := clients.m;
      var i := 0;
      while i < |snapshot|
        invariant 0 <= i <= |snapshot|
        invariant m.Keys == clients.m.Keys
        invariant forall id :: id in m ==> m[id] == if id in snapshot[..i] then CloseClient(clients.m[id]) else clients.m[id]
        invariant unchanged(this)
      {
        var id := snapshot[i];
        if id in m {
          m := m[id := CloseClient(clients.m[id])];
        }
        assert snapshot[..i + 1] == snapshot[..i] + [id];
        i := i + 1;
      }
      assert snapshot[..i] == snapshot;
      assert m == target.m;
      clients := OMap(snapshot, m);
      listening := false;
    }
  }
}
