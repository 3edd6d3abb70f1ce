/** The dashboard side of the connection, frontend/src/hooks/useWebSocket.ts.
    `HandleMessage` is the reducer the `message` handler applies to the
    dashboard state; `DashboardConnection` holds that state together with the
    refs of the hook (socket, attempt counter, retry timer, manual-disconnect
    flag) and updates them in the order the source writes them. Timer callbacks
    are the methods `FireRetry`, `FireDelayedConnect` and `EndFlash`. */
module DashboardHook {
  import opened Wrappers
  import opened Json
  import opened Seqs
  import opened Types

  const ReconnectIntervalMs: int := 3000
  const MaxReconnectAttempts: nat := 10
  const MaxRecentEvents: nat := 50
  const MaxActiveSessions: nat := 20
  const MaxAlerts: nat := 10

  datatype ConnectionStatus = Connected | Connecting | Reconnecting | Disconnected

  datatype DashboardState = DashboardState(
    connectionStatus: ConnectionStatus,
    analytics: AnalyticsSummary,
    activeSessions: seq<SessionData>,
    recentEvents: seq<VisitorEvent>,
    totalDashboards: nat,
    alerts: seq<AlertRecord>)

  const InitialState: DashboardState :=
    DashboardState(Disconnected, AnalyticsSummary(0, 0, []), [], [], 0, [])

  /** What reaches the `message` handler: a frame of the server, a JSON object
      whose `type` is none of the server's, or text `JSON.parse` rejects. */
  datatype Incoming = Frame(msg: ServerMessage) | UnknownType(tag: string) | Unparsable

  /** `[x, ...s].slice(0, cap)`: newest first, at most `cap` entries. */
  function Push<T>(x: T, s: seq<T>, cap: nat): (r: seq<T>)
    requires cap >= 1
    ensures |r| == if |s| + 1 < cap then |s| + 1 else cap
    ensures r[0] == x && r[1..] == s[..|r| - 1]
  {
    var r := Take([x] + s, cap);
    assert r[1..] == ([x] + s)[1..|r|];
    r
  }

  // ---------------------------------------------------------------- session list

  /** `sessions.findIndex(s => s.session_id === id)`. */
  function FindSessionIndex(sessions: seq<SessionData>, id: string): (r: int)
    ensures -1 <= r < |sessions|
    ensures r >= 0 ==> sessions[r].session_id == id
    ensures forall j :: 0 <= j < |sessions| && (r < 0 || j < r) ==> sessions[j].session_id != id
  {
    if sessions == [] then -1
    else if sessions[0].session_id == id then 0
    else
      var k := FindSessionIndex(sessions[1..], id);
      if k < 0 then -1 else k + 1
  }

  /** `updateSessionInList`: a known session is replaced where it stands; a new
      one goes in front and the list keeps its latest 20. */
  function UpdateSessionInList(sessions: seq<SessionData>, s: SessionData): (r: seq<SessionData>)
    ensures var k := FindSessionIndex(sessions, s.session_id);
      k >= 0 ==> |r| == |sessions| && r[k] == s && forall j :: 0 <= j < |r| && j != k ==> r[j] == sessions[j]
    ensures var k := FindSessionIndex(sessions, s.session_id);
      k < 0 ==> |r| == (if |sessions| + 1 < MaxActiveSessions then |sessions| + 1 else MaxActiveSessions)
                && r[0] == s && r[1..] == sessions[..|r| - 1]
  {
    var k := FindSessionIndex(sessions, s.session_id);
    if k >= 0 then sessions[k := s] else Push(s, sessions, MaxActiveSessions)
  }

  ghost predicate DistinctIds(sessions: seq<SessionData>) {
    forall i, j :: 0 <= i < j < |sessions| ==> sessions[i].session_id != sessions[j].session_id
  }

  /** The update keeps one entry per session, and afterwards the first entry for
      the session is the one just received. */
  lemma UpdateSessionKeepsIdsDistinct(sessions: seq<SessionData>, s: SessionData)
    requires DistinctIds(sessions)
    ensures DistinctIds(UpdateSessionInList(sessions, s))
  {
    var r := UpdateSessionInList(sessions, s);
    var k := FindSessionIndex(sessions, s.session_id);
    if k < 0 {
      forall i, j | 0 <= i < j < |r| ensures r[i].session_id != r[j].session_id {
        assert r[j] == sessions[j - 1];
        if i > 0 {
          assert r[i] == sessions[i - 1];
        }
      }
    }
  }

  lemma UpdateSessionFindsNewEntry(sessions: seq<SessionData>, s: SessionData)
    ensures var r := UpdateSessionInList(sessions, s);
      var k := FindSessionIndex(r, s.session_id);
      k >= 0 && r[k] == s
      && k == (if FindSessionIndex(sessions, s.session_id) >= 0 then FindSessionIndex(sessions, s.session_id) else 0)
  {
    var r := UpdateSessionInList(sessions, s);
    var k0 := FindSessionIndex(sessions, s.session_id);
    var k := FindSessionIndex(r, s.session_id);
    var want := if k0 >= 0 then k0 else 0;
    assert r[want].session_id == s.session_id;
    if k0 >= 0 {
      forall j | 0 <= j < want ensures r[j].session_id != s.session_id {
        assert r[j] == sessions[j];
      }
    }
  }

  /** Receiving the same session twice in a row is receiving it once. */
  lemma UpdateSessionIdempotent(sessions: seq<SessionData>, s: SessionData)
    ensures UpdateSessionInList(UpdateSessionInList(sessions, s), s) == UpdateSessionInList(sessions, s)
  {
    var r := UpdateSessionInList(sessions, s);
    UpdateSessionFindsNewEntry(sessions, s);
    var k := FindSessionIndex(r, s.session_id);
    assert r[k := s] == r;
  }

  // ---------------------------------------------------------------- reducer

  /** The state update of `handleMessage`. `error` frames, other types and
      unparsable text fall through to the default and change nothing. */
  function HandleMessage(st: DashboardState, m: Incoming): (r: DashboardState)
    ensures r.connectionStatus == st.connectionStatus
    ensures r.analytics != st.analytics ==>
      m.Frame? && (m.msg.VisitorUpdate? || m.msg.DetailedStatsResponse?)
    ensures r.recentEvents != st.recentEvents ==>
      m.Frame? && (m.msg.VisitorUpdate? || m.msg.DetailedStatsResponse?)
    ensures r.activeSessions != st.activeSessions ==>
      m.Frame? && (m.msg.SessionActivity? || m.msg.DetailedStatsResponse?)
    ensures r.totalDashboards != st.totalDashboards ==>
      m.Frame? && (m.msg.UserConnected? || m.msg.UserDisconnected?)
    ensures r.alerts != st.alerts ==> m.Frame? && m.msg.Alert?
    ensures !m.Frame? || m.msg.ErrorFrame? ==> r == st
  {
    match m
    case Frame(VisitorUpdate(e, stats)) =>
      st.(analytics := stats, recentEvents := Push(e, st.recentEvents, MaxRecentEvents))
    case Frame(SessionActivity(s)) =>
      st.(activeSessions := UpdateSessionInList(st.activeSessions, s))
    case Frame(UserConnected(n, _)) =>
      st.(totalDashboards := n)
    case Frame(UserDisconnected(n)) =>
      st.(totalDashboards := n)
    case Frame(Alert(a)) =>
      st.(alerts := Push(a, st.alerts, MaxAlerts))
    case Frame(DetailedStatsResponse(d)) =>
      st.(analytics := d.summary, activeSessions := d.sessions, recentEvents := d.recent_events)
    case _ => st
  }

  /** A visitor update puts its event first among at most 50 and shows its stats. */
  lemma VisitorUpdateEffect(st: DashboardState, e: VisitorEvent, stats: AnalyticsSummary)
    ensures var r := HandleMessage(st, Frame(VisitorUpdate(e, stats)));
      && r.analytics == stats
      && |r.recentEvents| == (if |st.recentEvents| < MaxRecentEvents then |st.recentEvents| + 1 else MaxRecentEvents)
      && r.recentEvents[0] == e
      && r.recentEvents[1..] == st.recentEvents[..|r.recentEvents| - 1]
      && r.activeSessions == st.activeSessions && r.alerts == st.alerts && r.totalDashboards == st.totalDashboards
  {
  }

  /** An alert goes first among at most 10. */
  lemma AlertEffect(st: DashboardState, a: AlertRecord)
    ensures var r := HandleMessage(st, Frame(Alert(a)));
      && |r.alerts| == (if |st.alerts| < MaxAlerts then |st.alerts| + 1 else MaxAlerts)
      && r.alerts[0] == a && r.alerts[1..] == st.alerts[..|r.alerts| - 1]
      && r == st.(alerts := r.alerts)
  {
  }

  /** `user_connected` and `user_disconnected` only set the dashboard count. */
  lemma DashboardCountEffect(st: DashboardState, m: ServerMessage)
    requires m.UserConnected? || m.UserDisconnected?
    ensures HandleMessage(st, Frame(m)).totalDashboards == m.total_dashboards
    ensures HandleMessage(st, Frame(m)) == st.(totalDashboards := m.total_dashboards)
  {
  }

  /** A detailed stats response replaces summary, sessions and events as they
      arrive, whatever their length. */
  lemma DetailedStatsEffect(st: DashboardState, d: DetailedStats)
    ensures var r := HandleMessage(st, Frame(DetailedStatsResponse(d)));
      && r.analytics == d.summary && r.activeSessions == d.sessions && r.recentEvents == d.recent_events
      && r.alerts == st.alerts && r.totalDashboards == st.totalDashboards
  {
  }

  /** The caps of the three lists. */
  predicate Bounded(st: DashboardState) {
    |st.recentEvents| <= MaxRecentEvents && |st.activeSessions| <= MaxActiveSessions && |st.alerts| <= MaxAlerts
  }

  /** Every message but a detailed stats response keeps the lists within their caps. */
  lemma HandleMessageKeepsBounds(st: DashboardState, m: Incoming)
    requires Bounded(st)
    requires !(m.Frame? && m.msg.DetailedStatsResponse?)
    ensures Bounded(HandleMessage(st, m))
  {
    if m.Frame? && m.msg.SessionActivity? {
      var k := FindSessionIndex(st.activeSessions, m.msg.session.session_id);
      assert k >= 0 || |UpdateSessionInList(st.activeSessions, m.msg.session)| <= MaxActiveSessions;
    }
  }

  /** Sounds and the visual flash the handler triggers besides the state update. */
  datatype Notice = VisitorChime | VisitorFlash | DoubleBeep

  function Notifications(m: Incoming): (r: seq<Notice>)
    ensures VisitorChime in r <==> m.Frame? && m.msg.VisitorUpdate?
    ensures VisitorFlash in r <==> m.Frame? && m.msg.VisitorUpdate?
    ensures DoubleBeep in r <==> m.Frame? && m.msg.Alert? && m.msg.alert.level in {AlertLevel.Warning, AlertLevel.Error}
  {
    match m
    case Frame(VisitorUpdate(_, _)) => [VisitorChime, VisitorFlash]
    case Frame(Alert(a)) => if a.level == AlertLevel.Warning || a.level == AlertLevel.Error then [DoubleBeep] else []
    case _ => []
  }

  // ---------------------------------------------------------------- connection

  /** `readyState` of the socket in `ws.current`. */
  datatype ReadyState = Open | Opening | Closed

  predicate Live(socket: Option<ReadyState>) {
    socket == Some(Open) || socket == Some(Opening)
  }

  class DashboardConnection {
    var state: DashboardState
    /** `ws.current`: `None` once `disconnect` drops it. */
    var socket: Option<ReadyState>
    /** `reconnectAttempts.current`. */
    var attempts: nat
    var isManualDisconnect: bool
    /** `reconnectTimeoutRef.current !== undefined`; the ref is never reset. */
    var retryScheduled: bool
    /** The retry timer has been set and has neither fired nor been cleared. */
    var retryPending: bool
    /** `setTimeout(connect, 100)` calls of `reconnect` that have not fired yet. */
    var pendingConnects: nat
    /** Frames written to the socket. */
    var sent: seq<ClientMessage>
    var notices: seq<Notice>
    var newVisitorFlash: bool

    /** At most one retry is ever pending, only while automatic reconnection is
        allowed and the last socket has closed; the counter never passes its cap. */
    ghost predicate Valid()
      reads this
    {
      && attempts <= MaxReconnectAttempts
      && (retryPending ==> retryScheduled && attempts < MaxReconnectAttempts
                           && socket == Some(Closed) && !isManualDisconnect)
      && (pendingConnects > 0 ==> isManualDisconnect)
    }

    /** Mounting the hook: the initial state, then `connect()`. */
    constructor ()
      ensures Valid()
      ensures state == InitialState.(connectionStatus := Connecting)
      ensures socket == Some(Opening) && attempts == 0 && !isManualDisconnect
      ensures !retryScheduled && !retryPending && pendingConnects == 0
      ensures sent == [] && notices == [] && !newVisitorFlash
    {
      state := InitialState;
      attempts := 0;
      isManualDisconnect := false;
      retryScheduled := false;
      retryPending := false;
      pendingConnects := 0;
      sent := [];
      notices := [];
      newVisitorFlash := false;
      socket := None;
      new;
      Connect();
    }

    /** `connect`: nothing when the socket is open; otherwise a new socket. */
    method Connect()
      modifies this
      ensures old(socket) == Some(Open) ==> unchanged(this)
      ensures old(socket) != Some(Open) ==>
        && state == old(state).(connectionStatus := Connecting)
        && socket == Some(Opening)
        && attempts == old(attempts) && isManualDisconnect == old(isManualDisconnect)
        && retryScheduled == old(retryScheduled) && retryPending == old(retryPending)
        && pendingConnects == old(pendingConnects)
        && sent == old(sent) && notices == old(notices) && newVisitorFlash == old(newVisitorFlash)
      ensures old(Valid()) && !old(retryPending) ==> Valid()
    {
      if socket == Some(Open) {
        return;
      }
      state := state.(connectionStatus := Connecting);
      socket := Some(Opening);
    }

    /** `sendMessage`: written only to an open socket, dropped otherwise. */
    method SendMessage(msg: ClientMessage)
      modifies this
      ensures sent == old(sent) + (if old(socket) == Some(Open) then [msg] else [])
      ensures state == old(state) && socket == old(socket) && attempts == old(attempts)
      ensures isManualDisconnect == old(isManualDisconnect) && retryScheduled == old(retryScheduled)
      ensures retryPending == old(retryPending) && pendingConnects == old(pendingConnects)
      ensures notices == old(notices) && newVisitorFlash == old(newVisitorFlash)
    {
      if socket == Some(Open) {
        sent := sent + [msg];
      }
    }

    /** `requestDetailedStats(filter)`. */
    method RequestDetailedStats(filter: Option<StatsFilter>)
      modifies this
      ensures sent == old(sent) + (if old(socket) == Some(Open) then [ClientMessage.RequestDetailedStats(filter)] else [])
      ensures state == old(state) && socket == old(socket) && attempts == old(attempts)
      ensures isManualDisconnect == old(isManualDisconnect) && retryScheduled == old(retryScheduled)
      ensures retryPending == old(retryPending) && pendingConnects == old(pendingConnects)
      ensures notices == old(notices) && newVisitorFlash == old(newVisitorFlash)
    {
      SendMessage(ClientMessage.RequestDetailedStats(filter));
    }

    /** `trackDashboardAction(action, details)`. */
    method TrackDashboardAction(action: string, details: map<string, Json>)
      modifies this
      ensures sent == old(sent) + (if old(socket) == Some(Open) then [ClientMessage.TrackDashboardAction(action, details)] else [])
      ensures state == old(state) && socket == old(socket) && attempts == old(attempts)
      ensures isManualDisconnect == old(isManualDisconnect) && retryScheduled == old(retryScheduled)
      ensures retryPending == old(retryPending) && pendingConnects == old(pendingConnects)
      ensures notices == old(notices) && newVisitorFlash == old(newVisitorFlash)
    {
      SendMessage(ClientMessage.TrackDashboardAction(action, details));
    }

    /** `onopen` of the socket being opened: connected, the counter back to 0,
        and one request for the full statistics, without a filter. */
    method OnOpen()
      requires Valid() && socket == Some(Opening)
      modifies this
      ensures Valid()
      ensures socket == Some(Open) && attempts == 0
      ensures state == old(state).(connectionStatus := Connected)
      ensures sent == old(sent) + [ClientMessage.RequestDetailedStats(None)]
      ensures isManualDisconnect == old(isManualDisconnect) && retryScheduled == old(retryScheduled)
      ensures retryPending == old(retryPending) && pendingConnects == old(pendingConnects)
      ensures notices == old(notices) && newVisitorFlash == old(newVisitorFlash)
    {
      socket := Some(Open);
      state := state.(connectionStatus := Connected);
      attempts := 0;
      RequestDetailedStats(None);
    }

    /** `onmessage`: the reducer, plus the sounds and the flash. */
    method OnMessage(m: Incoming)
      modifies this
      ensures state == HandleMessage(old(state), m)
      ensures notices == old(notices) + Notifications(m)
      ensures newVisitorFlash == (old(newVisitorFlash) || (m.Frame? && m.msg.VisitorUpdate?))
      ensures socket == old(socket) && attempts == old(attempts) && sent == old(sent)
      ensures isManualDisconnect == old(isManualDisconnect) && retryScheduled == old(retryScheduled)
      ensures retryPending == old(retryPending) && pendingConnects == old(pendingConnects)
    {
      state := HandleMessage(state, m);
      notices := notices + Notifications(m);
      if m.Frame? && m.msg.VisitorUpdate? {
        newVisitorFlash := true;
      }
    }

    /** The one-second timer that ends the new-visitor flash. */
    method EndFlash()
      modifies this
      ensures !newVisitorFlash
      ensures state == old(state) && socket == old(socket) && attempts == old(attempts) && sent == old(sent)
      ensures isManualDisconnect == old(isManualDisconnect) && retryScheduled == old(retryScheduled)
      ensures retryPending == old(retryPending) && pendingConnects == old(pendingConnects)
      ensures notices == old(notices)
    {
      newVisitorFlash := false;
    }

    /** `onclose` of the current socket: disconnected; then, unless the user
        disconnected or ten retries have run, reconnecting with a retry in 3 s. */
    method OnClose()
      requires Valid() && Live(socket)
      modifies this
      ensures Valid()
      ensures socket == Some(Closed)
      ensures var retry := !old(isManualDisconnect) && old(attempts) < MaxReconnectAttempts;
        && state == old(state).(connectionStatus := if retry then Reconnecting else Disconnected)
        && retryPending == retry
        && retryScheduled == (old(retryScheduled) || retry)
      ensures attempts == old(attempts) && isManualDisconnect == old(isManualDisconnect)
      ensures pendingConnects == old(pendingConnects) && sent == old(sent)
      ensures notices == old(notices) && newVisitorFlash == old(newVisitorFlash)
    {
      socket := Some(Closed);
      state := state.(connectionStatus := Disconnected);
      if !isManualDisconnect && attempts < MaxReconnectAttempts {
        state := state.(connectionStatus := Reconnecting);
        retryScheduled := true;
        retryPending := true;
      }
    }

    /** The retry timer fires: one more attempt is counted, then `connect()`. */
    method FireRetry()
      requires Valid() && retryPending
      modifies this
      ensures Valid()
      ensures attempts == old(attempts) + 1 && attempts <= MaxReconnectAttempts
      ensures !retryPending && socket == Some(Opening)
      ensures state == old(state).(connectionStatus := Connecting)
      ensures isManualDisconnect == old(isManualDisconnect) && retryScheduled == old(retryScheduled)
      ensures pendingConnects == old(pendingConnects) && sent == old(sent)
      ensures notices == old(notices) && newVisitorFlash == old(newVisitorFlash)
    {
      retryPending := false;
      attempts := attempts + 1;
      Connect();
    }

    /** `onerror`: the status only; the `close` event follows separately. */
    method OnError()
      modifies this
      ensures state == old(state).(connectionStatus := Disconnected)
      ensures socket == old(socket) && attempts == old(attempts) && sent == old(sent)
      ensures isManualDisconnect == old(isManualDisconnect) && retryScheduled == old(retryScheduled)
      ensures retryPending == old(retryPending) && pendingConnects == old(pendingConnects)
      ensures notices == old(notices) && newVisitorFlash == old(newVisitorFlash)
      ensures old(Valid()) ==> Valid()
    {
      state := state.(connectionStatus := Disconnected);
    }

    /** `disconnect`: manual from now on, the pending retry cancelled, the socket
        closed and dropped. */
    method Disconnect()
      requires retryPending ==> retryScheduled
      modifies this
      ensures old(attempts) <= MaxReconnectAttempts ==> Valid()
      ensures isManualDisconnect && !retryPending && socket == None
      ensures state == old(state).(connectionStatus := Disconnected)
      ensures attempts == old(attempts) && retryScheduled == old(retryScheduled)
      ensures pendingConnects == old(pendingConnects) && sent == old(sent)
      ensures notices == old(notices) && newVisitorFlash == old(newVisitorFlash)
    {
      isManualDisconnect := true;
      if retryScheduled {
        retryPending := false;
      }
      if socket.Some? {
        socket := None;
      }
      state := state.(connectionStatus := Disconnected);
    }

    /** `reconnect`: clears the flag and the counter, disconnects (which sets the
        flag again) and connects 100 ms later. */
    method Reconnect()
      requires Valid()
      modifies this
      ensures Valid()
      ensures isManualDisconnect && attempts == 0 && !retryPending && socket == None
      ensures pendingConnects == old(pendingConnects) + 1
      ensures state == old(state).(connectionStatus := Disconnected)
      ensures retryScheduled == old(retryScheduled) && sent == old(sent)
      ensures notices == old(notices) && newVisitorFlash == old(newVisitorFlash)
    {
      isManualDisconnect := false;
      attempts := 0;
      Disconnect();
      pendingConnects := pendingConnects + 1;
    }

    /** The 100 ms timer of `reconnect` fires. */
    method FireDelayedConnect()
      requires Valid() && pendingConnects > 0
      modifies this
      ensures Valid()
      ensures pendingConnects == old(pendingConnects) - 1
      ensures old(socket) == Some(Open) ==> socket == old(socket) && state == old(state)
      ensures old(socket) != Some(Open) ==>
        socket == Some(Opening) && state == old(state).(connectionStatus := Connecting)
      ensures attempts == old(attempts) && isManualDisconnect == old(isManualDisconnect)
      ensures retryScheduled == old(retryScheduled) && retryPending == old(retryPending)
      ensures sent == old(sent) && notices == old(notices) && newVisitorFlash == old(newVisitorFlash)
    {
      pendingConnects := pendingConnects - 1;
      Connect();
    }

    /** `clearAlerts`. */
    method ClearAlerts()
      modifies this
      ensures state == old(state).(alerts := [])
      ensures socket == old(socket) && attempts == old(attempts) && sent == old(sent)
      ensures isManualDisconnect == old(isManualDisconnect) && retryScheduled == old(retryScheduled)
      ensures retryPending == old(retryPending) && pendingConnects == old(pendingConnects)
      ensures notices == old(notices) && newVisitorFlash == old(newVisitorFlash)
    {
      state := state.(alerts := []);
    }

    /** `clearEvents`: empties the list and tells the server. */
    method ClearEvents()
      modifies this
      ensures state == old(state).(recentEvents := [])
      ensures sent == old(sent) + (if old(socket) == Some(Open) then [ClientMessage.TrackDashboardAction("clear_events", map[])] else [])
      ensures socket == old(socket) && attempts == old(attempts)
      ensures isManualDisconnect == old(isManualDisconnect) && retryScheduled == old(retryScheduled)
      ensures retryPending == old(retryPending) && pendingConnects == old(pendingConnects)
      ensures notices == old(notices) && newVisitorFlash == old(newVisitorFlash)
    {
      state := state.(recentEvents := []);
      TrackDashboardAction("clear_events", map[]);
    }

    /** `clearSessions`: empties the list and tells the server. */
    method ClearSessions()
      modifies this
      ensures state == old(state).(activeSessions := [])
      ensures sent == old(sent) + (if old(socket) == Some(Open) then [ClientMessage.TrackDashboardAction("clear_sessions", map[])] else [])
      ensures socket == old(socket) && attempts == old(attempts)
      ensures isManualDisconnect == old(isManualDisconnect) && retryScheduled == old(retryScheduled)
      ensures retryPending == old(retryPending) && pendingConnects == old(pendingConnects)
      ensures notices == old(notices) && newVisitorFlash == old(newVisitorFlash)
    {
      state := state.(activeSessions := []);
      TrackDashboardAction("clear_sessions", map[]);
    }
  }
}
