/** `receive_visitor_event` of controllers/analytics_controller.ts: validate the
    body, record the event, then broadcast the visitor update, the session and,
    when the store raises one, the alert. The HTTP response is its status code. */
module Ingest {
  import opened Wrappers
  import opened Json
  import opened Seqs
  import opened OrderedMaps
  import opened Types
  import opened Validation
  import opened Dispatch
  import opened Analytics
  import opened WebSocket

  const Created: int := 201
  const BadRequest: int := 400

  /** The broadcasts that follow a recorded event, each over the registry the
      previous one left. */
  function IngestBroadcast(reg: Registry, e: VisitorEvent, session: SessionData, summary: AnalyticsSummary,
                           alert: Option<AlertRecord>): Registry
  {
    var afterUpdate := Fanout(reg, VisitorUpdate(e, summary), None, reg.clients.keys);
    var afterSession := Fanout(afterUpdate, SessionActivity(session), None, afterUpdate.clients.keys);
    if alert.Some? then Fanout(afterSession, Alert(alert.value), None, afterSession.clients.keys)
    else afterSession
  }

  /** When no send throws, every open dashboard receives the update, then the
      session, then the alert if there is one, and no dashboard is dropped. */
  lemma HealthyIngest(reg: Registry, e: VisitorEvent, session: SessionData, summary: AnalyticsSummary,
                      alert: Option<AlertRecord>)
    requires Healthy(reg.clients.m)
    ensures var keys := reg.clients.keys;
      var m := reg.clients.m;
      IngestBroadcast(reg, e, session, summary, alert)
      == Registry(reg.clients, reg.outbox
                               + Deliveries(VisitorUpdate(e, summary), None, keys, m)
                               + Deliveries(SessionActivity(session), None, keys, m)
                               + (if alert.Some? then Deliveries(Alert(alert.value), None, keys, m) else []))
  {
    var afterUpdate := Fanout(reg, VisitorUpdate(e, summary), None, reg.clients.keys);
    HealthyFanout(reg, VisitorUpdate(e, summary), None, reg.clients.keys);
    var afterSession := Fanout(afterUpdate, SessionActivity(session), None, afterUpdate.clients.keys);
    HealthyFanout(afterUpdate, SessionActivity(session), None, afterUpdate.clients.keys);
    if alert.Some? {
      HealthyFanout(afterSession, Alert(alert.value), None, afterSession.clients.keys);
    }
  }

  /** The request handler; `isDateTime` and `instant` are the timestamp check and
      parse of the schema, `now` the instant of the request. */
  method ReceiveVisitorEvent(analytics: AnalyticsService, ws: WebSocketService, body: Json,
                             isDateTime: string -> bool, instant: string -> int, now: int)
    returns (status: int)
    requires analytics.Valid()
    modifies analytics, ws
    ensures analytics.Valid()
    ensures ParseVisitorEvent(body, isDateTime, instant).None? ==>
      status == BadRequest && unchanged(analytics) && unchanged(ws)
    ensures ParseVisitorEvent(body, isDateTime, instant).Some? ==>
      var e := ParseVisitorEvent(body, isDateTime, instant).value;
      && status == Created
      && analytics.sessions == SessionStep(old(analytics.sessions), e)
      && analytics.dailyEvents == old(analytics.dailyEvents) + [e]
      && analytics.pageViews == Bump(old(analytics.pageViews), e.page)
      && analytics.countryStats == Bump(old(analytics.countryStats), e.country)
      && ws.Abs() == IngestBroadcast(old(ws.Abs()), e, analytics.sessions.m[e.session_id],
                                     analytics.GenerateSummary(now), analytics.CheckForAlerts(now))
      && ws.listening == old(ws.listening)
  {
    var parsed := ParseVisitorEvent(body, isDateTime, instant);
    if parsed.None? {
      return BadRequest;
    }
    var e := parsed.value;
    var session, summary := analytics.ProcessVisitorEvent(e, now);
    ghost var start := ws.Abs();
    ws.BroadcastVisitorUpdate(e, summary);
    ghost var afterUpdate := ws.Abs();
    assert afterUpdate == Fanout(start, VisitorUpdate(e, summary), None, start.clients.keys);
    ws.BroadcastSessionActivity(session);
    ghost var afterSession := ws.Abs();
    assert afterSession == Fanout(afterUpdate, SessionActivity(session), None, afterUpdate.clients.keys);
    var alert := analytics.CheckForAlerts(now);
    if alert.Some? {
      ws.BroadcastAlert(alert.value.level, alert.value.message, alert.value.details);
      assert ws.Abs() == Fanout(afterSession, Alert(alert.value), None, afterSession.clients.keys);
    }
    assert ws.Abs() == IngestBroadcast(start, e, session, summary, alert);
    return Created;
  }
}
