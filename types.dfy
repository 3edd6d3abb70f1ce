/** The data shapes shared by the server and the dashboard
    (backend/interfaces/types.ts and frontend/src/types/analytics.ts hold the
    same declarations). Timestamps that the source carries as ISO-8601
    strings are held here as the integer millisecond instant they denote. */
module Types {
  import opened Wrappers
  import opened Json

  datatype Metadata = Metadata(device: string, referrer: string)

  /** A validated page view; its `type` is always "pageview". */
  datatype VisitorEvent = VisitorEvent(
    page: string,
    session_id: string,
    timestamp: int,
    country: string,
    metadata: Metadata)

  datatype SessionData = SessionData(
    session_id: string,
    current_page: string,
    journey: seq<string>,
    duration: int,
    country: string,
    device: string,
    last_activity: int)

  /** `pages_visited` is a plain object built from a `Map`: its entries in order. */
  datatype AnalyticsSummary = AnalyticsSummary(
    total_active: nat,
    total_today: nat,
    pages_visited: seq<(string, nat)>)

  /** The dashboard's filter `{country?, page?}`. */
  datatype StatsFilter = StatsFilter(country: Option<string>, page: Option<string>)

  const NoFilter: StatsFilter := StatsFilter(None, None)

  datatype AlertLevel = Info | Warning | Error

  datatype AlertRecord = AlertRecord(level: AlertLevel, message: string, details: map<string, Json>)

  datatype DetailedStats = DetailedStats(
    summary: AnalyticsSummary,
    sessions: seq<SessionData>,
    country_breakdown: seq<(string, nat)>,
    recent_events: seq<VisitorEvent>)

  /** Every frame the server sends to a dashboard. */
  datatype ServerMessage =
    | VisitorUpdate(event: VisitorEvent, stats: AnalyticsSummary)
    | UserConnected(total_dashboards: nat, connected_at: int)
    | UserDisconnected(total_dashboards: nat)
    | SessionActivity(session: SessionData)
    | Alert(alert: AlertRecord)
    | DetailedStatsResponse(data: DetailedStats)
    | ErrorFrame(message: string)

  /** The two frames a dashboard sends to the server, as the union schema returns them. */
  datatype ClientMessage =
    | RequestDetailedStats(filter: Option<StatsFilter>)
    | TrackDashboardAction(action: string, details: map<string, Json>)
}
