/** The zod schemas of schemas/validation.ts as acceptance predicates on parsed
    JSON values, together with the parse that `safeParse` performs when the
    predicate holds. `z.object` accepts only objects, ignores keys it does not
    name and leaves them out of its output; `.optional()` accepts a missing key
    (JSON has no `undefined`, so a key present with `null` is rejected). */
module Validation {
  import opened Wrappers
  import opened Json
  import opened Types

  // ---------------------------------------------------------------- field tests

  /** `z.string().optional()` for key `k`. */
  predicate OptionalString(o: map<string, Json>, k: string) {
    k !in o || o[k].JString?
  }

  /** `z.string().min(1)` for key `k`. */
  predicate NonEmptyString(o: map<string, Json>, k: string) {
    k in o && o[k].JString? && |o[k].str| >= 1
  }

  /** `z.literal(lit)` for key `k`. */
  predicate HasLiteral(o: map<string, Json>, k: string, lit: string) {
    k in o && o[k] == JString(lit)
  }

  function OptString(o: map<string, Json>, k: string): (r: Option<string>)
    requires OptionalString(o, k)
    ensures r.None? <==> k !in o
    ensures r.Some? ==> o[k] == JString(r.value)
  {
    if k in o then Some(o[k].str) else None
  }

  // ---------------------------------------------------------------- visitor events

  /** `VisitorEventSchema`; the `datetime()` check is the parameter `isDateTime`. */
  predicate VisitorEventSchema(j: Json, isDateTime: string -> bool) {
    && j.JObject?
    && HasLiteral(j.fields, "type", "pageview")
    && NonEmptyString(j.fields, "page")
    && NonEmptyString(j.fields, "session_id")
    && "timestamp" in j.fields && j.fields["timestamp"].JString? && isDateTime(j.fields["timestamp"].str)
    && NonEmptyString(j.fields, "country")
    && "metadata" in j.fields && j.fields["metadata"].JObject?
    && NonEmptyString(j.fields["metadata"].fields, "device")
    && NonEmptyString(j.fields["metadata"].fields, "referrer")
  }

  /** An event the schema would accept: every string field non-empty. */
  predicate WellFormedEvent(e: VisitorEvent) {
    |e.page| >= 1 && |e.session_id| >= 1 && |e.country| >= 1
    && |e.metadata.device| >= 1 && |e.metadata.referrer| >= 1
  }

  /** `VisitorEventSchema.safeParse`, reading the timestamp through `instant`
      (`new Date(s).getTime()`). */
  function ParseVisitorEvent(j: Json, isDateTime: string -> bool, instant: string -> int): (r: Option<VisitorEvent>)
    ensures r.Some? <==> VisitorEventSchema(j, isDateTime)
    ensures r.Some? ==> WellFormedEvent(r.value)
    ensures r.Some? ==> r.value.timestamp == instant(j.fields["timestamp"].str)
  {
    if VisitorEventSchema(j, isDateTime) then
      var o := j.fields;
      var meta := o["metadata"].fields;
      Some(VisitorEvent(o["page"].str, o["session_id"].str, instant(o["timestamp"].str), o["country"].str,
                        Metadata(meta["device"].str, meta["referrer"].str)))
    else None
  }

  /** The JSON body a tracker posts for `e`, with its instant written by `render`. */
  function EncodeVisitorEvent(e: VisitorEvent, render: int -> string): Json {
    JObject(map[
      "type" := JString("pageview"),
      "page" := JString(e.page),
      "session_id" := JString(e.session_id),
      "timestamp" := JString(render(e.timestamp)),
      "country" := JString(e.country),
      "metadata" := JObject(map["device" := JString(e.metadata.device), "referrer" := JString(e.metadata.referrer)])])
  }

  /** Every well-formed event survives encoding and validation unchanged, given a
      timestamp rendering that the datetime check accepts and that parses back. */
  lemma VisitorEventRoundTrip(e: VisitorEvent, isDateTime: string -> bool, instant: string -> int, render: int -> string)
    requires WellFormedEvent(e)
    requires isDateTime(render(e.timestamp)) && instant(render(e.timestamp)) == e.timestamp
    ensures ParseVisitorEvent(EncodeVisitorEvent(e, render), isDateTime, instant) == Some(e)
  {
    var j := EncodeVisitorEvent(e, render);
    assert VisitorEventSchema(j, isDateTime);
  }

  /** Dropping any one required field makes the schema reject the event. */
  lemma VisitorEventFieldsRequired(j: Json, isDateTime: string -> bool, k: string)
    requires j.JObject? && k in {"type", "page", "session_id", "timestamp", "country", "metadata"}
    ensures !VisitorEventSchema(JObject(j.fields - {k}), isDateTime)
  {
  }

  // ---------------------------------------------------------------- client messages

  /** The optional `filter` object of `request_detailed_stats`. */
  predicate FilterSchema(j: Json) {
    j.JObject? && OptionalString(j.fields, "country") && OptionalString(j.fields, "page")
  }

  predicate RequestDetailedStatsSchema(j: Json) {
    && j.JObject?
    && HasLiteral(j.fields, "type", "request_detailed_stats")
    && ("filter" !in j.fields || FilterSchema(j.fields["filter"]))
  }

  /** `details` is `z.record(z.any())`: any object, whatever its values. */
  predicate TrackDashboardActionSchema(j: Json) {
    && j.JObject?
    && HasLiteral(j.fields, "type", "track_dashboard_action")
    && NonEmptyString(j.fields, "action")
    && "details" in j.fields && j.fields["details"].JObject?
  }

  predicate ClientToServerMessageSchema(j: Json) {
    RequestDetailedStatsSchema(j) || TrackDashboardActionSchema(j)
  }

  /** `ClientToServerMessageSchema.safeParse`: the first member of the union that
      accepts the value decides the result. */
  function ParseClientMessage(j: Json): (r: Option<ClientMessage>)
    ensures r.Some? <==> ClientToServerMessageSchema(j)
    ensures r.Some? && r.value.RequestDetailedStats? ==> RequestDetailedStatsSchema(j)
    ensures r.Some? && r.value.TrackDashboardAction? ==>
      TrackDashboardActionSchema(j) && r.value.action == j.fields["action"].str
      && r.value.details == j.fields["details"].fields
  {
    if RequestDetailedStatsSchema(j) then
      var o := j.fields;
      var filter := if "filter" in o
        then Some(StatsFilter(OptString(o["filter"].fields, "country"), OptString(o["filter"].fields, "page")))
        else None;
      Some(RequestDetailedStats(filter))
    else if TrackDashboardActionSchema(j) then
      Some(TrackDashboardAction(j.fields["action"].str, j.fields["details"].fields))
    else None
  }

  /** The two recognised `type` tags; any other value, or none, is rejected. */
  lemma UnknownTypeRejected(j: Json)
    requires j.JObject?
    requires "type" !in j.fields
          || (j.fields["type"] != JString("request_detailed_stats") && j.fields["type"] != JString("track_dashboard_action"))
    ensures ParseClientMessage(j) == None
  {
  }

  /** A message the union accepts: a tracked action needs a non-empty name. */
  predicate WellFormedClientMessage(m: ClientMessage) {
    m.TrackDashboardAction? ==> |m.action| >= 1
  }

  function OptionalStringField(k: string, v: Option<string>): map<string, Json> {
    if v.Some? then map[k := JString(v.value)] else map[]
  }

  /** The frame `requestDetailedStats` and `trackDashboardAction` send. */
  function EncodeClientMessage(m: ClientMessage): Json {
    match m
    case RequestDetailedStats(filter) =>
      var base := map["type" := JString("request_detailed_stats")];
      if filter.Some? then
        JObject(base["filter" := JObject(OptionalStringField("country", filter.value.country)
                                        + OptionalStringField("page", filter.value.page))])
      else JObject(base)
    case TrackDashboardAction(action, details) =>
      JObject(map["type" := JString("track_dashboard_action"), "action" := JString(action), "details" := JObject(details)])
  }

  /** What the dashboard sends, the server reads back exactly. */
  lemma ClientMessageRoundTrip(m: ClientMessage)
    requires WellFormedClientMessage(m)
    ensures ParseClientMessage(EncodeClientMessage(m)) == Some(m)
  {
    match m
    case RequestDetailedStats(filter) =>
      if filter.Some? {
        var f := OptionalStringField("country", filter.value.country) + OptionalStringField("page", filter.value.page);
        assert OptString(f, "country") == filter.value.country;
        assert OptString(f, "page") == filter.value.page;
      }
    case TrackDashboardAction(action, details) =>
  }

  /** Whatever the server accepts is something the dashboard could have sent. */
  lemma ParsedMessagesWellFormed(j: Json)
    requires ParseClientMessage(j).Some?
    ensures WellFormedClientMessage(ParseClientMessage(j).value)
    ensures ParseClientMessage(EncodeClientMessage(ParseClientMessage(j).value)) == ParseClientMessage(j)
  {
    ClientMessageRoundTrip(ParseClientMessage(j).value);
  }

  // ---------------------------------------------------------------- query string

  /** The query parameters of the REST endpoints; `limit` stays the raw string,
      its `parseInt` transform is not part of this model. */
  datatype AnalyticsQuery = AnalyticsQuery(country: Option<string>, page: Option<string>, limit: Option<string>)

  predicate AnalyticsQuerySchema(j: Json) {
    j.JObject? && OptionalString(j.fields, "country") && OptionalString(j.fields, "page") && OptionalString(j.fields, "limit")
  }

  function ParseAnalyticsQuery(j: Json): (r: Option<AnalyticsQuery>)
    ensures r.Some? <==> AnalyticsQuerySchema(j)
    ensures r.Some? ==> (r.value.country.None? <==> "country" !in j.fields)
    ensures r.Some? ==> (r.value.page.None? <==> "page" !in j.fields)
    ensures r.Some? ==> (r.value.limit.None? <==> "limit" !in j.fields)
  {
    if AnalyticsQuerySchema(j) then
      Some(AnalyticsQuery(OptString(j.fields, "country"), OptString(j.fields, "page"), OptString(j.fields, "limit")))
    else None
  }

  /** Every field is optional: the empty query passes, as does any object whose
      named fields are strings. */
  lemma EmptyQueryAccepted()
    ensures ParseAnalyticsQuery(JObject(map[])) == Some(AnalyticsQuery(None, None, None))
  {
  }
}
