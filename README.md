# Real-time visitor analytics, modelled in Dafny

This project models the core of a real-time visitor analytics system:

- **The server.** An HTTP endpoint accepts page-view events from tracked websites and validates each one against a schema. The event is recorded in an in-memory analytics store: sessions, the day's event log, and two counter maps. The server then fans the update out to every connected dashboard over a websocket registry.
- **The per-dashboard hook.** Each browser dashboard runs a hook that folds the frames it receives into its state. The hook reconnects automatically, at most ten times.
- **Around them:** configuration loading and validation, a cleanup manager that prunes the store periodically and shuts the server down in a fixed order, and the display helpers of three dashboard components.

The model keeps the source's own structure, one module per source file:

- **`Analytics`** (`analytics_service.dfy`):
  - class `AnalyticsService` holding the four pieces of store state;
  - pure specification functions (`SessionStep`, `Bump`, `PruneSessions`, `ActiveSessionsOf`, `RecentEvents`, `AlertFor`);
  - the cleanup loop, `ExpireSessions`. It walks a snapshot of the session keys and deletes as it goes, as the JavaScript `Map` iteration does.
- **`Dispatch` and `WebSocket`** (`websocket_service.dfy`, `websocket_server.dfy`):
  - the registry of dashboard clients as an insertion-ordered map plus an append-only outbox of delivered frames;
  - `Fanout`, `Disconnect` and `SendTo` for the mutually recursive broadcast and disconnect. A send that throws deletes that client and broadcasts `user_disconnected` from inside the loop;
  - class `WebSocketService`, whose methods are proved equal to those functions.
- **`DashboardHook`** (`use_websocket.dfy`):
  - the reducer `HandleMessage` of the dashboard hook;
  - class `DashboardConnection` for the refs and the reconnect state machine. Timer callbacks are the explicit methods `FireRetry`, `FireDelayedConnect` and `EndFlash`.
- **`Validation`** (`validation.dfy`): the zod schemas as acceptance predicates over parsed JSON values.
- **`ServerConfiguration`** (`server_config.dfy`): defaulting, CORS splitting and the six validation checks.
- **`Cleanup`** (`cleanup_manager.dfy`): the cleanup and shutdown guards, the order of shutdown effects, and `format_uptime`.
- **`DashboardView`, `SessionView`, `FilterEditing`** (`dashboard.dfy`, `active_sessions.dfy`, `filter_controls.dfy`): the component helpers.
- **`Ingest`** (`analytics_controller.dfy`): the ingest endpoint that ties the store and the broadcasts together.

Supporting modules:

- `OrderedMaps` is the JavaScript `Map`: a key order plus a dictionary. Setting an existing key keeps its position.
- `Seqs`, `Strings` and `Decimal` hold the filters, the stable descending sort, split/join/trim and integer printing and reading.
- `Durations` has `ParseClock`, which reads texts such as `2h 30m 15s` back to seconds. Every duration formatter is proved against it.

Timestamps are integer milliseconds. Techniques used throughout:

- The clock (`now`), local midnight (`todayStart`), `JSON.parse`, zod's `datetime()` check and the fresh uuid are parameters.
- A socket is `Socket(open, failsOnSend)`: its `readyState`, plus whether `send` would throw.

Where the documentation of the system and the code disagree, the model follows the code:

- **`recent_events` of `get_detailed_stats`** filters the whole log first and then keeps the last 50. It does not cap first.
- **A client message whose `type` is unknown** fails the union schema. It is answered with the `Invalid message format` error frame, not dropped silently; the `default` branch of the server's switch cannot be reached (`Validation.UnknownTypeRejected`, `WebSocket.WebSocketService.OnMessage`).
- **`reconnect`** clears the manual flag and then calls `disconnect`, which sets it again. In source order the flag therefore ends up set (`DashboardHook.DashboardConnection.Reconnect`).
- **`detailed_stats_response`** replaces the dashboard's lists with whatever arrives. It applies none of the 50/20 caps.
- **The excluded client of `broadcast_to_all_clients`** never receives the broadcast message. It can still receive a `user_disconnected` notice when another client's send throws and triggers `handle_client_disconnect` inside the loop.
- **The `error` frame** falls through to the dashboard's `default` branch and changes nothing.
- **A page or country named `__proto__`** is counted in the map but lost from `pages_visited` and `country_breakdown`: assigning it on a plain object calls the prototype setter, which ignores a number (`OrderedMaps.ObjectEntries`).

## Model

| member | source | states |
|---|---|---|
| Analytics.SessionDuration | services/analytics_service.ts:88-92 | the duration is the gap in whole seconds rounded down (d·1000 ≤ end−start < d·1000+1000), so it is never negative when the events are in order and may be negative otherwise |
| Analytics.UpdatedSession | services/analytics_service.ts:47-80 | an unseen id gives journey [page], duration 0, country and device from the event and last_activity its timestamp; a known session gets the page appended to its journey, current_page and last_activity overwritten, country, device and id kept, and the duration since its previous activity |
| Analytics.SessionStep | services/analytics_service.ts:47-80 | the session map after `update_session`: the event's id maps to the updated session, every other id keeps its session, and no other id appears or disappears |
| Analytics.OneVisitorJourney | services/analytics_service.ts:47-80 | the events of one new visitor build one session whose journey is their pages in order, whose current page and last activity are the newest event's, whose country and device are the first event's, and whose duration is the gap between the last two events |
| Analytics.SessionStepWellFormed | services/analytics_service.ts:63-78 | every stored session stays keyed by its own id with its current page at the end of its journey |
| Analytics.Bump | services/analytics_service.ts:29-34 | a counter is incremented by one (starting from 0 when absent); a new key goes to the end of the enumeration order, an existing one keeps its place |
| Analytics.BumpTotal | services/analytics_service.ts:29-34 | each increment raises the counter map's total by exactly one |
| Analytics.EventKeepsStoreValid | services/analytics_service.ts:18-40 | processing an event keeps the store invariant: well-formed sessions, the total of `page_views` equal to the total of `country_stats`, and the log no longer than that total |
| Analytics.ActiveSessionsOf | services/analytics_service.ts:127-145 | the result holds exactly the sessions active in the 30-minute window that pass the country and page filters (each applied only when non-empty), each as many times as the input holds it, sorted by last activity newest first |
| Analytics.FilterSessions | services/analytics_service.ts:127-140 | the three successive filters (window, then country, then page) keep the same sessions in the same order as one filter by their conjunction |
| Analytics.EventsMatching | services/analytics_service.ts:160-171 | the filtered events are events of the log that pass the filter, and every event of the log that passes the filter is among them |
| Analytics.RecentEvents | services/analytics_service.ts:174-178 | at most 50 events, a permutation of the last min(50, n) filtered events, sorted newest first |
| Analytics.LastMinuteCountIsFiltered | services/analytics_service.ts:204-207 | the length of the filtered log equals the number of log positions newer than one minute |
| Analytics.AlertFor | services/analytics_service.ts:198-221 | an alert exists exactly when more than 10 events are newer than one minute; it is an `info` alert with the source's message and details `{visitors_last_minute: count, threshold: 10}` |
| Analytics.AlertScenario | services/analytics_service.ts:209-220 | eleven events inside the window raise the alert with count 11; ten raise none |
| Analytics.AlertIgnoresOldEvents | services/analytics_service.ts:204-207 | prepending events older than the window never changes the alert |
| Analytics.RetainedKeys | services/analytics_service.ts:230-234 | the surviving keys are exactly those of the snapshot whose session is not older than the cutoff |
| Analytics.CleanupStep | services/analytics_service.ts:230-234 | one iteration of the deleting loop, visiting the next key of the snapshot, keeps the loop invariant whether it deletes or keeps that session |
| Analytics.PruneSessions | services/analytics_service.ts:226-234 | after the cleanup a session remains exactly when it was present and its last activity is not before the cutoff, unchanged; the key order stays valid |
| Analytics.ExpireSessions | services/analytics_service.ts:230-234 | the loop deleting from the map while iterating over it leaves exactly `PruneSessions` of the starting map |
| Analytics.CleanupIdempotent | services/analytics_service.ts:226-243 | cleaning twice with the same clock is cleaning once, for the sessions and for the log |
| Analytics.CleanupKeepsStoreValid | services/analytics_service.ts:226-243 | the cleanup keeps the store invariant; it never touches the counters |
| Analytics.ActiveCount | services/analytics_service.ts:100-103 | the length of the filtered list of session values is the number of distinct active session ids |
| Analytics.AnalyticsService.constructor | services/analytics_service.ts:7-11 | a new service holds no sessions, no events and empty counters, and the store invariant holds |
| Analytics.AnalyticsService.UpdateSession | services/analytics_service.ts:47-80 | the method returns the session `UpdatedSession` describes, stores it under the event's id, and leaves the log and the counters untouched |
| Analytics.AnalyticsService.ProcessVisitorEvent | services/analytics_service.ts:18-40 | the sessions take one step, the log gains exactly the event, `page_views[page]` and `country_stats[country]` rise by one, the store invariant holds, and the returned summary is the new store's |
| Analytics.AnalyticsService.GenerateSummary | services/analytics_service.ts:98-116 | total_active is the number of sessions active in the window (at most the number of sessions), total_today the length of the log, and pages_visited the page counters in insertion order, without a page named `__proto__` |
| Analytics.AnalyticsService.GetActiveSessions | services/analytics_service.ts:123-146 | exactly the stored sessions active at `now` that pass the filter, with the multiplicity they have among the stored values, newest first, no more than are stored; the store is only read |
| Analytics.AnalyticsService.GetDetailedStats | services/analytics_service.ts:153-192 | the unfiltered summary and the country counters (without a country named `__proto__`), the filtered active sessions, and at most 50 recent events that all pass the filter |
| Analytics.AnalyticsService.CheckForAlerts | services/analytics_service.ts:198-221 | an alert exactly when more than 10 events fall in the last minute; the store is only read |
| Analytics.AnalyticsService.CleanupOldData | services/analytics_service.ts:226-243 | sessions idle since before `now − 24 h` are deleted, the log keeps exactly the events since local midnight, the counters are untouched and the invariant holds |
| Dispatch.Fanout | services/websocket_service.ts:292-312 | a broadcast over the snapshot never grows the registry and never loses frames already sent |
| Dispatch.FanoutStep | services/websocket_service.ts:298-310 | one loop iteration: skip excluded or deleted ids, send to open clients, disconnect a client whose send throws |
| Dispatch.Disconnect | services/websocket_service.ts:172-178 | the registry is no larger than after deleting `id`, and frames are only added |
| Dispatch.SendTo | services/websocket_service.ts:272-285 | a send never grows the registry and only adds frames |
| Dispatch.FanoutShrinks | services/websocket_service.ts:292-312 | a broadcast only drops clients whose send throws, never sends to a closed client, sends only the message or `user_disconnected` notices, gives the excluded id nothing but such notices, and sends the message only to ids of the snapshot |
| Dispatch.FanoutStepShrinks | services/websocket_service.ts:298-310 | the same facts for one iteration, the message going only to the visited id |
| Dispatch.DisconnectShrinks | services/websocket_service.ts:172-178 | a disconnect removes `id` and otherwise only clients whose send throws, and sends nothing but `user_disconnected` notices |
| Dispatch.SendToShrinks | services/websocket_service.ts:272-285 | a send adds only frames of the message to `id` and `user_disconnected` notices, and drops only clients whose send throws |
| Dispatch.HealthyFanout | services/websocket_service.ts:292-312 | when no send throws, a broadcast keeps every client and writes exactly the reference frames, one per open, not excluded client, in snapshot order |
| Dispatch.DeliveriesExactlyOnce | services/websocket_service.ts:298-310 | in the reference frames each registered, open, not excluded client of the snapshot receives the message exactly once and nobody else receives it |
| Dispatch.FanoutAppend | services/websocket_service.ts:298 | a broadcast over `a + b` is one over `a` followed by one over `b` |
| Dispatch.FanoutAtMostOnce | services/websocket_service.ts:292-312 | whatever throws, each client receives the broadcast message at most once, and only ids of the snapshot receive it |
| Dispatch.FailingClientRemoved | services/websocket_service.ts:304-309 | a client reached by the broadcast whose send throws is no longer registered afterwards |
| Dispatch.HealthyPrefix | services/websocket_service.ts:298-310 | over a part of the snapshot without the one throwing client, a broadcast keeps every client and writes exactly the reference frames |
| Dispatch.OneFailingClient | services/websocket_service.ts:292-312 | with exactly one throwing client, a broadcast removes exactly it. The clients before it get the message, everyone left hears the new count, and then the clients after it get the message |
| Dispatch.HealthyDisconnect | services/websocket_service.ts:172-178 | without throwing sends, a disconnect removes the id and sends every remaining open client the remaining count once |
| Dispatch.DisconnectAbsent | services/websocket_service.ts:172-178 | disconnecting an unregistered id leaves the map as it was and still broadcasts the count |
| Dispatch.HealthyConnect | services/websocket_service.ts:43-55 | a connection grows the map by one, greets the newcomer (if open) with the new size, and sends every other open client that same message once |
| Dispatch.HealthySendTo | services/websocket_service.ts:272-285 | a send to a client whose send succeeds writes one frame to it when it is open and nothing otherwise, and changes no registration |
| Dispatch.FailingSendTo | services/websocket_service.ts:279-284 | a send that throws removes exactly that client; every other client whose send succeeds stays registered |
| Dispatch.ClosedFanoutSilent | services/websocket_service.ts:303 | once no socket is open a broadcast changes nothing |
| WebSocket.CloseSockets | services/websocket_service.ts:346-348 | every registered socket leaves the OPEN state, the registrations themselves unchanged |
| WebSocket.ParseFrame | services/websocket_service.ts:85-102 | a frame is accepted exactly when it is JSON and the union schema accepts it, and then it is what the schema returns |
| WebSocket.WebSocketService.constructor | services/websocket_service.ts:28-37 | a new server listens with no clients registered and nothing sent |
| WebSocket.WebSocketService.BroadcastToAllClients | services/websocket_service.ts:292-312 | the loop over a snapshot of the keys, deleting along the way, leaves exactly the registry `Fanout` describes |
| WebSocket.WebSocketService.HandleClientDisconnect | services/websocket_service.ts:172-178 | the registry becomes `Disconnect` of the old one |
| WebSocket.WebSocketService.BroadcastUserDisconnectedEvent | services/websocket_service.ts:256-265 | broadcasts the current registry size to everyone |
| WebSocket.WebSocketService.SendToClient | services/websocket_service.ts:272-285 | the registry becomes `SendTo` of the old one |
| WebSocket.WebSocketService.SendErrorToClient | services/websocket_service.ts:319-324 | sends `{type: "error", message}` to the client as `send_to_client` does |
| WebSocket.WebSocketService.SendUserConnectedEvent | services/websocket_service.ts:237-251 | greets the new client with the current size, then broadcasts the same message to all others |
| WebSocket.WebSocketService.OnConnection | services/websocket_service.ts:43-55 | registers the socket under a fresh id and leaves the registry `Connect` describes |
| WebSocket.WebSocketService.OnMessage | services/websocket_service.ts:58-128 | a frame that is not JSON or that the schema rejects earns one `Invalid message format` error frame; a stats request is answered with the detailed stats of its filter; a tracked action changes nothing |
| WebSocket.WebSocketService.HandleDetailedStatsRequest | services/websocket_service.ts:135-148 | sends one `detailed_stats_response` carrying the store's detailed stats, only to the requester |
| WebSocket.WebSocketService.HandleDashboardAction | services/websocket_service.ts:155-166 | changes no state and sends nothing |
| WebSocket.WebSocketService.BroadcastVisitorUpdate | services/websocket_service.ts:185-195 | broadcasts `visitor_update` with the event and the stats to everyone |
| WebSocket.WebSocketService.BroadcastSessionActivity | services/websocket_service.ts:201-208 | broadcasts `session_activity` with the session to everyone |
| WebSocket.WebSocketService.BroadcastAlert | services/websocket_service.ts:216-231 | broadcasts `alert` with level, message and details to everyone |
| WebSocket.WebSocketService.GetConnectionStats | services/websocket_service.ts:330-338 | total_connections equals the length of the id list, whose ids are exactly the registered ones, without repeats |
| WebSocket.WebSocketService.Close | services/websocket_service.ts:343-356 | every socket is closed, the registrations and the outbox are otherwise unchanged, and the server stops listening |
| DashboardHook.Push | frontend/src/hooks/useWebSocket.ts:62 | `[x, ...s].slice(0, cap)` has x first, then the start of s, and length min(|s|+1, cap) |
| DashboardHook.FindSessionIndex | frontend/src/hooks/useWebSocket.ts:115 | the index of the first entry with the id, or −1 when none has it |
| DashboardHook.UpdateSessionInList | frontend/src/hooks/useWebSocket.ts:114-124 | a present id is replaced in place, the length and every other entry unchanged; an absent one goes in front of the list, truncated to 20 |
| DashboardHook.UpdateSessionKeepsIdsDistinct | frontend/src/hooks/useWebSocket.ts:114-124 | a list with one entry per session keeps that property |
| DashboardHook.UpdateSessionFindsNewEntry | frontend/src/hooks/useWebSocket.ts:114-124 | afterwards the first entry for the id is the session just received, at its old index or in front |
| DashboardHook.UpdateSessionIdempotent | frontend/src/hooks/useWebSocket.ts:114-124 | receiving the same session twice in a row is receiving it once |
| DashboardHook.HandleMessage | frontend/src/hooks/useWebSocket.ts:53-112 | each field changes only under the message types that write it; the connection status never changes; error frames, unknown types and unparsable text change nothing |
| DashboardHook.VisitorUpdateEffect | frontend/src/hooks/useWebSocket.ts:58-63 | `visitor_update` shows its stats and puts its event first among at most 50; sessions, alerts and the count are untouched |
| DashboardHook.AlertEffect | frontend/src/hooks/useWebSocket.ts:86-90 | an alert goes first among at most 10 and nothing else changes |
| DashboardHook.DashboardCountEffect | frontend/src/hooks/useWebSocket.ts:78-84 | `user_connected` and `user_disconnected` set only the dashboard count |
| DashboardHook.DetailedStatsEffect | frontend/src/hooks/useWebSocket.ts:97-104 | a detailed stats response replaces summary, sessions and events with what it carries, uncapped |
| DashboardHook.HandleMessageKeepsBounds | frontend/src/hooks/useWebSocket.ts:53-112 | every message but a detailed stats response keeps the lists within 50 events, 20 sessions and 10 alerts |
| DashboardHook.Notifications | frontend/src/hooks/useWebSocket.ts:64-68 | the chime and the flash exactly on a visitor update, the double beep exactly on a warning or error alert |
| DashboardHook.DashboardConnection.constructor | frontend/src/hooks/useWebSocket.ts:30-41 | mounting gives the initial state connecting, one socket opening, no attempts, no retry and the manual flag clear |
| DashboardHook.DashboardConnection.Connect | frontend/src/hooks/useWebSocket.ts:141-149 | nothing when the socket is open; otherwise status `connecting` and a new opening socket, all else unchanged |
| DashboardHook.DashboardConnection.SendMessage | frontend/src/hooks/useWebSocket.ts:126-132 | a frame is written exactly when the socket is open; nothing else changes |
| DashboardHook.DashboardConnection.RequestDetailedStats | frontend/src/hooks/useWebSocket.ts:134-139 | sends `request_detailed_stats` with the filter when open |
| DashboardHook.DashboardConnection.TrackDashboardAction | frontend/src/hooks/useWebSocket.ts:209-215 | sends `track_dashboard_action` with the action and details when open |
| DashboardHook.DashboardConnection.OnOpen | frontend/src/hooks/useWebSocket.ts:151-158 | status `connected`, attempts reset to 0, and one `request_detailed_stats` without filter sent |
| DashboardHook.DashboardConnection.OnMessage | frontend/src/hooks/useWebSocket.ts:53-112 | the state becomes `HandleMessage` of the old state, the sounds are recorded and the flash turns on for a visitor update |
| DashboardHook.DashboardConnection.EndFlash | frontend/src/hooks/useWebSocket.ts:68 | the one-second timer turns the flash off and changes nothing else |
| DashboardHook.DashboardConnection.OnClose | frontend/src/hooks/useWebSocket.ts:162-174 | status `disconnected`; then, unless the flag is set or 10 attempts have run, `reconnecting` with one retry pending |
| DashboardHook.DashboardConnection.FireRetry | frontend/src/hooks/useWebSocket.ts:169-172 | the retry counts one more attempt, never past 10, and connects again |
| DashboardHook.DashboardConnection.OnError | frontend/src/hooks/useWebSocket.ts:176-179 | only the status becomes `disconnected` |
| DashboardHook.DashboardConnection.Disconnect | frontend/src/hooks/useWebSocket.ts:187-200 | the manual flag is set, the pending retry cancelled, the socket dropped and the status `disconnected` |
| DashboardHook.DashboardConnection.Reconnect | frontend/src/hooks/useWebSocket.ts:202-207 | attempts reset to 0, the flag set again by `disconnect`, the socket dropped and one delayed connect pending |
| DashboardHook.DashboardConnection.FireDelayedConnect | frontend/src/hooks/useWebSocket.ts:206 | the 100 ms timer runs `connect` |
| DashboardHook.DashboardConnection.ClearAlerts | frontend/src/hooks/useWebSocket.ts:217-222 | the alerts become empty and nothing else changes |
| DashboardHook.DashboardConnection.ClearEvents | frontend/src/hooks/useWebSocket.ts:224-230 | the events become empty and a `track_dashboard_action` named `clear_events` is sent when open |
| DashboardHook.DashboardConnection.ClearSessions | frontend/src/hooks/useWebSocket.ts:232-238 | the sessions become empty and a `track_dashboard_action` named `clear_sessions` is sent when open |
| Validation.OptString | schemas/validation.ts:21-22 | an optional string field is absent exactly when its key is missing, and otherwise is that string |
| Validation.ParseVisitorEvent | schemas/validation.ts:4-14 | an event is returned exactly when the schema accepts the body; its string fields are then non-empty and its instant is the parsed timestamp |
| Validation.VisitorEventRoundTrip | schemas/validation.ts:4-14 | every well-formed event, encoded with a timestamp the datetime check accepts, is accepted and read back unchanged |
| Validation.VisitorEventFieldsRequired | schemas/validation.ts:4-14 | dropping any required field makes the schema reject the body |
| Validation.ParseClientMessage | schemas/validation.ts:17-37 | a message is returned exactly when one member of the union accepts the frame, and its kind is the member that accepted it |
| Validation.UnknownTypeRejected | schemas/validation.ts:34-37 | a frame whose `type` is neither recognised tag is rejected |
| Validation.ClientMessageRoundTrip | schemas/validation.ts:17-37 | every well-formed message the dashboard sends is read back exactly by the server |
| Validation.ParsedMessagesWellFormed | schemas/validation.ts:17-37 | everything the union accepts is well formed and reads back the same after re-encoding |
| Validation.ParseAnalyticsQuery | schemas/validation.ts:40-47 | the query is accepted exactly when the schema accepts it; each field is absent exactly when its key is |
| Validation.EmptyQueryAccepted | schemas/validation.ts:40-47 | the empty query is accepted with every field absent |
| ServerConfiguration.TextOr | backend/config/server_config.ts:31-32 | `process.env.X \|\| fallback`: the fallback, or the variable's non-empty value |
| ServerConfiguration.CorsOrigins | backend/config/server_config.ts:38-40 | a set variable gives one trimmed, comma-free origin per comma-separated piece; otherwise the default origin alone |
| ServerConfiguration.BuildConfig | backend/config/server_config.ts:28-55 | a set port or websocket port variable becomes that port, and the CORS origins are the split list |
| ServerConfiguration.ConfigErrors | backend/config/server_config.ts:68-106 | at most six findings, in check order |
| ServerConfiguration.ConfigErrorsListFailures | backend/config/server_config.ts:72-105 | each finding is present exactly when its check fails: either port outside 1..65535, equal ports, a session timeout or cleanup interval below 1, an unknown environment |
| ServerConfiguration.Messages | backend/config/server_config.ts:73-103 | one message per finding, in order |
| ServerConfiguration.Check | backend/config/server_config.ts:72-74 | one `if (failed) errors.push(message)` keeps the pushed messages equal to the messages of the findings so far |
| ServerConfiguration.ValidateConfig | backend/config/server_config.ts:68-110 | throws exactly when some check fails, with the joined messages of all failures |
| ServerConfiguration.LoadServerConfig | backend/config/server_config.ts:27-61 | the built configuration exactly when it validates, otherwise the validation error |
| ServerConfiguration.DefaultsAreValid | backend/config/server_config.ts:28-55 | with no variables the defaults are 3000, "0.0.0.0", "development", 8080, the localhost origin, 60, 30 and 10, and they pass |
| ServerConfiguration.UncheckedFields | backend/config/server_config.ts:68-110 | host, CORS origins and the alert threshold never affect validation |
| ServerConfiguration.PortErrorsIndependent | backend/config/server_config.ts:72-85 | two equal out-of-range ports give all three port findings, each check independent of the others |
| ServerConfiguration.CorsOriginsFromVariable | backend/config/server_config.ts:38-40 | a set variable yields the trimmed pieces of its comma split, in order |
| Cleanup.IntervalMs | backend/utils/cleanup_manager.ts:24 | the interval is the configured minutes times 60 000 ms, at least a minute for a valid configuration |
| Cleanup.ShutdownOrder | backend/utils/cleanup_manager.ts:103-135 | the flag is set first; the interval is cleared before the final cleanup, which precedes closing the connections, which precedes the exit |
| Cleanup.UptimeTokens | backend/utils/cleanup_manager.ts:187-195 | the tokens written are the non-zero hours, minutes and seconds, and they add up to the uptime |
| Cleanup.UptimeText | backend/utils/cleanup_manager.ts:197 | the text is "0s" without tokens, else the tokens joined by spaces |
| Cleanup.FormatUptimeRoundTrip | backend/utils/cleanup_manager.ts:187-198 | read back, the text gives the uptime again, and it is "0s" exactly for zero |
| Cleanup.CleanupManager.constructor | backend/utils/cleanup_manager.ts:9-17 | no interval, not shutting down, no effects |
| Cleanup.CleanupManager.StartCleanupScheduler | backend/utils/cleanup_manager.ts:23-38 | the periodic timer at the configured interval, then a one-off cleanup 30 s later |
| Cleanup.CleanupManager.PerformCleanup | backend/utils/cleanup_manager.ts:44-65 | nothing once a shutdown has begun; otherwise the store's cleanup |
| Cleanup.CleanupManager.GracefulShutdown | backend/utils/cleanup_manager.ts:103-135 | a second call changes nothing; the first sets the flag, clears the interval, cleans the store, closes every socket and the server, waits and exits 0, in that order; the counters are kept, and the store and the client registry are left well formed |
| Cleanup.CleanupManager.StopCleanupScheduler | backend/utils/cleanup_manager.ts:140-145 | the interval is cleared if held and forgotten; a second call changes nothing |
| DashboardView.GetTopPages | frontend/src/components/Dashboard.tsx:41-47 | min(5, number of pages) entries |
| DashboardView.TopPagesOrdered | frontend/src/components/Dashboard.tsx:42-44 | counts do not increase along the result, and each entry is an entry of the summary |
| DashboardView.TopPagesOmittedNotLarger | frontend/src/components/Dashboard.tsx:43-44 | a page left out was visited no more often than the last one shown |
| DashboardView.TopPagesDistinct | frontend/src/components/Dashboard.tsx:42-46 | pages distinct in the summary stay distinct in the top five |
| DashboardView.UptimeLabelRoundTrip | frontend/src/components/Dashboard.tsx:55-59 | read back, a label gives the uptime below a minute and the uptime rounded down to whole minutes beyond |
| DashboardView.FormatUptimeRoundTrip | frontend/src/components/Dashboard.tsx:49-60 | the same for the uptime since the start, in whole seconds rounded down |
| SessionView.FormatDurationRoundTrip | frontend/src/components/ActiveSessions.tsx:17-22 | read back, every duration label, negative ones included, gives its duration exactly |
| SessionView.AgoLabelRoundTrip | frontend/src/components/ActiveSessions.tsx:31-35 | read back, the label gives the elapsed seconds below a minute, and rounded down to whole minutes or hours beyond |
| SessionView.FormatLastActivity | frontend/src/components/ActiveSessions.tsx:24-39 | "Unknown" exactly for a timestamp that is not an instant; otherwise the label of the code as written |
| SessionView.LastActivityUnknownUnreachable | frontend/src/components/ActiveSessions.tsx:24-39 | as written, an unparsable timestamp is shown as "NaNh ago" and "Unknown" is never shown |
| SessionView.FormatLastActivityRoundTrip | frontend/src/components/ActiveSessions.tsx:26-35 | the label is the elapsed time followed by " ago", and reads back to it |
| SessionView.FlagsAreIsoFlags | frontend/src/components/ActiveSessions.tsx:42-52 | each table entry is the regional-indicator flag of the country's ISO code |
| SessionView.CountryFlag | frontend/src/components/ActiveSessions.tsx:41-54 | a table country gets its flag and every other country the globe |
| SessionView.InheritedCountryHasNoFlag | frontend/src/components/ActiveSessions.tsx:53 | as written, `__proto__` and `toString` look up to inherited members, not flag text |
| SessionView.CountryFlagAgrees | frontend/src/components/ActiveSessions.tsx:53 | the intended lookup agrees with the code for every name not inherited from `Object.prototype` |
| SessionView.DeviceIcon | frontend/src/components/ActiveSessions.tsx:56-67 | mobile and tablet give the phone, desktop its own icon, anything else the laptop, ignoring case |
| SessionView.DeviceIconIgnoresCase | frontend/src/components/ActiveSessions.tsx:57 | lower-casing the device first changes no icon |
| SessionView.ToLowerIdempotent | frontend/src/components/ActiveSessions.tsx:57 | lower-casing twice is lower-casing once |
| SessionView.ShortId | frontend/src/components/ActiveSessions.tsx:110 | the last 8 characters, or the whole id when shorter |
| SessionView.ShortIdOfShort | frontend/src/components/ActiveSessions.tsx:110 | ids of at most 8 characters are shown whole |
| FilterEditing.HandleCountryChange | frontend/src/components/FilterControls.tsx:20-28 | "all" removes the country, any other value sets it, and the page is untouched |
| FilterEditing.HandlePageChange | frontend/src/components/FilterControls.tsx:30-38 | "all" removes the page, any other value sets it, and the country is untouched |
| FilterEditing.ClearFilters | frontend/src/components/FilterControls.tsx:40-42 | the empty filter |
| FilterEditing.FilterChangesIdempotent | frontend/src/components/FilterControls.tsx:20-38 | the same change twice is the change once, and a country change and a page change commute |
| FilterEditing.AllIsCleared | frontend/src/components/FilterControls.tsx:20-42 | "all" on both selects gives the filter clearing gives |
| FilterEditing.PageOptions | frontend/src/components/FilterControls.tsx:18 | one option per summary entry, in order |
| FilterEditing.PageOptionsAreSummaryPages | frontend/src/components/FilterControls.tsx:18 | the offered pages are exactly the pages of the summary |
| FilterEditing.CountriesHaveFlags | frontend/src/components/FilterControls.tsx:17 | the offered countries are exactly the flag table's, none of them shown as the globe |
| Ingest.ReceiveVisitorEvent | controllers/analytics_controller.ts:20-56 | a body the schema rejects gives 400 and changes nothing; an accepted event is recorded, then broadcast as visitor update, session and (when raised) alert, and gives 201 |
| Ingest.HealthyIngest | controllers/analytics_controller.ts:36-46 | without throwing sends every open dashboard receives the update, then the session, then the alert if any, and none is dropped |
| OrderedMaps.OMap.Set | services/analytics_service.ts:30 | `Map.set`: the value is stored; a new key goes last in the order, an existing key keeps its place |
| OrderedMaps.OMap.Delete | services/analytics_service.ts:232 | `Map.delete`: the key leaves the dictionary and the order, the size dropping by one when it was present |
| OrderedMaps.OMap.Values | services/analytics_service.ts:101 | `Array.from(map.values())`: the values in key order |
| OrderedMaps.OMap.Entries | services/analytics_service.ts:107-109 | `map.entries()`: the pairs in key order |
| OrderedMaps.ObjectEntries | services/analytics_service.ts:106-109 | copying entries into a plain object keeps exactly the entries whose key is not `__proto__` |
| OrderedMaps.ObjectOfMap | services/analytics_service.ts:181-184 | the object built from a map holds every key's count except that of `__proto__`, and nothing the map does not hold |
| OrderedMaps.CountValuesAt | services/analytics_service.ts:101-103 | filtering the values in key order counts the distinct keys whose value passes |
| Seqs.Filter | services/analytics_service.ts:129-131 | `Array.filter`: no longer than the input, every element kept is an input element that passes, and every passing input element is kept |
| Seqs.FilterAppend | services/analytics_service.ts:129-131 | filtering a concatenation is concatenating the filtered parts, so the filter keeps the input's order |
| Seqs.FilterThenFilter | services/analytics_service.ts:127-140 | filtering by one test and then another is filtering once by both |
| Seqs.FilterSame | services/analytics_service.ts:127-140 | two tests that agree on every value filter alike |
| Seqs.FilterMembers | services/analytics_service.ts:129-131 | an element survives the filter exactly when it is in the input and passes |
| Seqs.FilterIdempotent | services/analytics_service.ts:240-242 | filtering twice is filtering once |
| Seqs.SortDesc | services/analytics_service.ts:142-145 | the sort is a permutation in descending key order |
| Seqs.Last | services/analytics_service.ts:175 | `slice(-n)`: a suffix of length min(n, |s|) |
| Seqs.Take | frontend/src/hooks/useWebSocket.ts:62 | `slice(0, n)`: a prefix of length min(n, |s|) |
| Strings.Trim | backend/config/server_config.ts:39 | `trim()`: no leading or trailing white space, and the result is a slice of the input with only white space cut from either end |
| Strings.Split | backend/config/server_config.ts:39 | `split(",")`: one more piece than separators, none containing it |
| Strings.JoinSplit | backend/config/server_config.ts:39 | joining the pieces of a split gives the text back |
| Strings.SplitJoin | backend/config/server_config.ts:39 | splitting the join of separator-free pieces gives them back |
| Decimal.ReadIntString | frontend/src/components/ActiveSessions.tsx:18 | reading back a printed integer gives it and the text that followed |
| Decimal.IntToStringInjective | frontend/src/components/ActiveSessions.tsx:18 | different integers print differently |
| Durations.ParseTokens | backend/utils/cleanup_manager.ts:192-197 | tokens joined by spaces read back as the seconds they stand for |
| Durations.ParseTwoTokens | frontend/src/components/ActiveSessions.tsx:21 | two tokens separated by a space read back as their sum |

## Left out

- Time and dates:
  - `Date.now()`, `new Date(text).getTime()` and the local midnight are parameters: instants are integers, and the dashboard's unparsable timestamp is `None`.
  - zod's `datetime()` regex and the timestamp parse are the parameters `isDateTime` and `instant`.
- Text encodings:
  - the JSON text behind `JSON.parse` and `JSON.stringify` is not modelled. Frames are JSON values, and a frame that does not parse is `None`.
  - JSON numbers are integers.
- Number parsing and formatting:
  - `parseInt` on the environment variables, and its NaN, are not modelled: values arrive already parsed.
  - The query's `limit` stays the raw string.
  - `format_bytes` and `log_system_stats` are not modelled: they are floating-point logarithms and logging.
- Order of integer-like keys: `pages_visited` and `country_breakdown` keep the counters' insertion order. A plain JavaScript object would list integer-like keys first.
- Text width and case:
  - strings are sequences of code points, so `slice(-8)` counts code points where JavaScript counts UTF-16 units.
  - `toLowerCase` is modelled only for ASCII capitals and the Kelvin sign, the characters that can lower-case to the letters of a device name.
- Ids and the clock of a connection:
  - the uuid of a new connection is a parameter required to be unused.
  - One instant `now` stands for both the client's `connected_at` and the greeting's timestamp.
- The websocket server itself is not modelled: its port and the `setup_server` wiring, logging, and the `process.memoryUsage` report of `perform_cleanup`.
- Process-level handling:
  - `setup_graceful_shutdown` is not modelled: the signal handlers just call `GracefulShutdown` with the signal name.
  - The `exit(1)` path of `graceful_shutdown` is not modelled, because no modelled step can throw.
  - The HTTP 500 path of `receive_visitor_event` is not modelled, for the same reason.
- The dashboard hook's React runtime behaviour:
  - React batching and stale closures are not modelled. The hook's fields are written in source order, and `onclose` reads the current manual flag.
  - Events of a socket that `disconnect` has already dropped are not modelled: `OnClose` and `OnOpen` are events of the current socket.
  - Nor are events of a socket that `connect` replaced while it was still connecting (two reconnects within 100 ms, say). The orphaned socket's later `onopen` and `onmessage` would still write the hook's state.
  - The mount-effect cleanup on unmount is not modelled.
  - The first render's `useMemo` start time is the parameter `startMs`.
- DashboardHook.DashboardConnection.Connect: the model does not cover a new retry timer set while another is pending, which would leave two timers running. The invariant is preserved only when no retry is pending.
- The sound hook's audio is not modelled. `Notifications` records only which sound is requested.
- Cleanup.CleanupManager.GracefulShutdown: the model assumes the asynchronous `close` and `sleep` complete in order. It does not model interleavings with other callbacks.
- DashboardView.GetTopPages: the model does not state that pages with equal counts keep their order. The sort is stable, but only the descending order and the permutation are proved.

## Findings

| source | as written | input that shows it | evidently intended | confidence | as-written member | corrected member |
|---|---|---|---|---|---|---|
| frontend/src/components/ActiveSessions.tsx:24-39 | `new Date(t).getTime()` gives NaN instead of throwing; NaN fails both comparisons, so `formatLastActivity` returns "NaNh ago" (`SessionView.FormatLastActivityAsWritten`) | a session whose timestamp is `"not-a-date"` | "Unknown" for a timestamp that is not an instant | high; not executed | SessionView.LastActivityUnknownUnreachable | SessionView.FormatLastActivity |
| frontend/src/components/ActiveSessions.tsx:41-54 | `flags[country] \|\| '🌍'` also finds members inherited from `Object.prototype`: a country `"toString"` gets a function, and `"__proto__"` gets an object that React cannot render (`SessionView.CountryFlagAsWritten`) | a visitor event with `country: "__proto__"` | the globe for every country not in the table | high; not executed | SessionView.InheritedCountryHasNoFlag | SessionView.CountryFlag |
