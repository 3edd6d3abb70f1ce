/** The in-memory analytics store of services/analytics_service.ts: sessions keyed
    by session id, the day's event log and two counters, all updated in place by
    `AnalyticsService`. Wall-clock reads (`Date.now()`, local midnight) are
    parameters `now` and `todayStart`, both in milliseconds. */
module Analytics {
  import opened Wrappers
  import opened Seqs
  import opened OrderedMaps
  import opened Json
  import opened Types

  /** A session counts as active when its last activity is newer than 30 minutes. */
  const ActiveWindowMs: int := 30 * 60 * 1000
  /** The spike alert looks back one minute ... */
  const AlertWindowMs: int := 60 * 1000
  /** ... and fires when strictly more than this many events fall inside it. */
  const AlertThreshold: nat := 10
  /** Sessions idle for longer than 24 hours are dropped by the cleanup. */
  const RetentionMs: int := 24 * 60 * 60 * 1000
  /** `slice(-50)` on the filtered event log. */
  const RecentEventsLimit: nat := 50
  const HighActivityMessage: string := "High visitor activity detected!"

  // ---------------------------------------------------------------- sessions

  /** `Math.floor((end - start) / 1000)`: whole seconds, rounded down also when negative. */
  function SessionDuration(start: int, end: int): (d: int)
    ensures d * 1000 <= end - start < d * 1000 + 1000
    ensures start <= end ==> d >= 0
  {
    (end - start) / 1000
  }

  /** The session after `e`: a new one-page session, or the existing one moved to `e.page`. */
  function UpdatedSession(existing: Option<SessionData>, e: VisitorEvent): (s: SessionData)
    ensures s.current_page == e.page && s.last_activity == e.timestamp
    ensures existing.None? ==>
      s == SessionData(e.session_id, e.page, [e.page], 0, e.country, e.metadata.device, e.timestamp)
    ensures existing.Some? ==>
      && s.journey == existing.value.journey + [e.page]
      && s.duration == SessionDuration(existing.value.last_activity, e.timestamp)
      && s.session_id == existing.value.session_id
      && s.country == existing.value.country
      && s.device == existing.value.device
  {
    match existing
    case None =>
      SessionData(e.session_id, e.page, [e.page], 0, e.country, e.metadata.device, e.timestamp)
    case Some(prev) =>
      prev.(current_page := e.page,
            journey := prev.journey + [e.page],
            duration := SessionDuration(prev.last_activity, e.timestamp),
            last_activity := e.timestamp)
  }

  /** What `update_session` does to the session map. */
  function SessionStep(sessions: OMap<SessionData>, e: VisitorEvent): (r: OMap<SessionData>)
    ensures sessions.Valid() ==> r.Valid()
    ensures e.session_id in r.m && r.m[e.session_id] == UpdatedSession(sessions.Get(e.session_id), e)
    ensures forall id :: id != e.session_id ==> (id in r.m <==> id in sessions.m)
    ensures forall id :: id in sessions.m && id != e.session_id ==> r.m[id] == sessions.m[id]
  {
    sessions.Set(e.session_id, UpdatedSession(sessions.Get(e.session_id), e))
  }

  /** The session map after a sequence of events, applied oldest first. */
  function ApplyEvents(sessions: OMap<SessionData>, events: seq<VisitorEvent>): OMap<SessionData>
    decreases |events|
  {
    if events == [] then sessions
    else SessionStep(ApplyEvents(sessions, events[..|events| - 1]), events[|events| - 1])
  }

  function Pages(events: seq<VisitorEvent>): (r: seq<string>)
    ensures |r| == |events| && forall i :: 0 <= i < |events| ==> r[i] == events[i].page
  {
    seq(|events|, i requires 0 <= i < |events| => events[i].page)
  }

  /** The events of one new visitor build one session: its journey is the pages in
      order, its current page and last activity come from the newest event, its
      country and device from the first, and its duration is the gap between the
      last two events. */
  lemma {:induction false} OneVisitorJourney(sessions: OMap<SessionData>, events: seq<VisitorEvent>, id: string)
    requires id !in sessions.m
    requires |events| >= 1 && forall i :: 0 <= i < |events| ==> events[i].session_id == id
    ensures id in ApplyEvents(sessions, events).m
    ensures var s := ApplyEvents(sessions, events).m[id];
      && s.session_id == id
      && s.journey == Pages(events)
      && s.current_page == events[|events| - 1].page
      && s.last_activity == events[|events| - 1].timestamp
      && s.country == events[0].country
      && s.device == events[0].metadata.device
      && s.duration == (if |events| == 1 then 0
                        else SessionDuration(events[|events| - 2].timestamp, events[|events| - 1].timestamp))
  {
    var init := events[..|events| - 1];
    if |events| == 1 {
      assert init == [];
    } else {
      OneVisitorJourney(sessions, init, id);
      assert Pages(events) == Pages(init) + [events[|events| - 1].page];
    }
  }

  /** A stored session is keyed by its own id and its current page ends its journey. */
  predicate WellFormedSession(id: string, s: SessionData) {
    s.session_id == id && |s.journey| >= 1 && s.current_page == s.journey[|s.journey| - 1]
  }

  ghost predicate WellFormedSessions(sessions: OMap<SessionData>) {
    sessions.Valid() && forall id :: id in sessions.m ==> WellFormedSession(id, sessions.m[id])
  }

  lemma SessionStepWellFormed(sessions: OMap<SessionData>, e: VisitorEvent)
    requires WellFormedSessions(sessions)
    ensures WellFormedSessions(SessionStep(sessions, e))
  {
  }

  // ---------------------------------------------------------------- counters

  /** The sum of the counts stored under `keys`. */
  function SumOver(keys: seq<string>, m: map<string, nat>): nat {
    if keys == [] then 0 else (if keys[0] in m then m[keys[0]] else 0) + SumOver(keys[1..], m)
  }

  /** The number of increments a counter map has received. */
  function Total(c: OMap<nat>): nat {
    SumOver(c.keys, c.m)
  }

  /** `c.set(k, (c.get(k) || 0) + 1)`. */
  function Bump(c: OMap<nat>, k: string): (r: OMap<nat>)
    ensures c.Valid() ==> r.Valid()
    ensures r.m == c.m[k := c.Get(k).GetOr(0) + 1]
    ensures r.keys == if k in c.keys then c.keys else c.keys + [k]
  {
    c.Set(k, c.Get(k).GetOr(0) + 1)
  }

  lemma {:induction false} SumOverIgnores(keys: seq<string>, m: map<string, nat>, k: string, v: nat)
    requires k !in keys
    ensures SumOver(keys, m[k := v]) == SumOver(keys, m)
  {
    if keys != [] {
      SumOverIgnores(keys[1..], m, k, v);
    }
  }

  lemma {:induction false} SumOverAppend(keys: seq<string>, k: string, m: map<string, nat>)
    ensures SumOver(keys + [k], m) == SumOver(keys, m) + (if k in m then m[k] else 0)
  {
    if keys == [] {
      assert [k][1..] == [];
    } else {
      assert (keys + [k])[1..] == keys[1..] + [k];
      SumOverAppend(keys[1..], k, m);
    }
  }

  lemma {:induction false} SumOverRaise(keys: seq<string>, m: map<string, nat>, k: string)
    requires Distinct(keys) && k in keys && k in m
    ensures SumOver(keys, m[k := m[k] + 1]) == SumOver(keys, m) + 1
  {
    if keys[0] == k {
      assert k !in keys[1..];
      SumOverIgnores(keys[1..], m, k, m[k] + 1);
    } else {
      SumOverRaise(keys[1..], m, k);
    }
  }

  /** One call of `Bump` adds exactly one to the counter's total. */
  lemma BumpTotal(c: OMap<nat>, k: string)
    requires c.Valid()
    ensures Total(Bump(c, k)) == Total(c) + 1
  {
    if k in c.keys {
      SumOverRaise(c.keys, c.m, k);
    } else {
      assert k !in c.m;
      SumOverIgnores(c.keys, c.m, k, 1);
      SumOverAppend(c.keys, k, c.m[k := 1]);
    }
  }

  // ---------------------------------------------------------------- queries

  predicate IsActive(s: SessionData, now: int) {
    s.last_activity > now - ActiveWindowMs
  }

  /** `filter?.country` is truthy: present and not the empty string. */
  predicate Applies(v: Option<string>) {
    v.Some? && v.value != ""
  }

  predicate SessionMatches(s: SessionData, f: StatsFilter) {
    (Applies(f.country) ==> s.country == f.country.value) &&
    (Applies(f.page) ==> s.current_page == f.page.value)
  }

  predicate EventMatches(e: VisitorEvent, f: StatsFilter) {
    (Applies(f.country) ==> e.country == f.country.value) &&
    (Applies(f.page) ==> e.page == f.page.value)
  }

  function ActiveAt(now: int): SessionData -> bool {
    s => IsActive(s, now)
  }

  function SessionInCountry(c: string): SessionData -> bool {
    (s: SessionData) => s.country == c
  }

  function SessionOnPage(p: string): SessionData -> bool {
    (s: SessionData) => s.current_page == p
  }

  function EventInCountry(c: string): VisitorEvent -> bool {
    (e: VisitorEvent) => e.country == c
  }

  function EventOnPage(p: string): VisitorEvent -> bool {
    (e: VisitorEvent) => e.page == p
  }

  function After(cutoff: int): VisitorEvent -> bool {
    (e: VisitorEvent) => e.timestamp > cutoff
  }

  function OnOrAfter(start: int): VisitorEvent -> bool {
    (e: VisitorEvent) => e.timestamp >= start
  }

  function LastActivityKey(): SessionData -> int {
    (s: SessionData) => s.last_activity
  }

  function TimestampKey(): VisitorEvent -> int {
    (e: VisitorEvent) => e.timestamp
  }

  /** Active at `now` and passing the filter. */
  function ActiveMatching(f: StatsFilter, now: int): SessionData -> bool {
    s => IsActive(s, now) && SessionMatches(s, f)
  }

  /** Active at `now` and passing the country part of the filter. */
  function ActiveInCountry(f: StatsFilter, now: int): SessionData -> bool {
    s => IsActive(s, now) && (Applies(f.country) ==> s.country == f.country.value)
  }

  /** The three `filter` calls of `get_active_sessions`, in source order: the
      chain keeps exactly the active sessions that pass the filter, in order. */
  function FilterSessions(all: seq<SessionData>, f: StatsFilter, now: int): (r: seq<SessionData>)
    ensures r == Filter(all, ActiveMatching(f, now))
  {
    var active := Filter(all, ActiveAt(now));
    var byCountry := if Applies(f.country) then Filter(active, SessionInCountry(f.country.value)) else active;
    CountryStage(all, f, now);
    var byPage := if Applies(f.page) then Filter(byCountry, SessionOnPage(f.page.value)) else byCountry;
    PageStage(byCountry, all, f, now);
    byPage
  }

  /** The first two `filter` calls keep the active sessions in the filter's country. */
  lemma CountryStage(all: seq<SessionData>, f: StatsFilter, now: int)
    ensures (if Applies(f.country) then Filter(Filter(all, ActiveAt(now)), SessionInCountry(f.country.value))
             else Filter(all, ActiveAt(now)))
         == Filter(all, ActiveInCountry(f, now))
  {
    if Applies(f.country) {
      FilterThenFilter(all, ActiveAt(now), SessionInCountry(f.country.value), ActiveInCountry(f, now));
    } else {
      FilterSame(all, ActiveAt(now), ActiveInCountry(f, now));
    }
  }

  /** The page `filter` after them keeps the sessions that pass the whole filter. */
  lemma PageStage(byCountry: seq<SessionData>, all: seq<SessionData>, f: StatsFilter, now: int)
    requires byCountry == Filter(all, ActiveInCountry(f, now))
    ensures (if Applies(f.page) then Filter(byCountry, SessionOnPage(f.page.value)) else byCountry)
         == Filter(all, ActiveMatching(f, now))
  {
    if Applies(f.page) {
      FilterThenFilter(all, ActiveInCountry(f, now), SessionOnPage(f.page.value), ActiveMatching(f, now));
    } else {
      FilterSame(all, ActiveInCountry(f, now), ActiveMatching(f, now));
    }
  }

  /** The active sessions among `all` that pass the filter, each as often as it
      occurs in `all`, most recently active first. */
  function ActiveSessionsOf(all: seq<SessionData>, f: StatsFilter, now: int): (r: seq<SessionData>)
    ensures forall s :: s in r <==> s in all && IsActive(s, now) && SessionMatches(s, f)
    ensures multiset(r) == multiset(Filter(all, ActiveMatching(f, now)))
    ensures SortedDesc(r, LastActivityKey())
    ensures |r| <= |all|
  {
    var matching := FilterSessions(all, f, now);
    var r := SortDesc(matching, LastActivityKey());
    assert forall s :: s in r <==> s in all && IsActive(s, now) && SessionMatches(s, f) by {
      forall s ensures s in r <==> s in all && IsActive(s, now) && SessionMatches(s, f) {
        SortDescMembers(matching, LastActivityKey(), s);
        FilterMembers(all, ActiveMatching(f, now), s);
      }
    }
    r
  }

  /** The events of `log` that pass the filter, in log order. */
  function EventsMatching(log: seq<VisitorEvent>, f: StatsFilter): (r: seq<VisitorEvent>)
    ensures forall i :: 0 <= i < |r| ==> r[i] in log && EventMatches(r[i], f)
    ensures forall i :: 0 <= i < |log| && EventMatches(log[i], f) ==> log[i] in r
    ensures |r| <= |log|
  {
    var byCountry := if Applies(f.country) then Filter(log, EventInCountry(f.country.value)) else log;
    if Applies(f.page) then Filter(byCountry, EventOnPage(f.page.value)) else byCountry
  }

  /** The last 50 matching events of the log, newest first. */
  function RecentEvents(log: seq<VisitorEvent>, f: StatsFilter): (r: seq<VisitorEvent>)
    ensures |r| == if |EventsMatching(log, f)| < RecentEventsLimit then |EventsMatching(log, f)| else RecentEventsLimit
    ensures exists k :: 0 <= k <= |EventsMatching(log, f)|
                     && multiset(r) == multiset(EventsMatching(log, f)[k..])
    ensures SortedDesc(r, TimestampKey())
    ensures forall i :: 0 <= i < |r| ==> r[i] in log && EventMatches(r[i], f)
  {
    var tail := Last(EventsMatching(log, f), RecentEventsLimit);
    var r := SortDesc(tail, TimestampKey());
    assert forall i :: 0 <= i < |r| ==> r[i] in tail by {
      forall i | 0 <= i < |r| ensures r[i] in tail {
        SortDescMembers(tail, TimestampKey(), r[i]);
      }
    }
    r
  }

  /** The number of logged events newer than one minute before `now`. */
  ghost function LastMinuteCount(log: seq<VisitorEvent>, now: int): nat {
    |set i | 0 <= i < |log| && log[i].timestamp > now - AlertWindowMs|
  }

  lemma LastMinuteCountIsFiltered(log: seq<VisitorEvent>, now: int)
    ensures |Filter(log, After(now - AlertWindowMs))| == LastMinuteCount(log, now)
  {
    FilterCount(log, After(now - AlertWindowMs));
    assert PassingPositions(log, After(now - AlertWindowMs))
        == set i | 0 <= i < |log| && log[i].timestamp > now - AlertWindowMs;
  }

  /** The spike alert for a log: present exactly when more than 10 events are newer
      than one minute, reporting their count against the threshold. */
  function AlertFor(log: seq<VisitorEvent>, now: int): (r: Option<AlertRecord>)
    ensures r.Some? <==> LastMinuteCount(log, now) > AlertThreshold
    ensures r.Some? ==> r.value == AlertRecord(Info, HighActivityMessage,
      map["visitors_last_minute" := JNumber(LastMinuteCount(log, now)), "threshold" := JNumber(AlertThreshold)])
  {
    var recent := Filter(log, After(now - AlertWindowMs));
    LastMinuteCountIsFiltered(log, now);
    if |recent| > AlertThreshold then
      Some(AlertRecord(Info, HighActivityMessage,
        map["visitors_last_minute" := JNumber(|recent|), "threshold" := JNumber(AlertThreshold)]))
    else None
  }

  /** Eleven events inside the last minute raise the alert; ten do not. */
  lemma AlertScenario(log: seq<VisitorEvent>, now: int)
    requires forall i :: 0 <= i < |log| ==> now - AlertWindowMs < log[i].timestamp
    ensures |log| == 11 ==> AlertFor(log, now) == Some(AlertRecord(Info, HighActivityMessage,
      map["visitors_last_minute" := JNumber(11), "threshold" := JNumber(10)]))
    ensures |log| == 10 ==> AlertFor(log, now) == None
  {
    FilterKeepsAll(log, After(now - AlertWindowMs));
    LastMinuteCountIsFiltered(log, now);
  }

  /** Events older than the window never contribute to the alert. */
  lemma AlertIgnoresOldEvents(older: seq<VisitorEvent>, log: seq<VisitorEvent>, now: int)
    requires forall i :: 0 <= i < |older| ==> older[i].timestamp <= now - AlertWindowMs
    ensures AlertFor(older + log, now) == AlertFor(log, now)
  {
    var p := After(now - AlertWindowMs);
    FilterAppend(older, log, p);
    FilterDropsAll(older, p);
    LastMinuteCountIsFiltered(older + log, now);
    LastMinuteCountIsFiltered(log, now);
  }

  // ---------------------------------------------------------------- cleanup

  /** A session survives the cleanup unless its last activity is before the cutoff. */
  predicate Retained(s: SessionData, cutoff: int) {
    !(s.last_activity < cutoff)
  }

  /** The keys of `keys` whose session survives, in order. */
  function RetainedKeys(keys: seq<string>, m: map<string, SessionData>, cutoff: int): (r: seq<string>)
    ensures forall k :: k in r <==> k in keys && k in m && Retained(m[k], cutoff)
  {
    if keys == [] then []
    else (if keys[0] in m && Retained(m[keys[0]], cutoff) then [keys[0]] else [])
         + RetainedKeys(keys[1..], m, cutoff)
  }

  lemma {:induction false} RetainedKeysAppend(a: seq<string>, b: seq<string>, m: map<string, SessionData>, cutoff: int)
    ensures RetainedKeys(a + b, m, cutoff) == RetainedKeys(a, m, cutoff) + RetainedKeys(b, m, cutoff)
  {
    if a == [] {
      assert a + b == b;
    } else {
      assert (a + b)[1..] == a[1..] + b;
      RetainedKeysAppend(a[1..], b, m, cutoff);
    }
  }

  lemma {:induction false} RetainedKeysDistinct(keys: seq<string>, m: map<string, SessionData>, cutoff: int)
    requires Distinct(keys)
    ensures Distinct(RetainedKeys(keys, m, cutoff))
  {
    if keys != [] {
      RetainedKeysDistinct(keys[1..], m, cutoff);
      assert keys[0] !in keys[1..];
    }
  }

  lemma {:induction false} RetainedKeysAll(keys: seq<string>, m: map<string, SessionData>, cutoff: int)
    requires forall k :: k in keys ==> k in m && Retained(m[k], cutoff)
    ensures RetainedKeys(keys, m, cutoff) == keys
  {
    if keys != [] {
      RetainedKeysAll(keys[1..], m, cutoff);
    }
  }

  /** The sessions the walk over `rest` has not yet decided, plus the survivors. */
  ghost function Undecided(m: map<string, SessionData>, rest: seq<string>, cutoff: int): map<string, SessionData> {
    map id | id in m && (id in rest || Retained(m[id], cutoff)) :: m[id]
  }

  lemma UndecidedStep(m: map<string, SessionData>, id: string, rest: seq<string>, cutoff: int)
    requires id !in rest && id in m
    ensures Undecided(m, [id] + rest, cutoff)
         == if Retained(m[id], cutoff) then Undecided(m, rest, cutoff)
            else Undecided(m, rest, cutoff)[id := m[id]]
    ensures !Retained(m[id], cutoff) ==> Undecided(m, [id] + rest, cutoff) - {id} == Undecided(m, rest, cutoff)
  {
  }

  lemma UndecidedDone(s: OMap<SessionData>, cutoff: int)
    ensures Undecided(s.m, [], cutoff) == PruneSessions(s, cutoff).m
  {
  }

  /** One step of the cleanup walk over the key snapshot, on the key order. */
  lemma VisitKey(snapshot: seq<string>, i: nat, m: map<string, SessionData>, cutoff: int)
    requires Distinct(snapshot) && i < |snapshot| && snapshot[i] in m
    ensures var id := snapshot[i];
      var before := RetainedKeys(snapshot[..i], m, cutoff) + snapshot[i..];
      var after := RetainedKeys(snapshot[..i + 1], m, cutoff) + snapshot[i + 1..];
      && (Retained(m[id], cutoff) ==> before == after)
      && (!Retained(m[id], cutoff) ==> Without(before, id) == after)
  {
    var id := snapshot[i];
    var pre, post := snapshot[..i], snapshot[i + 1..];
    SplitAtDistinct(snapshot, i);
    RetainedKeysSnoc(pre, id, m, cutoff);
    var kept := RetainedKeys(pre, m, cutoff);
    assert id !in kept;
    if Retained(m[id], cutoff) {
      assert (kept + [id]) + post == kept + ([id] + post);
    } else {
      assert kept + [] == kept;
      WithoutVisited(kept, id, post);
    }
  }

  /** A key of a distinct snapshot splits it into the keys before and after it,
      neither of which holds it. */
  lemma SplitAtDistinct(snapshot: seq<string>, i: nat)
    requires Distinct(snapshot) && i < |snapshot|
    ensures snapshot[..i + 1] == snapshot[..i] + [snapshot[i]]
    ensures snapshot[i..] == [snapshot[i]] + snapshot[i + 1..]
    ensures snapshot[i] !in snapshot[..i] && snapshot[i] !in snapshot[i + 1..]
  {
  }

  lemma RetainedKeysSnoc(keys: seq<string>, id: string, m: map<string, SessionData>, cutoff: int)
    requires id in m
    ensures RetainedKeys(keys + [id], m, cutoff)
         == RetainedKeys(keys, m, cutoff) + (if Retained(m[id], cutoff) then [id] else [])
  {
    RetainedKeysAppend(keys, [id], m, cutoff);
    assert RetainedKeys([id], m, cutoff) == (if Retained(m[id], cutoff) then [id] else []) + RetainedKeys([], m, cutoff);
  }

  /** After walking the first `i` keys of `start`: the keys seen so far that
      survive, followed by the keys not yet seen. */
  ghost predicate CleanupInvariant(s: OMap<SessionData>, start: OMap<SessionData>, i: nat, cutoff: int)
    requires i <= |start.keys|
  {
    && s.Valid()
    && s.keys == RetainedKeys(start.keys[..i], start.m, cutoff) + start.keys[i..]
    && s.m == Undecided(start.m, start.keys[i..], cutoff)
  }

  /** One iteration of the cleanup loop keeps its invariant. */
  lemma CleanupStep(s: OMap<SessionData>, start: OMap<SessionData>, i: nat, cutoff: int)
    requires start.Valid() && i < |start.keys|
    requires CleanupInvariant(s, start, i, cutoff)
    ensures start.keys[i] in s.m && s.m[start.keys[i]] == start.m[start.keys[i]]
    ensures s.m[start.keys[i]].last_activity < cutoff ==> CleanupInvariant(s.Delete(start.keys[i]), start, i + 1, cutoff)
    ensures !(s.m[start.keys[i]].last_activity < cutoff) ==> CleanupInvariant(s, start, i + 1, cutoff)
  {
    var snapshot := start.keys;
    var id := snapshot[i];
    SplitAtDistinct(snapshot, i);
    UndecidedStep(start.m, id, snapshot[i + 1..], cutoff);
    VisitKey(snapshot, i, start.m, cutoff);
    if !Retained(start.m[id], cutoff) {
      CleanupDropStep(s, start, i, cutoff);
    }
  }

  /** Deleting an expired session keeps the invariant of the cleanup loop. */
  lemma CleanupDropStep(s: OMap<SessionData>, start: OMap<SessionData>, i: nat, cutoff: int)
    requires start.Valid() && i < |start.keys|
    requires CleanupInvariant(s, start, i, cutoff)
    requires start.keys[i] in start.m && !Retained(start.m[start.keys[i]], cutoff)
    requires Without(s.keys, start.keys[i]) == RetainedKeys(start.keys[..i + 1], start.m, cutoff) + start.keys[i + 1..]
    requires s.m - {start.keys[i]} == Undecided(start.m, start.keys[i + 1..], cutoff)
    ensures CleanupInvariant(s.Delete(start.keys[i]), start, i + 1, cutoff)
  {
  }

  lemma WithoutVisited(kept: seq<string>, id: string, rest: seq<string>)
    requires id !in kept && id !in rest
    ensures Without(kept + ([id] + rest), id) == kept + rest
  {
    WithoutAppend(kept, [id] + rest, id);
    WithoutAppend([id], rest, id);
    WithoutOnly(id);
    WithoutAbsent(kept, id);
    WithoutAbsent(rest, id);
    assert Without([id] + rest, id) == rest;
  }

  /** The session map once every session idle since before `cutoff` is deleted. */
  function PruneSessions(s: OMap<SessionData>, cutoff: int): (r: OMap<SessionData>)
    ensures s.Valid() ==> r.Valid()
    ensures forall id :: id in r.m <==> id in s.m && Retained(s.m[id], cutoff)
    ensures forall id :: id in r.m ==> r.m[id] == s.m[id]
  {
    var r := OMap(RetainedKeys(s.keys, s.m, cutoff),
                  map id | id in s.m && Retained(s.m[id], cutoff) :: s.m[id]);
    assert s.Valid() ==> r.Valid() by {
      if s.Valid() { RetainedKeysDistinct(s.keys, s.m, cutoff); }
    }
    r
  }

  /** Running the cleanup twice with the same clock is running it once. */
  lemma CleanupIdempotent(s: OMap<SessionData>, log: seq<VisitorEvent>, cutoff: int, todayStart: int)
    ensures PruneSessions(PruneSessions(s, cutoff), cutoff) == PruneSessions(s, cutoff)
    ensures Filter(Filter(log, OnOrAfter(todayStart)), OnOrAfter(todayStart)) == Filter(log, OnOrAfter(todayStart))
  {
    var once := PruneSessions(s, cutoff);
    RetainedKeysAll(once.keys, once.m, cutoff);
    FilterIdempotent(log, OnOrAfter(todayStart));
  }

  /** The loop of `cleanup_old_data` over a snapshot of the session ids: each
      session idle since before `cutoff` is deleted, in insertion order. */
  method ExpireSessions(start: OMap<SessionData>, cutoff: int) returns (remaining: OMap<SessionData>)
    requires start.Valid()
    ensures remaining == PruneSessions(start, cutoff)
  {
    var snapshot := start.keys;
    remaining := start;
    var i := 0;
    while i < |snapshot|
      invariant 0 <= i <= |snapshot|
      invariant CleanupInvariant(remaining, start, i, cutoff)
    {
      CleanupStep(remaining, start, i, cutoff);
      var id := snapshot[i];
      var session := remaining.m[id];
      if session.last_activity < cutoff {
        remaining := remaining.Delete(id);
      }
      i := i + 1;
    }
    assert snapshot[..i] == snapshot;
    assert snapshot[i..] == [];
    UndecidedDone(start, cutoff);
  }

  // ---------------------------------------------------------------- the service

  /** What the service keeps true: sessions keyed by their own ids, every event
      bumped both counters once, and the cleanup only ever shortens the log. */
  ghost predicate StoreValid(sessions: OMap<SessionData>, log: seq<VisitorEvent>, pageViews: OMap<nat>, countryStats: OMap<nat>) {
    && WellFormedSessions(sessions)
    && pageViews.Valid() && countryStats.Valid()
    && Total(pageViews) == Total(countryStats)
    && |log| <= Total(pageViews)
  }

  lemma EventKeepsStoreValid(sessions: OMap<SessionData>, log: seq<VisitorEvent>, pageViews: OMap<nat>, countryStats: OMap<nat>, e: VisitorEvent)
    requires StoreValid(sessions, log, pageViews, countryStats)
    ensures StoreValid(SessionStep(sessions, e), log + [e], Bump(pageViews, e.page), Bump(countryStats, e.country))
    ensures Total(Bump(pageViews, e.page)) == Total(pageViews) + 1
  {
    SessionStepWellFormed(sessions, e);
    BumpTotal(pageViews, e.page);
    BumpTotal(countryStats, e.country);
  }

  lemma CleanupKeepsStoreValid(sessions: OMap<SessionData>, log: seq<VisitorEvent>, pageViews: OMap<nat>, countryStats: OMap<nat>, cutoff: int, todayStart: int)
    requires StoreValid(sessions, log, pageViews, countryStats)
    ensures StoreValid(PruneSessions(sessions, cutoff), Filter(log, OnOrAfter(todayStart)), pageViews, countryStats)
  {
  }

  /** The ids of the sessions active at `now`. */
  ghost function ActiveIds(sessions: OMap<SessionData>, now: int): set<string> {
    set id | id in sessions.m && IsActive(sessions.m[id], now)
  }

  /** `filter(active).length` counts the active sessions of the map. */
  lemma ActiveCount(sessions: OMap<SessionData>, now: int)
    requires sessions.Valid()
    ensures |Filter(sessions.Values(), ActiveAt(now))| == |ActiveIds(sessions, now)|
  {
    CountValuesAt(sessions.keys, sessions.m, ActiveAt(now));
    assert KeysWhere(sessions.keys, sessions.m, ActiveAt(now)) == ActiveIds(sessions, now);
  }

  class AnalyticsService {
    var sessions: OMap<SessionData>
    var dailyEvents: seq<VisitorEvent>
    var pageViews: OMap<nat>
    var countryStats: OMap<nat>

    ghost predicate Valid()
      reads this
    {
      StoreValid(sessions, dailyEvents, pageViews, countryStats)
    }

    constructor ()
      ensures Valid()
      ensures sessions == Empty() && dailyEvents == [] && pageViews == Empty() && countryStats == Empty()
    {
      sessions := Empty();
      dailyEvents := [];
      pageViews := Empty();
      countryStats := Empty();
    }

    /** `update_session`: stores and returns the session `e` leads to. */
    method UpdateSession(e: VisitorEvent) returns (session: SessionData)
      modifies this
      ensures session == UpdatedSession(old(sessions).Get(e.session_id), e)
      ensures sessions == SessionStep(old(sessions), e)
      ensures sessions.m[e.session_id] == session
      ensures dailyEvents == old(dailyEvents) && pageViews == old(pageViews) && countryStats == old(countryStats)
    {
      var existing := sessions.Get(e.session_id);
      match existing {
        case Some(prev) =>
          session := prev.(current_page := e.page,
                           journey := prev.journey + [e.page],
                           duration := SessionDuration(prev.last_activity, e.timestamp),
                           last_activity := e.timestamp);
        case None =>
          session := SessionData(e.session_id, e.page, [e.page], 0, e.country, e.metadata.device, e.timestamp);
      }
      sessions := sessions.Set(e.session_id, session);
    }

    /** `process_visitor_event`: records the event everywhere and returns the new summary. */
    method ProcessVisitorEvent(e: VisitorEvent, now: int) returns (session: SessionData, summary: AnalyticsSummary)
      requires Valid()
      modifies this
      ensures Valid()
      ensures sessions == SessionStep(old(sessions), e)
      ensures session == sessions.m[e.session_id]
      ensures dailyEvents == old(dailyEvents) + [e]
      ensures pageViews == Bump(old(pageViews), e.page)
      ensures countryStats == Bump(old(countryStats), e.country)
      ensures Total(pageViews) == old(Total(pageViews)) + 1
      ensures summary == GenerateSummary(now)
    {
      EventKeepsStoreValid(sessions, dailyEvents, pageViews, countryStats, e);
      session := UpdateSession(e);
      ghost var stepped := sessions;
      assert session == stepped.m[e.session_id];
      dailyEvents := dailyEvents + [e];
      pageViews := Bump(pageViews, e.page);
      countryStats := Bump(countryStats, e.country);
      summary := GenerateSummary(now);
    }

    /** `generate_summary`: the number of active sessions, the size of the day's log
        and the page counters in insertion order. */
    function GenerateSummary(now: int): (r: AnalyticsSummary)
      requires Valid()
      reads this
      ensures r.total_active == |ActiveIds(sessions, now)|
      ensures r.total_active <= |sessions.m|
      ensures r.total_today == |dailyEvents|
      ensures r.pages_visited == ObjectEntries(pageViews.Entries())
    {
      var active := Filter(sessions.Values(), ActiveAt(now));
      ActiveCount(sessions, now);
      sessions.SizeIsKeyCount();
      AnalyticsSummary(|active|, |dailyEvents|, ObjectEntries(pageViews.Entries()))
    }

    /** `get_active_sessions`: the stored sessions active at `now` that pass the
        filter, most recently active first. */
    function GetActiveSessions(f: StatsFilter, now: int): (r: seq<SessionData>)
      requires Valid()
      reads this
      ensures forall s :: s in r <==> s in sessions.m.Values && IsActive(s, now) && SessionMatches(s, f)
      ensures multiset(r) == multiset(Filter(sessions.Values(), ActiveMatching(f, now)))
      ensures SortedDesc(r, LastActivityKey())
      ensures |r| <= |sessions.m|
    {
      var r := ActiveSessionsOf(sessions.Values(), f, now);
      assert forall s :: s in r <==> s in sessions.m.Values && IsActive(s, now) && SessionMatches(s, f) by {
        forall s ensures s in r <==> s in sessions.m.Values && IsActive(s, now) && SessionMatches(s, f) {
          sessions.ValuesMembers(s);
        }
      }
      sessions.SizeIsKeyCount();
      r
    }

    /** `get_detailed_stats`: the filtered active sessions, the country counters, and
        the last 50 filtered events of the day, newest first. */
    function GetDetailedStats(f: StatsFilter, now: int): (r: DetailedStats)
      requires Valid()
      reads this
      ensures r.summary == GenerateSummary(now)
      ensures r.sessions == GetActiveSessions(f, now)
      ensures r.country_breakdown == ObjectEntries(countryStats.Entries())
      ensures r.recent_events == RecentEvents(dailyEvents, f)
      ensures |r.recent_events| <= RecentEventsLimit
      ensures forall i :: 0 <= i < |r.recent_events| ==>
                r.recent_events[i] in dailyEvents && EventMatches(r.recent_events[i], f)
    {
      DetailedStats(GenerateSummary(now), GetActiveSessions(f, now), ObjectEntries(countryStats.Entries()),
                    RecentEvents(dailyEvents, f))
    }

    /** `check_for_alerts`. */
    function CheckForAlerts(now: int): (r: Option<AlertRecord>)
      reads this
      ensures r.Some? <==> LastMinuteCount(dailyEvents, now) > AlertThreshold
      ensures r == AlertFor(dailyEvents, now)
    {
      AlertFor(dailyEvents, now)
    }

    /** `cleanup_old_data`: deletes the sessions idle for 24 hours, walking the map
        in insertion order, then keeps only the events since local midnight. */
    method CleanupOldData(now: int, todayStart: int)
      requires Valid()
      modifies this
      ensures Valid()
      ensures sessions == PruneSessions(old(sessions), now - RetentionMs)
      ensures dailyEvents == Filter(old(dailyEvents), OnOrAfter(todayStart))
      ensures pageViews == old(pageViews) && countryStats == old(countryStats)
    {
      var cutoff := now - RetentionMs;
      CleanupKeepsStoreValid(sessions, dailyEvents, pageViews, countryStats, cutoff, todayStart);
      sessions := ExpireSessions(sessions, cutoff);
      dailyEvents := Filter(dailyEvents, OnOrAfter(todayStart));
    }
  }
}
