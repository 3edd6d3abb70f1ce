/** `CleanupManager` of backend/utils/cleanup_manager.ts: the periodic cleanup,
    the shutdown sequence and its guards. Timers, the one-second grace sleep and
    `process.exit` are recorded as effects in the order the code performs them;
    the timer callbacks themselves are calls of `PerformCleanup` from outside. */
module Cleanup {
  import opened Wrappers
  import opened Seqs
  import opened Decimal
  import opened Strings
  import opened Durations
  import opened Analytics
  import opened WebSocket
  import opened ServerConfiguration

  /** The delay of the first cleanup after the scheduler starts. */
  const InitialCleanupDelayMs: int := 30000
  /** The pause before the process exits. */
  const ShutdownGraceMs: int := 1000

  /** Calls into timers and the process, in the order they happen. */
  datatype Effect =
    | SetInterval(periodMs: int)
    | SetTimeout(delayMs: int)
    | ClearInterval(periodMs: int)
    | BeginShutdown(signal: string)
    | FinalCleanup
    | CloseConnections
    | Sleep(ms: int)
    | Exit(code: int)

  /** `cleanup_interval_minutes * 60 * 1000`. */
  function IntervalMs(minutes: int): (ms: int)
    ensures ms == minutes * 60000
    ensures minutes >= 1 ==> ms >= 60000
  {
    minutes * 60 * 1000
  }

  /** What a first `graceful_shutdown` does, in order. */
  function ShutdownEffects(signal: string, interval: Option<int>): seq<Effect> {
    [BeginShutdown(signal)] + ClearTimer(interval) + [FinalCleanup, CloseConnections, Sleep(ShutdownGraceMs), Exit(0)]
  }

  /** `clearInterval` when a handle is held. */
  function ClearTimer(interval: Option<int>): seq<Effect> {
    if interval.Some? then [ClearInterval(interval.value)] else []
  }

  /** The log of a shutdown, appended entry by entry, is the log followed by `ShutdownEffects`. */
  lemma AppendShutdown(log: seq<Effect>, signal: string, interval: Option<int>)
    ensures log + [BeginShutdown(signal)] + ClearTimer(interval) + [FinalCleanup] + [CloseConnections]
            + [Sleep(ShutdownGraceMs)] + [Exit(0)]
         == log + ShutdownEffects(signal, interval)
  {
  }

  /** `a` happens strictly before `b` in `log`. */
  predicate Before(log: seq<Effect>, a: Effect, b: Effect) {
    exists i, j :: 0 <= i < j < |log| && log[i] == a && log[j] == b
  }

  /** The flag is set first; the interval is cleared before the final cleanup,
      which precedes closing the connections, which precedes the exit; the exit
      comes last and only once. */
  lemma ShutdownOrder(signal: string, interval: Option<int>)
    ensures var log := ShutdownEffects(signal, interval);
      && log[0] == BeginShutdown(signal)
      && (interval.Some? ==> Before(log, ClearInterval(interval.value), FinalCleanup))
      && Before(log, FinalCleanup, CloseConnections)
      && Before(log, CloseConnections, Exit(0))
      && log[|log| - 1] == Exit(0)
      && forall i :: 0 <= i < |log| - 1 ==> !log[i].Exit?
  {
    var log := ShutdownEffects(signal, interval);
    var k := if interval.Some? then 1 else 0;
    assert log[k + 1] == FinalCleanup && log[k + 2] == CloseConnections && log[k + 4] == Exit(0);
    if interval.Some? {
      assert log[1] == ClearInterval(interval.value);
    }
  }

  /** `format_uptime`: the non-zero hours, minutes and seconds, or "0s". */
  function FormatUptime(seconds: nat): string {
    var hours := seconds / 3600;
    var minutes := (seconds % 3600) / 60;
    var secs := seconds % 60;
    var parts := (if hours > 0 then [Token(hours, 'h')] else [])
               + (if minutes > 0 then [Token(minutes, 'm')] else [])
               + (if secs > 0 then [Token(secs, 's')] else []);
    if parts == [] then "0s" else Join(parts, " ")
  }

  /** A token for a positive count, none for zero. */
  function OptionalToken(n: nat, u: char): (r: seq<(int, char)>)
    requires UnitSeconds(u).Some?
    ensures ValidUnits(r) && Seconds(r) == n * UnitSeconds(u).value
    ensures forall i :: 0 <= i < |r| ==> r[i].0 > 0
  {
    if n > 0 then [(n, u)] else []
  }

  /** The remainder modulo 60 of a number written as `60q + t`. */
  lemma ModSixty(x: int, q: int, t: int)
    requires x == q * 60 + t && 0 <= t < 60
    ensures x % 60 == t
  {
  }

  /** Hours, minutes within the hour and seconds within the minute add up. */
  lemma ClockParts(seconds: nat)
    ensures seconds / 3600 * 3600 + (seconds % 3600) / 60 * 60 + seconds % 60 == seconds
  {
    var h, r := seconds / 3600, seconds % 3600;
    var m, t := r / 60, r % 60;
    assert seconds == h * 3600 + r;
    assert r == m * 60 + t;
    ModSixty(seconds, h * 60 + m, t);
  }

  /** The tokens `format_uptime` writes for `seconds`. */
  function UptimeTokens(seconds: nat): (r: seq<(int, char)>)
    ensures ValidUnits(r) && Seconds(r) == seconds
    ensures forall i :: 0 <= i < |r| ==> r[i].0 > 0
  {
    var a := OptionalToken(seconds / 3600, 'h');
    var b := OptionalToken((seconds % 3600) / 60, 'm');
    var c := OptionalToken(seconds % 60, 's');
    SecondsAppend(a, b);
    SecondsAppend(a + b, c);
    ClockParts(seconds);
    a + b + c
  }

  /** The text is "0s" without tokens, else the tokens joined by spaces. */
  lemma UptimeText(seconds: nat)
    ensures var r := UptimeTokens(seconds);
      FormatUptime(seconds) == if r == [] then "0s" else Join(Tokens(r), " ")
  {
    var a := OptionalToken(seconds / 3600, 'h');
    var b := OptionalToken((seconds % 3600) / 60, 'm');
    var c := OptionalToken(seconds % 60, 's');
    TokensAppend(a, b);
    TokensAppend(a + b, c);
    assert Tokens(a) == (if seconds / 3600 > 0 then [Token(seconds / 3600, 'h')] else []);
    assert Tokens(b) == (if (seconds % 3600) / 60 > 0 then [Token((seconds % 3600) / 60, 'm')] else []);
    assert Tokens(c) == (if seconds % 60 > 0 then [Token(seconds % 60, 's')] else []);
  }

  /** Reading the text back gives the uptime again; "0s" only for zero. */
  lemma FormatUptimeRoundTrip(seconds: nat)
    ensures ParseClock(FormatUptime(seconds)) == Some(seconds)
    ensures FormatUptime(seconds) == "0s" <==> seconds == 0
  {
    var r := UptimeTokens(seconds);
    UptimeText(seconds);
    assert Token(0, 's') == "0s";
    ParseLastToken(0, 's');
    if r == [] {
      assert seconds == Seconds(r) == 0;
    } else {
      ParseTokens(r);
    }
  }

  class CleanupManager {
    var cleanupInterval: Option<int>
    var isShuttingDown: bool
    var effects: seq<Effect>
    const analytics: AnalyticsService
    const websocket: WebSocketService
    const config: ServerConfig

    constructor (analytics: AnalyticsService, websocket: WebSocketService, config: ServerConfig)
      ensures cleanupInterval == None && !isShuttingDown && effects == []
      ensures this.analytics == analytics && this.websocket == websocket && this.config == config
    {
      cleanupInterval := None;
      isShuttingDown := false;
      effects := [];
      this.analytics := analytics;
      this.websocket := websocket;
      this.config := config;
    }

    /** `start_cleanup_scheduler`: a periodic cleanup every configured interval and
        one extra cleanup thirty seconds from now. */
    method StartCleanupScheduler()
      modifies this
      ensures cleanupInterval == Some(IntervalMs(config.cleanup_interval_minutes))
      ensures effects == old(effects) + [SetInterval(IntervalMs(config.cleanup_interval_minutes)),
                                         SetTimeout(InitialCleanupDelayMs)]
      ensures isShuttingDown == old(isShuttingDown)
    {
      var intervalMs := config.cleanup_interval_minutes * 60 * 1000;
      cleanupInterval := Some(intervalMs);
      effects := effects + [SetInterval(intervalMs)];
      effects := effects + [SetTimeout(30000)];
    }

    /** `perform_cleanup`: prunes the store unless a shutdown has begun. */
    method PerformCleanup(now: int, todayStart: int)
      requires analytics.Valid()
      modifies analytics
      ensures analytics.Valid()
      ensures isShuttingDown ==> unchanged(analytics)
      ensures !isShuttingDown ==>
        && analytics.sessions == PruneSessions(old(analytics.sessions), now - RetentionMs)
        && analytics.dailyEvents == Filter(old(analytics.dailyEvents), OnOrAfter(todayStart))
        && analytics.pageViews == old(analytics.pageViews)
        && analytics.countryStats == old(analytics.countryStats)
    {
      if isShuttingDown {
        return;
      }
      analytics.CleanupOldData(now, todayStart);
    }

    /** `graceful_shutdown`: only the first call does anything. It sets the flag,
        stops the interval, prunes the store once more, closes every dashboard
        socket and the server, waits, and exits with status 0. */
    method GracefulShutdown(signal: string, now: int, todayStart: int)
      requires analytics.Valid() && websocket.Valid()
      modifies this, analytics, websocket
      ensures old(isShuttingDown) ==> unchanged(this) && unchanged(analytics) && unchanged(websocket)
      ensures !old(isShuttingDown) ==>
        && isShuttingDown
        && effects == old(effects) + ShutdownEffects(signal, old(cleanupInterval))
        && cleanupInterval == old(cleanupInterval)
        && analytics.sessions == PruneSessions(old(analytics.sessions), now - RetentionMs)
        && analytics.dailyEvents == Filter(old(analytics.dailyEvents), OnOrAfter(todayStart))
        && analytics.pageViews == old(analytics.pageViews)
        && analytics.countryStats == old(analytics.countryStats)
        && analytics.Valid()
        && websocket.clients == CloseSockets(old(websocket.clients))
        && websocket.outbox == old(websocket.outbox)
        && !websocket.listening
        && websocket.Valid()
    {
      if isShuttingDown {
        return;
      }
      ghost var log := effects;
      isShuttingDown := true;
      effects := effects + [BeginShutdown(signal)];
      if cleanupInterval.Some? {
        effects := effects + [ClearInterval(cleanupInterval.value)];
      }
      assert effects == log + [BeginShutdown(signal)] + ClearTimer(cleanupInterval);
      analytics.CleanupOldData(now, todayStart);
      effects := effects + [FinalCleanup];
      websocket.Close();
      effects := effects + [CloseConnections];
      effects := effects + [Sleep(1000)];
      effects := effects + [Exit(0)];
      AppendShutdown(log, signal, cleanupInterval);
    }

    /** `stop_cleanup_scheduler`: clears and forgets the interval if there is one;
        a second call changes nothing. */
    method StopCleanupScheduler()
      modifies this
      ensures cleanupInterval == None
      ensures effects == old(effects) + (if old(cleanupInterval).Some? then [ClearInterval(old(cleanupInterval).value)] else [])
      ensures isShuttingDown == old(isShuttingDown)
    {
      if cleanupInterval.Some? {
        effects := effects + [ClearInterval(cleanupInterval.value)];
        cleanupInterval := None;
      }
    }
  }
}
