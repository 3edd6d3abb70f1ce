/** The two computations of frontend/src/components/Dashboard.tsx: the top five
    pages of the summary and the uptime label. */
module DashboardView {
  import opened Wrappers
  import opened Seqs
  import opened Decimal
  import opened Durations

  const TopPageCount: nat := 5

  function CountOf(entry: (string, nat)): int {
    entry.1
  }

  /** `Object.entries(pages_visited).sort(([, a], [, b]) => b - a).slice(0, 5)`:
      the sort is stable, so pages with equal counts keep their order. */
  function GetTopPages(pages: seq<(string, nat)>): (r: seq<(string, nat)>)
    ensures |r| == if |pages| < TopPageCount then |pages| else TopPageCount
  {
    Take(SortDesc(pages, CountOf), TopPageCount)
  }

  /** The top pages come from the summary, most visited first. */
  lemma TopPagesOrdered(pages: seq<(string, nat)>)
    ensures var r := GetTopPages(pages);
      && (forall i, j :: 0 <= i < j < |r| ==> r[i].1 >= r[j].1)
      && (forall e :: e in r ==> e in pages)
  {
    var sorted := SortDesc(pages, CountOf);
    var r := GetTopPages(pages);
    assert forall i :: 0 <= i < |r| ==> r[i] == sorted[i];
    forall e | e in r ensures e in pages {
      SortDescMembers(pages, CountOf, e);
    }
  }

  /** No page left out was visited more often than the last one shown. */
  lemma TopPagesOmittedNotLarger(pages: seq<(string, nat)>, e: (string, nat))
    requires e in pages && e !in GetTopPages(pages)
    ensures var r := GetTopPages(pages); |r| == TopPageCount && e.1 <= r[|r| - 1].1
  {
    var sorted := SortDesc(pages, CountOf);
    var r := GetTopPages(pages);
    SortDescMembers(pages, CountOf, e);
    var i :| 0 <= i < |sorted| && sorted[i] == e;
    assert |r| == TopPageCount;
    assert CountOf(sorted[|r| - 1]) >= CountOf(sorted[i]);
  }

  ghost predicate DistinctPages(pages: seq<(string, nat)>) {
    forall i, j :: 0 <= i < j < |pages| ==> pages[i].0 != pages[j].0
  }

  lemma {:induction false} DistinctOccursOnce<T>(s: seq<T>, x: T)
    requires Distinct(s)
    ensures multiset(s)[x] <= 1
  {
    if s != [] {
      assert s == [s[0]] + s[1..];
      DistinctOccursOnce(s[1..], x);
      if x == s[0] {
        assert x !in s[1..];
        assert multiset(s[1..])[x] == 0;
      }
    }
  }

  /** Two equal entries at different positions occur twice. */
  lemma {:induction false} RepeatCountsTwice<T>(s: seq<T>, i: int, j: int)
    requires 0 <= i < j < |s| && s[i] == s[j]
    ensures multiset(s)[s[i]] >= 2
  {
    assert s == s[..j] + s[j..];
    assert s[i] in s[..j];
    assert s[..j] == s[..i] + s[i..j];
    assert s[j..] == [s[j]] + s[j + 1..];
  }

  /** The summary has one entry per page, and so does its top five. */
  lemma TopPagesDistinct(pages: seq<(string, nat)>)
    requires DistinctPages(pages)
    ensures DistinctPages(GetTopPages(pages))
  {
    var sorted := SortDesc(pages, CountOf);
    var r := GetTopPages(pages);
    assert Distinct(pages);
    forall i, j | 0 <= i < j < |r| ensures r[i].0 != r[j].0 {
      assert r[i] == sorted[i] && r[j] == sorted[j];
      if r[i].0 == r[j].0 {
        SortDescMembers(pages, CountOf, r[i]);
        SortDescMembers(pages, CountOf, r[j]);
        var a :| 0 <= a < |pages| && pages[a] == r[i];
        var b :| 0 <= b < |pages| && pages[b] == r[j];
        assert a == b;
        RepeatCountsTwice(sorted, i, j);
        DistinctOccursOnce(pages, r[i]);
        assert false;
      }
    }
  }

  /** `Math.floor((now - startTime) / 1000)`: the divisor is positive, so
      Euclidean division is the floor. */
  function UptimeSeconds(nowMs: int, startMs: int): int {
    (nowMs - startMs) / 1000
  }

  /** The label for an uptime of `uptime` seconds: seconds below a minute,
      whole minutes below an hour, hours and minutes beyond. */
  function UptimeLabel(uptime: int): string {
    if uptime < 60 then Token(uptime, 's')
    else
      var minutes := uptime / 60;
      if minutes < 60 then Token(minutes, 'm')
      else Token(minutes / 60, 'h') + " " + Token(minutes % 60, 'm')
  }

  /** `formatUptime`: the label of the whole seconds since the start. */
  function FormatUptime(nowMs: int, startMs: int): string {
    UptimeLabel(UptimeSeconds(nowMs, startMs))
  }

  /** Hours and the remaining minutes, read back. */
  lemma HoursMinutesLabel(u: int)
    requires u / 60 >= 60
    ensures ParseClock(Token(u / 60 / 60, 'h') + " " + Token(u / 60 % 60, 'm')) == Some(u - u % 60)
  {
    ParseTwoTokens(u / 60 / 60, 'h', u / 60 % 60, 'm');
    assert UnitSeconds('h') == Some(3600) && UnitSeconds('m') == Some(60);
    assert u / 60 / 60 * 3600 + u / 60 % 60 * 60 == u / 60 * 60;
  }

  /** Read back, an uptime label gives the uptime (negative ones included)
      below a minute and the uptime rounded down to whole minutes beyond. */
  lemma UptimeLabelRoundTrip(u: int)
    ensures ParseClock(UptimeLabel(u)) == Some(if u < 60 then u else u - u % 60)
  {
    if u < 60 {
      ParseLastToken(u, 's');
    } else if u / 60 < 60 {
      WholeMinutesLabel(u);
    } else {
      HoursMinutesLabel(u);
    }
  }

  /** The uptime shown on the dashboard, read back. */
  lemma FormatUptimeRoundTrip(nowMs: int, startMs: int)
    ensures var u := UptimeSeconds(nowMs, startMs);
      ParseClock(FormatUptime(nowMs, startMs)) == Some(if u < 60 then u else u - u % 60)
  {
    UptimeLabelRoundTrip(UptimeSeconds(nowMs, startMs));
  }
}
