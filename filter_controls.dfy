/** The filter edits of frontend/src/components/FilterControls.tsx. The
    component's `FilterState` `{country?, page?}` is `StatsFilter`, a deleted key
    being `None`. */
module FilterEditing {
  import opened Wrappers
  import opened Types
  import opened SessionView

  /** The value of the "all" option of both selects. */
  const All: string := "all"

  /** The countries offered by the country select. */
  const Countries: seq<string> := ["India", "USA", "UK", "Germany", "France", "Japan", "Brazil", "Canada", "Australia"]

  /** `handleCountryChange`: "all" deletes the country, any other value sets it. */
  function HandleCountryChange(f: StatsFilter, country: string): (r: StatsFilter)
    ensures r.page == f.page
    ensures r.country.None? <==> country == All
    ensures r.country.Some? ==> r.country.value == country
  {
    if country == All then f.(country := None) else f.(country := Some(country))
  }

  /** `handlePageChange`: the same for the page. */
  function HandlePageChange(f: StatsFilter, page: string): (r: StatsFilter)
    ensures r.country == f.country
    ensures r.page.None? <==> page == All
    ensures r.page.Some? ==> r.page.value == page
  {
    if page == All then f.(page := None) else f.(page := Some(page))
  }

  /** `clearFilters`: the empty filter. */
  function ClearFilters(): (r: StatsFilter)
    ensures r.country.None? && r.page.None?
  {
    NoFilter
  }

  /** Choosing the same option twice is choosing it once, and a country choice
      and a page choice commute. */
  lemma FilterChangesIdempotent(f: StatsFilter, country: string, page: string)
    ensures HandleCountryChange(HandleCountryChange(f, country), country) == HandleCountryChange(f, country)
    ensures HandlePageChange(HandlePageChange(f, page), page) == HandlePageChange(f, page)
    ensures HandlePageChange(HandleCountryChange(f, country), page)
         == HandleCountryChange(HandlePageChange(f, page), country)
  {
  }

  /** "all" on both selects gives the filter that clearing gives. */
  lemma AllIsCleared(f: StatsFilter)
    ensures HandlePageChange(HandleCountryChange(f, All), All) == ClearFilters()
  {
  }

  /** `Object.keys(analytics.pages_visited)`: the pages in summary order. */
  function PageOptions(summary: AnalyticsSummary): (r: seq<string>)
    ensures |r| == |summary.pages_visited|
    ensures forall i :: 0 <= i < |r| ==> r[i] == summary.pages_visited[i].0
  {
    seq(|summary.pages_visited|, i requires 0 <= i < |summary.pages_visited| => summary.pages_visited[i].0)
  }

  /** The offered pages are exactly the pages of the summary. */
  lemma PageOptionsAreSummaryPages(summary: AnalyticsSummary, page: string)
    ensures page in PageOptions(summary) <==> exists n :: (page, n) in summary.pages_visited
  {
    var r := PageOptions(summary);
    if page in r {
      var i :| 0 <= i < |r| && r[i] == page;
      assert summary.pages_visited[i] == (page, summary.pages_visited[i].1);
    }
    if exists n :: (page, n) in summary.pages_visited {
      var n :| (page, n) in summary.pages_visited;
      var i :| 0 <= i < |summary.pages_visited| && summary.pages_visited[i] == (page, n);
      assert r[i] == page;
    }
  }

  /** Every country the select offers has a flag of its own, and they are the
      table's countries. */
  lemma CountriesHaveFlags()
    ensures forall c :: c in Countries <==> c in Flags
    ensures forall c :: c in Countries ==> CountryFlag(c) != Globe
  {
  }
}
