/**
 * The insight tab of the frontend: `useMetrics` counts the articles by year and by source and
 * keeps the earliest and latest valid dates; the component then orders the years, keeps the
 * eight largest sources and shows the span of years.
 *
 * `new Date(a.date)` is the function `time` of the root component (`None` for an invalid date),
 * `getFullYear()`, which depends on the local time zone, is the function `year`, and
 * `new URL(u).host` is `host` (`None` when the constructor throws).
 */
module InsightReport {
  import opened Wrappers
  import opened Text
  import opened Counting
  import opened App

  /** The metrics object `m`. */
  datatype Metrics = Metrics(
    total: nat,
    byYear: seq<Entry<int>>,
    bySource: seq<Entry<string>>,
    firstDate: Option<int>,
    lastDate: Option<int>)

  /** The source key: the service, else the URL's host when it parses and is not empty, else `"Inconnu"`. */
  function Origin(a: Article, host: string -> Option<string>): (r: string)
    ensures r != ""
    ensures Field(a, "service") != "" ==> r == a["service"]
    ensures Field(a, "service") == "" && Field(a, "url") != "" && host(a["url"]).Some? && host(a["url"]).value != ""
            ==> r == host(a["url"]).value
  {
    if Field(a, "service") != "" then a["service"]
    else if Field(a, "url") != "" && host(a["url"]).Some? && host(a["url"]).value != "" then host(a["url"]).value
    else "Inconnu"
  }

  function Origins(arts: seq<Article>, host: string -> Option<string>): (r: seq<string>)
    ensures |r| == |arts| && forall i :: 0 <= i < |arts| ==> r[i] == Origin(arts[i], host)
  {
    seq(|arts|, i requires 0 <= i < |arts| => Origin(arts[i], host))
  }

  /** The year of every article with a valid date, in order. */
  function Years(arts: seq<Article>, time: string -> Option<int>, year: int -> int): (r: seq<int>)
    ensures |r| <= |arts|
  {
    if arts == [] then []
    else
      var d := DateOf(arts[|arts| - 1], time);
      Years(arts[..|arts| - 1], time, year) + (if d.Some? then [year(d.value)] else [])
  }

  /** `if (!m.firstDate || d < m.firstDate) m.firstDate = d` over the valid dates. */
  function Earliest(arts: seq<Article>, time: string -> Option<int>): Option<int>
  {
    if arts == [] then None
    else
      var e := Earliest(arts[..|arts| - 1], time);
      var d := DateOf(arts[|arts| - 1], time);
      if d.Some? && (e.None? || d.value < e.value) then d else e
  }

  /** `if (!m.lastDate || d > m.lastDate) m.lastDate = d` over the valid dates. */
  function Latest(arts: seq<Article>, time: string -> Option<int>): Option<int>
  {
    if arts == [] then None
    else
      var l := Latest(arts[..|arts| - 1], time);
      var d := DateOf(arts[|arts| - 1], time);
      if d.Some? && (l.None? || d.value > l.value) then d else l
  }

  /** What `useMetrics(articles)` returns. */
  function MetricsOf(arts: seq<Article>, time: string -> Option<int>, year: int -> int, host: string -> Option<string>): Metrics
  {
    Metrics(|arts|, Tally(Years(arts, time, year)), Tally(Origins(arts, host)), Earliest(arts, time), Latest(arts, time))
  }

  /** `useMetrics`: the `forEach` over the articles. */
  method UseMetrics(arts: seq<Article>, time: string -> Option<int>, year: int -> int, host: string -> Option<string>)
    returns (m: Metrics)
    ensures m == MetricsOf(arts, time, year, host)
  {
    m := Metrics(|arts|, [], [], None, None);
    for i := 0 to |arts|
      invariant m.total == |arts|
      invariant m.byYear == Tally(Years(arts[..i], time, year))
      invariant m.bySource == Tally(Origins(arts[..i], host))
      invariant m.firstDate == Earliest(arts[..i], time) && m.lastDate == Latest(arts[..i], time)
    {
      MetricsStep(arts, i, time, year, host);
      var a := arts[i];
      var d := DateOf(a, time);
      if d.Some? {
        var y := year(d.value);
        m := m.(byYear := Bump(m.byYear, y));
        if m.firstDate.None? || d.value < m.firstDate.value {
          m := m.(firstDate := d);
        }
        if m.lastDate.None? || d.value > m.lastDate.value {
          m := m.(lastDate := d);
        }
      }
      var key := Origin(a, host);
      m := m.(bySource := Bump(m.bySource, key));
    }
    assert arts[..|arts|] == arts;
  }

  /** What one more article adds to each part of the metrics. */
  lemma MetricsStep(arts: seq<Article>, i: int, time: string -> Option<int>, year: int -> int, host: string -> Option<string>)
    requires 0 <= i < |arts|
    ensures var d := DateOf(arts[i], time);
      && Tally(Years(arts[..i + 1], time, year))
         == (if d.Some? then Bump(Tally(Years(arts[..i], time, year)), year(d.value)) else Tally(Years(arts[..i], time, year)))
      && Tally(Origins(arts[..i + 1], host)) == Bump(Tally(Origins(arts[..i], host)), Origin(arts[i], host))
      && Earliest(arts[..i + 1], time)
         == (if d.Some? && (Earliest(arts[..i], time).None? || d.value < Earliest(arts[..i], time).value) then d else Earliest(arts[..i], time))
      && Latest(arts[..i + 1], time)
         == (if d.Some? && (Latest(arts[..i], time).None? || d.value > Latest(arts[..i], time).value) then d else Latest(arts[..i], time))
  {
    var prefix := arts[..i + 1];
    assert prefix[..i] == arts[..i];
    YearsStep(arts, i, time, year);
    var keys := Origins(prefix, host);
    assert keys[..i] == Origins(arts[..i], host);
  }

  lemma YearsStep(arts: seq<Article>, i: int, time: string -> Option<int>, year: int -> int)
    requires 0 <= i < |arts|
    ensures var d := DateOf(arts[i], time);
      Tally(Years(arts[..i + 1], time, year))
      == (if d.Some? then Bump(Tally(Years(arts[..i], time, year)), year(d.value)) else Tally(Years(arts[..i], time, year)))
  {
    var prefix := arts[..i + 1];
    assert prefix[..i] == arts[..i];
    var ys, before := Years(prefix, time, year), Years(arts[..i], time, year);
    var d := DateOf(arts[i], time);
    if d.Some? {
      assert ys == before + [year(d.value)];
      assert ys[..|ys| - 1] == before;
    } else {
      assert ys == before + [];
      assert ys == before;
    }
  }

  /**
   * The earliest date is missing exactly when no article has a valid date; otherwise it is the
   * date of some article, and no valid date is earlier.
   */
  lemma {:induction false} EarliestSpec(arts: seq<Article>, time: string -> Option<int>)
    ensures Earliest(arts, time).None? <==> forall i :: 0 <= i < |arts| ==> DateOf(arts[i], time).None?
    ensures Earliest(arts, time).Some? ==>
      && (exists i :: 0 <= i < |arts| && DateOf(arts[i], time) == Earliest(arts, time))
      && (forall i :: 0 <= i < |arts| && DateOf(arts[i], time).Some? ==> Earliest(arts, time).value <= DateOf(arts[i], time).value)
  {
    if arts != [] {
      var init := arts[..|arts| - 1];
      EarliestSpec(init, time);
      assert forall i :: 0 <= i < |init| ==> init[i] == arts[i];
      if Earliest(init, time).Some? && Earliest(arts, time) == Earliest(init, time) {
        var k :| 0 <= k < |init| && DateOf(init[k], time) == Earliest(init, time);
        assert DateOf(arts[k], time) == Earliest(arts, time);
      }
    }
  }

  /**
   * The latest date is missing exactly when no article has a valid date; otherwise it is the
   * date of some article, and no valid date is later.
   */
  lemma {:induction false} LatestSpec(arts: seq<Article>, time: string -> Option<int>)
    ensures Latest(arts, time).None? <==> forall i :: 0 <= i < |arts| ==> DateOf(arts[i], time).None?
    ensures Latest(arts, time).Some? ==>
      && (exists i :: 0 <= i < |arts| && DateOf(arts[i], time) == Latest(arts, time))
      && (forall i :: 0 <= i < |arts| && DateOf(arts[i], time).Some? ==> DateOf(arts[i], time).value <= Latest(arts, time).value)
  {
    if arts != [] {
      var init := arts[..|arts| - 1];
      LatestSpec(init, time);
      assert forall i :: 0 <= i < |init| ==> init[i] == arts[i];
      if Latest(init, time).Some? && Latest(arts, time) == Latest(init, time) {
        var k :| 0 <= k < |init| && DateOf(init[k], time) == Latest(init, time);
        assert DateOf(arts[k], time) == Latest(arts, time);
      }
    }
  }

  /** The years counted are those of the articles with a valid date. */
  lemma {:induction false} YearsSpec(arts: seq<Article>, time: string -> Option<int>, year: int -> int)
    ensures |Years(arts, time, year)| == |arts| - NoDate(arts, time)
  {
    if arts != [] {
      YearsSpec(arts[..|arts| - 1], time, year);
    }
  }

  /** How many articles have no valid date. */
  function NoDate(arts: seq<Article>, time: string -> Option<int>): nat
  {
    if arts == [] then 0
    else NoDate(arts[..|arts| - 1], time) + (if DateOf(arts[|arts| - 1], time).None? then 1 else 0)
  }

  /**
   * The metrics: `total` is the number of articles; the source counts add up to it, one entry
   * per source; the year counts add up to the articles with a valid date, so to at most `total`;
   * the first date is no later than the last, and both are missing exactly when no date is valid.
   */
  lemma MetricsSpec(arts: seq<Article>, time: string -> Option<int>, year: int -> int, host: string -> Option<string>)
    ensures var m := MetricsOf(arts, time, year, host);
      && m.total == |arts|
      && Total(m.bySource) == m.total && DistinctKeys(m.bySource)
      && (forall k :: CountOf(m.bySource, k) == Occurrences(Origins(arts, host), k))
      && Total(m.byYear) == |arts| - NoDate(arts, time) <= m.total && DistinctKeys(m.byYear)
      && (m.firstDate.None? <==> m.lastDate.None?)
      && (m.firstDate.None? <==> forall i :: 0 <= i < |arts| ==> DateOf(arts[i], time).None?)
      && (m.firstDate.Some? ==> m.firstDate.value <= m.lastDate.value)
  {
    TallySpec(Origins(arts, host));
    TallySpec(Years(arts, time, year));
    YearsSpec(arts, time, year);
    DatesSpec(arts, time);
  }

  /** Both dates are missing exactly when no date is valid, and the first is no later than the last. */
  lemma DatesSpec(arts: seq<Article>, time: string -> Option<int>)
    ensures Earliest(arts, time).None? <==> Latest(arts, time).None?
    ensures Earliest(arts, time).None? <==> forall i :: 0 <= i < |arts| ==> DateOf(arts[i], time).None?
    ensures Earliest(arts, time).Some? ==> Earliest(arts, time).value <= Latest(arts, time).value
  {
    EarliestSpec(arts, time);
    LatestSpec(arts, time);
    if Earliest(arts, time).Some? {
      var k :| 0 <= k < |arts| && DateOf(arts[k], time) == Earliest(arts, time);
    }
  }

  /** `yearlyData`: the year entries by increasing year. */
  function YearlyData(m: Metrics): seq<Entry<int>>
  {
    Sort(m.byYear, ByNumberAsc())
  }

  /** `sourceData`: the eight largest sources. */
  function SourceData(m: Metrics): seq<Entry<string>>
  {
    Top(m.bySource, 8)
  }

  /**
   * The chart data: the years strictly increasing, with every year entry kept as it was; at most
   * eight sources by decreasing count, each one of the source entries, and no source left out
   * counting more than one kept.
   */
  lemma ChartDataSpec(arts: seq<Article>, time: string -> Option<int>, year: int -> int, host: string -> Option<string>)
    ensures var m := MetricsOf(arts, time, year, host);
      && multiset(YearlyData(m)) == multiset(m.byYear)
      && (forall i, j :: 0 <= i < j < |YearlyData(m)| ==> YearlyData(m)[i].key < YearlyData(m)[j].key)
      && |SourceData(m)| <= 8
      && (forall i, j :: 0 <= i < j < |SourceData(m)| ==> SourceData(m)[i].count >= SourceData(m)[j].count)
      && (forall i :: 0 <= i < |SourceData(m)| ==> SourceData(m)[i] in m.bySource)
      && (forall e :: e in m.bySource && e !in SourceData(m) ==>
            forall i :: 0 <= i < |SourceData(m)| ==> e.count <= SourceData(m)[i].count)
  {
    var m := MetricsOf(arts, time, year, host);
    TallySpec(Years(arts, time, year));
    SortByNumber(m.byYear);
    TopSpec(m.bySource, 8);
  }

  const NoData := "No data available yet."
  const NoSpan := "n/a"

  /** `yearsSpan`: the years of the first and last dates, or `"n/a"` without them. */
  function YearsSpan(m: Metrics, year: int -> int): string
  {
    if m.firstDate.Some? && m.lastDate.Some?
    then IntToString(year(m.firstDate.value)) + " – " + IntToString(year(m.lastDate.value))
    else NoSpan
  }

  /** The span is `"n/a"` exactly when no article has a valid date. */
  lemma YearsSpanSpec(arts: seq<Article>, time: string -> Option<int>, year: int -> int, host: string -> Option<string>)
    ensures YearsSpan(MetricsOf(arts, time, year, host), year) == NoSpan
      <==> forall i :: 0 <= i < |arts| ==> DateOf(arts[i], time).None?
  {
    MetricsSpec(arts, time, year, host);
    var m := MetricsOf(arts, time, year, host);
    if m.firstDate.Some? {
      var s := YearsSpan(m, year);
      var pre := IntToString(year(m.firstDate.value));
      assert s[|pre| + 1] == '–';
    }
  }

  /** What the tab shows: the placeholder, or the figures and the two charts. */
  datatype View = Placeholder(message: string)
                | Report(articles: nat, span: string, uniqueSources: nat, years: seq<Entry<int>>, sources: seq<Entry<string>>)

  /** `InsightReport({ articles })`: the placeholder exactly when there is no article. */
  function Insight(arts: seq<Article>, time: string -> Option<int>, year: int -> int, host: string -> Option<string>): (r: View)
    ensures r.Placeholder? <==> arts == []
    ensures r.Placeholder? ==> r.message == NoData
    ensures r.Report? ==> r.articles == |arts| && r.uniqueSources == |Tally(Origins(arts, host))|
  {
    var m := MetricsOf(arts, time, year, host);
    if arts == [] then Placeholder(NoData)
    else Report(m.total, YearsSpan(m, year), |m.bySource|, YearlyData(m), SourceData(m))
  }

  /** Every article is counted under some source, so there is a source as soon as there is an article. */
  lemma UniqueSourcesSpec(arts: seq<Article>, host: string -> Option<string>)
    ensures 1 <= |Tally(Origins(arts, host))| <= |arts| || arts == []
  {
    var ks := Origins(arts, host);
    TallySpec(ks);
    if arts != [] {
      assert ks[0] in ks;
      assert ks[0] in Counting.Keys(Tally(ks));
    }
    PositiveTotal(Tally(ks));
  }
}
