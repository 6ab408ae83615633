/**
 * The charts tab of the frontend: the number of articles per day, and, for the RSS and press
 * services, the eight domains with the most articles. The day of a date and the host of a URL are
 * the functions `day` and `host` of the root component.
 */
module ArticleCharts {
  import opened Wrappers
  import opened Counting
  import opened App

  const NoChartData := "Aucune donnée à visualiser."

  /** What `timelineData(articles)` returns, or the `RangeError` it raises at an invalid date. */
  function TimelineOf(arts: seq<Article>, day: string -> Option<string>): Result<seq<Entry<string>>, string>
  {
    match Days(arts, day)
    case None => Failure(InvalidTime)
    case Some(ds) => Success(Sort(Tally(ds), ByKeyAsc()))
  }

  /** `timelineData`: the `forEach` bumping `counts[day]`, then the entries sorted by date. */
  method TimelineData(arts: seq<Article>, day: string -> Option<string>) returns (r: Result<seq<Entry<string>>, string>)
    ensures r == TimelineOf(arts, day)
  {
    var counts: seq<Entry<string>> := [];
    for i := 0 to |arts|
      invariant Days(arts[..i], day).Some? && counts == Tally(Days(arts[..i], day).value)
    {
      DayStep(arts, i, day);
      var d := DayKey(arts[i], day);
      if d.None? {
        DaysStop(arts, day, i + 1);
        return Failure(InvalidTime);
      }
      counts := Bump(counts, d.value);
    }
    assert arts[..|arts|] == arts;
    r := Success(Sort(counts, ByKeyAsc()));
  }

  /** What one more article adds to the days. */
  lemma DayStep(arts: seq<Article>, i: int, day: string -> Option<string>)
    requires 0 <= i < |arts|
    ensures Days(arts[..i + 1], day)
      == if Days(arts[..i], day).Some? && DayKey(arts[i], day).Some?
         then Some(Days(arts[..i], day).value + [DayKey(arts[i], day).value])
         else None
    ensures Days(arts[..i + 1], day).Some? ==>
      Tally(Days(arts[..i + 1], day).value) == Bump(Tally(Days(arts[..i], day).value), DayKey(arts[i], day).value)
  {
    var prefix := arts[..i + 1];
    assert prefix[..i] == arts[..i];
    if Days(prefix, day).Some? {
      var ds := Days(prefix, day).value;
      assert ds[..|ds| - 1] == Days(arts[..i], day).value;
    }
  }

  /**
   * The timeline fails exactly when some article's date is invalid; otherwise it has one entry
   * per day, in increasing order, counting that day's articles, and the counts add up to the
   * number of articles.
   */
  lemma TimelineDataSpec(arts: seq<Article>, day: string -> Option<string>)
    ensures TimelineOf(arts, day).Failure? <==> exists i :: 0 <= i < |arts| && DayKey(arts[i], day).None?
    ensures TimelineOf(arts, day).Success? ==>
      var t := TimelineOf(arts, day).value;
      var ds := Days(arts, day).value;
      && Total(t) == |arts|
      && (forall i, j :: 0 <= i < j < |t| ==> StrLt(t[i].key, t[j].key))
      && (forall i :: 0 <= i < |t| ==> t[i].count == Occurrences(ds, t[i].key))
      && (forall d :: d in ds <==> exists i :: 0 <= i < |t| && t[i].key == d)
  {
    DaysSpec(arts, day);
    if Days(arts, day).Some? {
      TimelineSpec(Days(arts, day).value);
    }
  }

  /** `new URL(a.url).host`, `None` when the constructor throws; `new URL(undefined)` throws. */
  function Domain(a: Article, host: string -> Option<string>): Option<string>
  {
    if "url" in a then host(a["url"]) else None
  }

  /** The hosts of the articles whose URL parses, in order. */
  function Domains(arts: seq<Article>, host: string -> Option<string>): (r: seq<string>)
    ensures |r| <= |arts|
  {
    if arts == [] then []
    else
      var d := Domain(arts[|arts| - 1], host);
      Domains(arts[..|arts| - 1], host) + (if d.Some? then [d.value] else [])
  }

  /** A domain is counted exactly when some article's URL parses to it. */
  lemma {:induction false} DomainsSpec(arts: seq<Article>, host: string -> Option<string>)
    ensures forall x :: x in Domains(arts, host) <==> exists i :: 0 <= i < |arts| && Domain(arts[i], host) == Some(x)
  {
    if arts != [] {
      var init := arts[..|arts| - 1];
      DomainsSpec(init, host);
      assert forall i :: 0 <= i < |init| ==> init[i] == arts[i];
    }
  }

  /** `byDomain` filled by the `forEach`, then the eight largest entries. */
  method DomainData(arts: seq<Article>, host: string -> Option<string>) returns (data: seq<Entry<string>>)
    ensures data == Top(Tally(Domains(arts, host)), 8)
  {
    var byDomain: seq<Entry<string>> := [];
    for i := 0 to |arts|
      invariant byDomain == Tally(Domains(arts[..i], host))
    {
      DomainStep(arts, i, host);
      var d := Domain(arts[i], host);
      if d.Some? {
        byDomain := Bump(byDomain, d.value);
      }
    }
    assert arts[..|arts|] == arts;
    data := Top(byDomain, 8);
  }

  lemma DomainStep(arts: seq<Article>, i: int, host: string -> Option<string>)
    requires 0 <= i < |arts|
    ensures var d := Domain(arts[i], host);
      Tally(Domains(arts[..i + 1], host))
      == if d.Some? then Bump(Tally(Domains(arts[..i], host)), d.value) else Tally(Domains(arts[..i], host))
  {
    var prefix := arts[..i + 1];
    assert prefix[..i] == arts[..i];
    var ds, before := Domains(prefix, host), Domains(arts[..i], host);
    var d := Domain(arts[i], host);
    if d.Some? {
      assert ds == before + [d.value];
      assert ds[..|ds| - 1] == before;
    } else {
      assert ds == before + [];
      assert ds == before;
    }
  }

  /** The services whose articles get a domain chart. */
  predicate WithDomains(service: string)
  {
    service in ["rss", "presse"]
  }

  /** The domain chart's data: built for the RSS and press services only, and omitted when empty. */
  function DomainChart(arts: seq<Article>, service: string, host: string -> Option<string>): seq<Entry<string>>
  {
    if WithDomains(service) then Top(Tally(Domains(arts, host)), 8) else []
  }

  /** Some domain is counted exactly when some article's URL parses. */
  lemma SomeDomain(arts: seq<Article>, host: string -> Option<string>)
    ensures Domains(arts, host) != [] <==> exists i :: 0 <= i < |arts| && Domain(arts[i], host).Some?
  {
    var ks := Domains(arts, host);
    DomainsSpec(arts, host);
    if ks != [] {
      assert ks[0] in ks;
    }
    if exists i :: 0 <= i < |arts| && Domain(arts[i], host).Some? {
      var i :| 0 <= i < |arts| && Domain(arts[i], host).Some?;
      assert Domain(arts[i], host).value in ks;
    }
  }

  /** Each of the eight largest entries counts the occurrences of its key. */
  lemma TopCounts(ks: seq<string>)
    ensures var r := Top(Tally(ks), 8);
      forall i :: 0 <= i < |r| ==> r[i].count == Occurrences(ks, r[i].key)
  {
    var es := Tally(ks);
    TallySpec(ks);
    TopSpec(es, 8);
    var r := Top(es, 8);
    forall i | 0 <= i < |r| ensures r[i].count == Occurrences(ks, r[i].key)
    {
      var k :| 0 <= k < |es| && es[k] == r[i];
      CountOfEntry(es, k);
    }
  }

  /** The eight largest entries are none exactly when nothing was counted. */
  lemma TopEmpty(ks: seq<string>)
    ensures Top(Tally(ks), 8) == [] <==> ks == []
  {
    var es := Tally(ks);
    TallySpec(ks);
    TopSpec(es, 8);
    if ks != [] {
      assert ks[0] in Keys(es);
      assert es != [];
      assert es[0] in es;
    } else {
      assert es == [];
    }
  }

  /**
   * The domain chart is shown exactly for the RSS and press services when some article's URL
   * parses; it holds at most eight domains, by decreasing count, each counting that domain's
   * articles, and no domain left out counts more than one kept.
   */
  lemma DomainChartSpec(arts: seq<Article>, service: string, host: string -> Option<string>)
    ensures var r := DomainChart(arts, service, host);
      && (r != [] <==> WithDomains(service) && exists i :: 0 <= i < |arts| && Domain(arts[i], host).Some?)
      && |r| <= 8
      && (forall i, j :: 0 <= i < j < |r| ==> r[i].count >= r[j].count)
      && (forall i :: 0 <= i < |r| ==> r[i].count == Occurrences(Domains(arts, host), r[i].key))
      && (forall e :: e in Tally(Domains(arts, host)) && e !in r ==> forall i :: 0 <= i < |r| ==> e.count <= r[i].count)
  {
    var ks := Domains(arts, host);
    SomeDomain(arts, host);
    if WithDomains(service) {
      TopSpec(Tally(ks), 8);
      TopCounts(ks);
      TopEmpty(ks);
    }
  }

  /** What the tab shows: the placeholder, or the timeline and the domain chart (empty when omitted). */
  datatype View = Placeholder(message: string) | Charts(timeline: seq<Entry<string>>, domains: seq<Entry<string>>)

  /**
   * `ArticleCharts({ articles, service })`: the placeholder exactly when there is no article;
   * otherwise the charts, unless a date is invalid and `timelineData` raises.
   */
  function ChartsOf(arts: seq<Article>, service: string, day: string -> Option<string>, host: string -> Option<string>): (r: Result<View, string>)
    ensures r.Success? && r.value.Placeholder? <==> arts == []
    ensures r.Success? && r.value.Placeholder? ==> r.value.message == NoChartData
    ensures r.Failure? <==> arts != [] && TimelineOf(arts, day).Failure?
    ensures r.Success? && r.value.Charts? ==> r.value.timeline == TimelineOf(arts, day).value
  {
    if arts == [] then Success(Placeholder(NoChartData))
    else
      match TimelineOf(arts, day)
      case Failure(e) => Failure(e)
      case Success(t) => Success(Charts(t, DomainChart(arts, service, host)))
  }
}
