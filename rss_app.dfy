/**
 * The RSS service's `/articles` handler (rss_service/app.py): the scraped entries are filtered
 * by the day of their `published` date and by the query and exclude terms on the title alone.
 */
module RssApp {
  import opened Wrappers
  import opened Text
  import opened Calendar
  import opened Values
  import opened Search
  import opened Filters

  function Title(a: Object): Value { GetOr(a, "title", Str("")) }

  function Record(a: Object, title: string, dt: Instant): Object
  {
    map[
      "service" := Str("rss"),
      "title" := Str(title),
      "url" := GetOr(a, "link", Str("")),
      "date" := Str(IsoFormat(dt))
    ]
  }

  /**
   * One iteration, in the order of the source: `published` (skipped when isoparse fails), the
   * window, then `title.lower()` (which raises on a non-string title) for the query and the
   * exclude terms.
   */
  function Step(a: Object, c: Criteria, o: Oracles): Result<Option<Object>, string>
  {
    match ParseStamp(Get(a, "published"), o)
    case None => Success(None)
    case Some(dt) =>
      if !InWindow(dt.date, c.window) then Success(None)
      else match Title(a)
        case Str(title) =>
          if !MatchQuery(c.q, Lower(title)) || AnyTermIn(c.ex, Lower(title)) then Success(None)
          else Success(Some(Record(a, title, dt)))
        case _ => Failure("AttributeError: title has no attribute 'lower'")
  }

  function Steps(c: Criteria, o: Oracles): Object -> Result<Option<Object>, string>
  {
    a => Step(a, c, o)
  }

  /** The filters as one condition. */
  predicate Selected(a: Object, c: Criteria, o: Oracles)
  {
    var dt := ParseStamp(Get(a, "published"), o);
    dt.Some? && InWindow(dt.value.date, c.window) && Title(a).Str?
    && MatchQuery(c.q, Lower(Title(a).s)) && !AnyTermIn(c.ex, Lower(Title(a).s))
  }

  function Emitted(a: Object, c: Criteria, o: Oracles): Object
    requires Selected(a, c, o)
  {
    Record(a, Title(a).s, ParseStamp(Get(a, "published"), o).value)
  }

  /** The loop body keeps exactly the selected entries; it raises only on a dated, in-window entry whose title is not a string. */
  lemma StepSpec(a: Object, c: Criteria, o: Oracles)
    ensures Step(a, c, o).Success? && Step(a, c, o).value.Some? <==> Selected(a, c, o)
    ensures Selected(a, c, o) ==> Step(a, c, o) == Success(Some(Emitted(a, c, o)))
    ensures Step(a, c, o).Failure? <==>
      ParseStamp(Get(a, "published"), o).Some? && InWindow(ParseStamp(Get(a, "published"), o).value.date, c.window)
      && !Title(a).Str?
  {
    StepKeeps(a, c, o);
    StepRaises(a, c, o);
  }

  lemma StepKeeps(a: Object, c: Criteria, o: Oracles)
    ensures Step(a, c, o).Success? && Step(a, c, o).value.Some? <==> Selected(a, c, o)
    ensures Selected(a, c, o) ==> Step(a, c, o) == Success(Some(Emitted(a, c, o)))
  {
  }

  lemma StepRaises(a: Object, c: Criteria, o: Oracles)
    ensures Step(a, c, o).Failure? <==>
      ParseStamp(Get(a, "published"), o).Some? && InWindow(ParseStamp(Get(a, "published"), o).value.date, c.window)
      && !Title(a).Str?
  {
  }

  lemma KeptIsSelected(a: Object, c: Criteria, o: Oracles, u: Object)
    requires Step(a, c, o) == Success(Some(u))
    ensures Selected(a, c, o) && u == Emitted(a, c, o)
  {
    StepSpec(a, c, o);
  }

  /**
   * Only the title and the date decide: two entries that agree on `title` and `published` are
   * both kept or both dropped, whatever their summaries or other fields say.
   */
  lemma TitleAndDateDecide(a: Object, b: Object, c: Criteria, o: Oracles)
    requires Title(a) == Title(b) && Get(a, "published") == Get(b, "published")
    ensures Selected(a, c, o) <==> Selected(b, c, o)
    ensures Step(a, c, o).Failure? <==> Step(b, c, o).Failure?
  {
    StepSpec(a, c, o);
    StepSpec(b, c, o);
  }

  /** Every emitted record is the record of a selected entry. */
  lemma FilterSound(entries: seq<Object>, c: Criteria, o: Oracles, out: seq<Object>)
    requires Gather(entries, Steps(c, o)) == Success(out)
    ensures |out| <= |entries|
    ensures forall j :: 0 <= j < |out| ==>
      exists i :: 0 <= i < |entries| && Selected(entries[i], c, o) && out[j] == Emitted(entries[i], c, o)
  {
    GatherShorter(entries, Steps(c, o), out);
    forall j | 0 <= j < |out|
      ensures exists i :: 0 <= i < |entries| && Selected(entries[i], c, o) && out[j] == Emitted(entries[i], c, o)
    {
      var i := GatherSource(entries, Steps(c, o), out, j);
      KeptIsSelected(entries[i], c, o, out[j]);
    }
  }

  /** Every selected entry is emitted. */
  lemma FilterComplete(entries: seq<Object>, c: Criteria, o: Oracles, out: seq<Object>)
    requires Gather(entries, Steps(c, o)) == Success(out)
    ensures forall i :: 0 <= i < |entries| && Selected(entries[i], c, o) ==> Emitted(entries[i], c, o) in out
  {
    forall i | 0 <= i < |entries| && Selected(entries[i], c, o)
      ensures Emitted(entries[i], c, o) in out
    {
      StepSpec(entries[i], c, o);
      GatherKeeps(entries, Steps(c, o), out, i);
    }
  }

  /** An emitted record is tagged `rss`, keeps the title, takes `url` from `link`, and has only four fields. */
  lemma EmittedFields(a: Object, c: Criteria, o: Oracles)
    requires Selected(a, c, o)
    ensures var r := Emitted(a, c, o);
      r.Keys == {"service", "title", "url", "date"}
      && r["service"] == Str("rss") && r["title"] == Title(a) && r["url"] == GetOr(a, "link", Str(""))
      && r["date"].Str? && r["date"].s[..10] == DateIso(ParseStamp(Get(a, "published"), o).value.date)
  {
    assert Emitted(a, c, o) == Record(a, Title(a).s, ParseStamp(Get(a, "published"), o).value);
  }

  /** The criteria: the query and the exclude list lower-cased; no language or country filter. */
  function CriteriaOf(args: Args, w: Window): (c: Criteria)
    ensures c.q == Lower(args.q) && c.ex == ExcludeTerms(args.exclude) && c.window == w
    ensures c.lang == "" && c.country == ""
  {
    Criteria(Lower(args.q), ExcludeTerms(args.exclude), "", "", w)
  }

  /** What `/articles` answers: an error when a date argument or an entry raises. */
  function ArticlesOf(args: Args, today: Date, entries: seq<Object>, o: Oracles): Result<seq<Object>, string>
  {
    match ResolveWindow(args.start, args.end, today, o.isoparse)
    case Failure(err) => Failure(err)
    case Success(w) => Gather(entries, Steps(CriteriaOf(args, w), o))
  }

  /** `/articles`: the window, then the entries `fetch_rss_articles` scraped, then the filter loop. */
  method Articles(args: Args, entries: seq<Object>, today: Date, o: Oracles)
    returns (r: Result<seq<Object>, string>)
    ensures r == ArticlesOf(args, today, entries, o)
  {
    var window := ResolveWindow(args.start, args.end, today, o.isoparse);
    if window.Failure? {
      return Failure(window.error);
    }
    r := FilterLoop(entries, Steps(CriteriaOf(args, window.value), o));
  }
}
