/**
 * The Reddit service's `/articles` handler (reddit_service/app.py): the fetched posts are
 * filtered by query and exclude terms on the title and self text, by the day of their epoch
 * timestamp, by language and by country, and mapped to records.
 */
module RedditApp {
  import opened Wrappers
  import opened Text
  import opened Calendar
  import opened Values
  import opened Search
  import opened Filters

  /**
   * The conversion `datetime.fromtimestamp(float(v)).astimezone()` depends on: `float` of a
   * string (`None` when it raises) and the local date-time of an epoch second (`None` when it
   * is out of range). Fractions of a second are not modelled.
   */
  datatype Epoch = Epoch(number: string -> Option<int>, local: int -> Option<Instant>)

  /** The local date-time of a `created_utc` value; `None` is an exception the handler skips over. */
  function PostTime(v: Value, e: Epoch): (r: Option<Instant>)
    ensures v.Null? ==> r.None?
    ensures v.Num? ==> r == e.local(v.n)
  {
    match v
    case Null => None
    case Num(n) => e.local(n)
    case Str(s) => if e.number(s).Some? then e.local(e.number(s).value) else None
  }

  function Title(p: Object): Value { GetOr(p, "title", Str("")) }

  /** `f"{title}\n\n{selftext}".strip()`. */
  function Body(p: Object): string
  {
    Trim(Show(Title(p)) + "\n\n" + Show(GetOr(p, "selftext", Str(""))))
  }

  /** `p.get('url', '')`. */
  function Url(p: Object): Value { GetOr(p, "url", Str("")) }

  function Record(p: Object, dt: Instant, lang: string, cc: string): Object
  {
    map[
      "service" := Str("reddit"),
      "title" := Title(p),
      "url" := Url(p),
      "date" := Str(IsoFormat(dt)),
      "langue" := Str(lang),
      "country" := Str(cc)
    ]
  }

  /**
   * One iteration, in the order of the source: the query and exclude terms on the lower-cased
   * body, then the timestamp (skipped when it cannot be converted) and the window, then the
   * language, then the country lookup (which raises on a non-string URL) and its filter.
   */
  function Step(p: Object, c: Criteria, o: Oracles, e: Epoch): Result<Option<Object>, string>
  {
    if !MatchQuery(c.q, Lower(Body(p))) then Success(None)
    else if AnyTermIn(c.ex, Lower(Body(p))) then Success(None)
    else match PostTime(Get(p, "created_utc"), e)
      case None => Success(None)
      case Some(dt) =>
        if !InWindow(dt.date, c.window) then Success(None)
        else
          var lang := LanguageOf(Body(p), o);
          if !Accepts(c.lang, lang) then Success(None)
          else match CountryOf(Url(p), o)
            case Failure(err) => Failure(err)
            case Success(cc) =>
              if !Accepts(c.country, cc) then Success(None)
              else Success(Some(Record(p, dt, lang, cc)))
  }

  function Steps(c: Criteria, o: Oracles, e: Epoch): Object -> Result<Option<Object>, string>
  {
    p => Step(p, c, o, e)
  }

  /** The filters as one condition. */
  predicate Selected(p: Object, c: Criteria, o: Oracles, e: Epoch)
  {
    var dt := PostTime(Get(p, "created_utc"), e);
    var cc := CountryOf(Url(p), o);
    MatchQuery(c.q, Lower(Body(p))) && !AnyTermIn(c.ex, Lower(Body(p)))
    && dt.Some? && InWindow(dt.value.date, c.window)
    && Accepts(c.lang, LanguageOf(Body(p), o))
    && cc.Success? && Accepts(c.country, cc.value)
  }

  function Emitted(p: Object, c: Criteria, o: Oracles, e: Epoch): Object
    requires Selected(p, c, o, e)
  {
    Record(p, PostTime(Get(p, "created_utc"), e).value, LanguageOf(Body(p), o), CountryOf(Url(p), o).value)
  }

  /** The loop body keeps exactly the selected posts; it raises only on a non-string URL of a post that got that far. */
  lemma StepSpec(p: Object, c: Criteria, o: Oracles, e: Epoch)
    ensures Step(p, c, o, e).Success? && Step(p, c, o, e).value.Some? <==> Selected(p, c, o, e)
    ensures Selected(p, c, o, e) ==> Step(p, c, o, e) == Success(Some(Emitted(p, c, o, e)))
    ensures Step(p, c, o, e).Failure? <==>
      MatchQuery(c.q, Lower(Body(p))) && !AnyTermIn(c.ex, Lower(Body(p)))
      && PostTime(Get(p, "created_utc"), e).Some? && InWindow(PostTime(Get(p, "created_utc"), e).value.date, c.window)
      && Accepts(c.lang, LanguageOf(Body(p), o)) && Truthy(Url(p)) && !Url(p).Str?
  {
    StepKeeps(p, c, o, e);
    StepRaises(p, c, o, e);
  }

  lemma StepKeeps(p: Object, c: Criteria, o: Oracles, e: Epoch)
    ensures Step(p, c, o, e).Success? && Step(p, c, o, e).value.Some? <==> Selected(p, c, o, e)
    ensures Selected(p, c, o, e) ==> Step(p, c, o, e) == Success(Some(Emitted(p, c, o, e)))
  {
    var body := Lower(Body(p));
    var dt := PostTime(Get(p, "created_utc"), e);
    if !MatchQuery(c.q, body) || AnyTermIn(c.ex, body) || dt.None? {
      assert Step(p, c, o, e) == Success(None);
    } else if !InWindow(dt.value.date, c.window) || !Accepts(c.lang, LanguageOf(Body(p), o)) {
      assert Step(p, c, o, e) == Success(None);
    }
  }

  lemma StepRaises(p: Object, c: Criteria, o: Oracles, e: Epoch)
    ensures Step(p, c, o, e).Failure? <==>
      MatchQuery(c.q, Lower(Body(p))) && !AnyTermIn(c.ex, Lower(Body(p)))
      && PostTime(Get(p, "created_utc"), e).Some? && InWindow(PostTime(Get(p, "created_utc"), e).value.date, c.window)
      && Accepts(c.lang, LanguageOf(Body(p), o)) && Truthy(Url(p)) && !Url(p).Str?
  {
  }

  lemma KeptIsSelected(p: Object, c: Criteria, o: Oracles, e: Epoch, u: Object)
    requires Step(p, c, o, e) == Success(Some(u))
    ensures Selected(p, c, o, e) && u == Emitted(p, c, o, e)
  {
    StepSpec(p, c, o, e);
  }

  /** A post without a `created_utc` value is dropped, whatever else it holds. */
  lemma UndatedPostDropped(p: Object, c: Criteria, o: Oracles, e: Epoch)
    requires Get(p, "created_utc").Null?
    ensures Step(p, c, o, e) == Success(None)
  {
  }

  /** Every emitted record is the record of a selected post. */
  lemma FilterSound(posts: seq<Object>, c: Criteria, o: Oracles, e: Epoch, out: seq<Object>)
    requires Gather(posts, Steps(c, o, e)) == Success(out)
    ensures |out| <= |posts|
    ensures forall j :: 0 <= j < |out| ==>
      exists i :: 0 <= i < |posts| && Selected(posts[i], c, o, e) && out[j] == Emitted(posts[i], c, o, e)
  {
    GatherShorter(posts, Steps(c, o, e), out);
    forall j | 0 <= j < |out|
      ensures exists i :: 0 <= i < |posts| && Selected(posts[i], c, o, e) && out[j] == Emitted(posts[i], c, o, e)
    {
      var i := GatherSource(posts, Steps(c, o, e), out, j);
      KeptIsSelected(posts[i], c, o, e, out[j]);
    }
  }

  /** Every selected post is emitted. */
  lemma FilterComplete(posts: seq<Object>, c: Criteria, o: Oracles, e: Epoch, out: seq<Object>)
    requires Gather(posts, Steps(c, o, e)) == Success(out)
    ensures forall i :: 0 <= i < |posts| && Selected(posts[i], c, o, e) ==> Emitted(posts[i], c, o, e) in out
  {
    forall i | 0 <= i < |posts| && Selected(posts[i], c, o, e)
      ensures Emitted(posts[i], c, o, e) in out
    {
      StepSpec(posts[i], c, o, e);
      GatherKeeps(posts, Steps(c, o, e), out, i);
    }
  }

  /**
   * The fields of an emitted record: tagged `reddit`, the post's URL, a date inside the window,
   * and a language and country equal to the filters when those are set (so never `""` then).
   */
  lemma EmittedFields(p: Object, c: Criteria, o: Oracles, e: Epoch)
    requires Selected(p, c, o, e)
    ensures var r := Emitted(p, c, o, e);
      r["service"] == Str("reddit") && r["url"] == Url(p) && r["title"] == Title(p)
      && r["date"].Str? && r["date"].s[..10] == DateIso(PostTime(Get(p, "created_utc"), e).value.date)
      && (c.lang != "" ==> r["langue"] == Str(c.lang))
      && (c.country != "" ==> r["country"] == Str(c.country))
  {
    var dt := PostTime(Get(p, "created_utc"), e).value;
    var lang, cc := LanguageOf(Body(p), o), CountryOf(Url(p), o).value;
    assert Emitted(p, c, o, e) == Record(p, dt, lang, cc);
    RecordFields(p, dt, lang, cc);
  }

  lemma RecordFields(p: Object, dt: Instant, lang: string, cc: string)
    ensures var r := Record(p, dt, lang, cc);
      r["service"] == Str("reddit") && r["url"] == Url(p) && r["title"] == Title(p)
      && r["date"].Str? && r["date"].s[..10] == DateIso(dt.date)
      && r["langue"] == Str(lang) && r["country"] == Str(cc)
  {
  }

  /** The criteria: the query as given (matching lower-cases it), the rest lower-cased. */
  function CriteriaOf(args: Args, w: Window): (c: Criteria)
    ensures c.q == args.q && c.ex == ExcludeTerms(args.exclude) && c.window == w
  {
    Criteria(args.q, ExcludeTerms(args.exclude), Lower(args.lang), Lower(args.country), w)
  }

  /** How many posts are fetched when `n` is absent. */
  const DefaultCount := 1000

  /**
   * What `/articles` answers: an error when `n` is no integer, when a date argument raises, or
   * when a post raises; otherwise the filter over the posts fetched for the query and count.
   */
  function ArticlesOf(args: Args, today: Date, fetch: (string, int) -> seq<Object>, o: Oracles, e: Epoch): Result<seq<Object>, string>
  {
    match CountArg(args.n, DefaultCount)
    case Failure(err) => Failure(err)
    case Success(n) =>
      match ResolveWindow(args.start, args.end, today, o.isoparse)
      case Failure(err) => Failure(err)
      case Success(w) => Gather(fetch(args.q, n), Steps(CriteriaOf(args, w), o, e))
  }

  /** `int(n)` is read before the dates: an `n` that is no integer fails the request whatever the window. */
  lemma BadCountFails(args: Args, today: Date, fetch: (string, int) -> seq<Object>, o: Oracles, e: Epoch, c: char)
    requires args.n.Some? && c in args.n.value
    requires !IsDigit(c) && !IsSpace(c) && c != '+' && c != '-' && c != '_'
    ensures ArticlesOf(args, today, fetch, o, e) == Failure(NotAnInt)
  {
    CountArgRejects(args.n.value, c, DefaultCount);
  }

  /**
   * `/articles`: `n` and the window are read, the posts are fetched for the query and count
   * (`fetch` stands for the Reddit client), and the filter loop runs over them.
   */
  method Articles(args: Args, fetch: (string, int) -> seq<Object>, today: Date, o: Oracles, e: Epoch)
    returns (r: Result<seq<Object>, string>)
    ensures r == ArticlesOf(args, today, fetch, o, e)
  {
    var count := CountArg(args.n, DefaultCount);
    if count.Failure? {
      return Failure(count.error);
    }
    var window := ResolveWindow(args.start, args.end, today, o.isoparse);
    if window.Failure? {
      return Failure(window.error);
    }
    var posts := fetch(args.q, count.value);
    r := FilterLoop(posts, Steps(CriteriaOf(args, window.value), o, e));
  }
}
