/**
 * The Twitter service's `/articles` handler (twitter_service/app.py): the creation date is read
 * with isoparse and then with the general parser, the window, query and exclude filters run
 * on the tweet text, and every record points at the tweet's status URL.
 */
module TwitterApp {
  import opened Wrappers
  import opened Text
  import opened Calendar
  import opened Values
  import opened Search
  import opened Lang
  import opened Filters

  /** The two-step date reading: isoparse, else `parser.parse`, else nothing (the tweet is dropped). */
  function CreatedAt(v: Value, o: Oracles, parse: string -> Option<Instant>): (r: Option<Instant>)
    ensures !v.Str? ==> r.None?
    ensures v.Str? && o.isoparse(v.s).Some? ==> r == o.isoparse(v.s)
    ensures v.Str? && o.isoparse(v.s).None? ==> r == parse(v.s)
  {
    match ParseStamp(v, o)
    case Some(t) => Some(t)
    case None => if v.Str? then parse(v.s) else None
  }

  const StatusPrefix: string := "https://twitter.com/i/web/status/"

  /** `f"https://twitter.com/i/web/status/{t.get('id_str')}"`. */
  function StatusUrl(t: Object): string
  {
    StatusPrefix + Show(Get(t, "id_str"))
  }

  function Record(t: Object, text: string, dt: Instant, lang: string, cc: string): Object
  {
    map[
      "service" := Str("twitter"),
      "id" := Get(t, "id_str"),
      "title" := Str(text),
      "url" := Str(StatusUrl(t)),
      "date" := Str(IsoFormat(dt)),
      "langue" := Str(lang),
      "country" := Str(cc)
    ]
  }

  /**
   * One iteration, in the order of the source: the date and the window, then `text.lower()`
   * (which raises on a non-string text), the query and exclude terms, the language, and the
   * country of the status URL.
   */
  function Step(t: Object, c: Criteria, o: Oracles, parse: string -> Option<Instant>): Result<Option<Object>, string>
  {
    match CreatedAt(Get(t, "created_at"), o, parse)
    case None => Success(None)
    case Some(dt) =>
      if !InWindow(dt.date, c.window) then Success(None)
      else match GetOr(t, "text", Str(""))
        case Str(text) =>
          if !MatchQuery(c.q, Lower(text)) then Success(None)
          else if AnyTermIn(c.ex, Lower(text)) then Success(None)
          else
            var lang := LanguageOf(text, o);
            var cc := ExtractCountry(Some(StatusUrl(t)), o.suffixOf);
            if !Accepts(c.lang, lang) || !Accepts(c.country, cc) then Success(None)
            else Success(Some(Record(t, text, dt, lang, cc)))
        case _ => Failure("AttributeError: text has no attribute 'lower'")
  }

  function Steps(c: Criteria, o: Oracles, parse: string -> Option<Instant>): Object -> Result<Option<Object>, string>
  {
    t => Step(t, c, o, parse)
  }

  /** The filters as one condition. */
  predicate Selected(t: Object, c: Criteria, o: Oracles, parse: string -> Option<Instant>)
  {
    var dt := CreatedAt(Get(t, "created_at"), o, parse);
    var text := GetOr(t, "text", Str(""));
    dt.Some? && InWindow(dt.value.date, c.window) && text.Str?
    && MatchQuery(c.q, Lower(text.s)) && !AnyTermIn(c.ex, Lower(text.s))
    && Accepts(c.lang, LanguageOf(text.s, o))
    && Accepts(c.country, ExtractCountry(Some(StatusUrl(t)), o.suffixOf))
  }

  function Emitted(t: Object, c: Criteria, o: Oracles, parse: string -> Option<Instant>): Object
    requires Selected(t, c, o, parse)
  {
    var text := GetOr(t, "text", Str("")).s;
    Record(t, text, CreatedAt(Get(t, "created_at"), o, parse).value, LanguageOf(text, o),
           ExtractCountry(Some(StatusUrl(t)), o.suffixOf))
  }

  /** The loop body keeps exactly the selected tweets; it raises only on a dated, in-window tweet whose text is not a string. */
  lemma StepSpec(t: Object, c: Criteria, o: Oracles, parse: string -> Option<Instant>)
    ensures Step(t, c, o, parse).Success? && Step(t, c, o, parse).value.Some? <==> Selected(t, c, o, parse)
    ensures Selected(t, c, o, parse) ==> Step(t, c, o, parse) == Success(Some(Emitted(t, c, o, parse)))
    ensures Step(t, c, o, parse).Failure? <==>
      CreatedAt(Get(t, "created_at"), o, parse).Some?
      && InWindow(CreatedAt(Get(t, "created_at"), o, parse).value.date, c.window)
      && !GetOr(t, "text", Str("")).Str?
  {
  }

  lemma KeptIsSelected(t: Object, c: Criteria, o: Oracles, parse: string -> Option<Instant>, u: Object)
    requires Step(t, c, o, parse) == Success(Some(u))
    ensures EmittedOfSelected(t, c, o, parse, u)
  {
    StepSpec(t, c, o, parse);
  }

  /** `u` is the record emitted for the selected tweet `t`. */
  predicate EmittedOfSelected(t: Object, c: Criteria, o: Oracles, parse: string -> Option<Instant>, u: Object)
  {
    Selected(t, c, o, parse) && u == Emitted(t, c, o, parse)
  }

  /** Every emitted record is the record of a selected tweet. */
  lemma FilterSound(tweets: seq<Object>, c: Criteria, o: Oracles, parse: string -> Option<Instant>, out: seq<Object>)
    requires Gather(tweets, Steps(c, o, parse)) == Success(out)
    ensures |out| <= |tweets|
    ensures forall j :: 0 <= j < |out| ==>
      exists i :: 0 <= i < |tweets| && EmittedOfSelected(tweets[i], c, o, parse, out[j])
  {
    GatherShorter(tweets, Steps(c, o, parse), out);
    forall j | 0 <= j < |out|
      ensures exists i :: 0 <= i < |tweets| && EmittedOfSelected(tweets[i], c, o, parse, out[j])
    {
      var i := GatherSource(tweets, Steps(c, o, parse), out, j);
      KeptIsSelected(tweets[i], c, o, parse, out[j]);
    }
  }

  /** Every selected tweet is emitted. */
  lemma FilterComplete(tweets: seq<Object>, c: Criteria, o: Oracles, parse: string -> Option<Instant>, out: seq<Object>)
    requires Gather(tweets, Steps(c, o, parse)) == Success(out)
    ensures forall i :: 0 <= i < |tweets| && Selected(tweets[i], c, o, parse) ==> Emitted(tweets[i], c, o, parse) in out
  {
    forall i | 0 <= i < |tweets| && Selected(tweets[i], c, o, parse)
      ensures Emitted(tweets[i], c, o, parse) in out
    {
      StepSpec(tweets[i], c, o, parse);
      GatherKeeps(tweets, Steps(c, o, parse), out, i);
    }
  }

  /** An emitted record is tagged `twitter`, identified by `id_str`, titled with the text, at the status URL. */
  lemma EmittedFields(t: Object, c: Criteria, o: Oracles, parse: string -> Option<Instant>)
    requires Selected(t, c, o, parse)
    ensures var r := Emitted(t, c, o, parse);
      r["service"] == Str("twitter") && r["id"] == Get(t, "id_str") && r["title"] == GetOr(t, "text", Str(""))
      && r["url"] == Str(StatusPrefix + Show(Get(t, "id_str")))
      && r["date"].Str? && r["date"].s[..10] == DateIso(CreatedAt(Get(t, "created_at"), o, parse).value.date)
  {
    var text := GetOr(t, "text", Str("")).s;
    var dt := CreatedAt(Get(t, "created_at"), o, parse).value;
    assert Emitted(t, c, o, parse) == Record(t, text, dt, LanguageOf(text, o), ExtractCountry(Some(StatusUrl(t)), o.suffixOf));
    assert Str(text) == GetOr(t, "text", Str(""));
    RecordFields(t, text, dt, LanguageOf(text, o), ExtractCountry(Some(StatusUrl(t)), o.suffixOf));
  }

  lemma RecordFields(t: Object, text: string, dt: Instant, lang: string, cc: string)
    ensures var r := Record(t, text, dt, lang, cc);
      r["service"] == Str("twitter") && r["id"] == Get(t, "id_str") && r["title"] == Str(text)
      && r["url"] == Str(StatusUrl(t)) && r["date"] == Str(IsoFormat(dt))
  {
  }

  /**
   * Every status URL is on `twitter.com`, whose public suffix is `com`: given that, every
   * emitted record's country is `us`, and a country filter other than `us` empties the answer.
   */
  lemma CountryAlwaysUs(tweets: seq<Object>, c: Criteria, o: Oracles, parse: string -> Option<Instant>, out: seq<Object>)
    requires Gather(tweets, Steps(c, o, parse)) == Success(out)
    requires forall t :: o.suffixOf(StatusUrl(t)) == "com"
    ensures forall j :: 0 <= j < |out| ==> "country" in out[j] && out[j]["country"] == Str("us")
    ensures c.country != "" && c.country != "us" ==> out == []
  {
    FilterSound(tweets, c, o, parse, out);
    forall j | 0 <= j < |out| ensures "country" in out[j] && out[j]["country"] == Str("us") && Accepts(c.country, "us")
    {
      var i :| 0 <= i < |tweets| && EmittedOfSelected(tweets[i], c, o, parse, out[j]);
      ComIsUs(StatusUrl(tweets[i]), o.suffixOf);
    }
    if out != [] {
      assert "country" in out[0];
    }
  }

  function CriteriaOf(args: Args, w: Window): (c: Criteria)
    ensures c.q == args.q && c.ex == ExcludeTerms(args.exclude) && c.window == w
  {
    Criteria(args.q, ExcludeTerms(args.exclude), Lower(args.lang), Lower(args.country), w)
  }

  /** How many tweets are fetched when `n` is absent. */
  const DefaultCount := 200

  /**
   * What `/articles` answers: an error when `n` is no integer, when a date argument raises, or
   * when a tweet raises; otherwise the filter over the tweets fetched for the query and count.
   */
  function ArticlesOf(args: Args, today: Date, fetch: (string, int) -> seq<Object>, o: Oracles, parse: string -> Option<Instant>): Result<seq<Object>, string>
  {
    match CountArg(args.n, DefaultCount)
    case Failure(err) => Failure(err)
    case Success(n) =>
      match ResolveWindow(args.start, args.end, today, o.isoparse)
      case Failure(err) => Failure(err)
      case Success(w) => Gather(fetch(args.q, n), Steps(CriteriaOf(args, w), o, parse))
  }

  /** `int(n)` is read before the dates: an `n` that is no integer fails the request whatever the window. */
  lemma BadCountFails(args: Args, today: Date, fetch: (string, int) -> seq<Object>, o: Oracles, parse: string -> Option<Instant>, c: char)
    requires args.n.Some? && c in args.n.value
    requires !IsDigit(c) && !IsSpace(c) && c != '+' && c != '-' && c != '_'
    ensures ArticlesOf(args, today, fetch, o, parse) == Failure(NotAnInt)
  {
    CountArgRejects(args.n.value, c, DefaultCount);
  }

  /** `/articles`: `n`, the window, the fetched tweets (`fetch` stands for the Twitter client), the filter loop. */
  method Articles(args: Args, fetch: (string, int) -> seq<Object>, today: Date, o: Oracles, parse: string -> Option<Instant>)
    returns (r: Result<seq<Object>, string>)
    ensures r == ArticlesOf(args, today, fetch, o, parse)
  {
    var count := CountArg(args.n, DefaultCount);
    if count.Failure? {
      return Failure(count.error);
    }
    var window := ResolveWindow(args.start, args.end, today, o.isoparse);
    if window.Failure? {
      return Failure(window.error);
    }
    var tweets := fetch(args.q, count.value);
    r := FilterLoop(tweets, Steps(CriteriaOf(args, window.value), o, parse));
  }
}
