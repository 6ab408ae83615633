/**
 * The LinkedIn service's handlers (linkedin_service/app.py): a store of JSON snapshots keyed
 * by the slug of the query, the forced refresh `/collect`, and `/articles`, which reads the
 * snapshot (fetching it only when it is empty) and runs the date, query, exclude, language and
 * country filters over it.
 */
module LinkedInApp {
  import opened Wrappers
  import opened Text
  import opened Calendar
  import opened Values
  import opened Search
  import opened Filters
  import opened LinkedInClient

  // ---------------------------------------------------------------------------------------------
  // Snapshot keys
  // ---------------------------------------------------------------------------------------------

  /** `_path(query)`: the snapshot file of a query, under `data/`. */
  function SnapshotKey(query: string, fold: string -> string): string
  {
    "data/" + Slugify(query, fold) + ".json"
  }

  /** A character that is neither a letter nor a digit in either case: punctuation or blank. */
  predicate Punctuation(c: char) { !IsLowerAlnum(c) && !IsUpper(c) }

  /**
   * Queries that differ in one punctuation character (`sonko, faye` and `sonko; faye`) share a
   * snapshot, when folding leaves their ASCII text alone.
   */
  lemma PunctuationSharesKey(x: string, y: string, c1: char, c2: char, fold: string -> string)
    requires Punctuation(c1) && Punctuation(c2)
    requires fold(Lower(x + [c1] + y)) == Lower(x + [c1] + y)
    requires fold(Lower(x + [c2] + y)) == Lower(x + [c2] + y)
    ensures SnapshotKey(Lower(x + [c1] + y), fold) == SnapshotKey(Lower(x + [c2] + y), fold)
  {
    LowerOfSplit(x, c1, y);
    LowerOfSplit(x, c2, y);
    LowerIdempotent(x + [c1] + y);
    LowerIdempotent(x + [c2] + y);
    DashRunsSwap(Lower(x), c1, c2, Lower(y));
  }

  lemma LowerOfSplit(x: string, c: char, y: string)
    requires Punctuation(c)
    ensures Lower(x + [c] + y) == Lower(x) + [c] + Lower(y)
  {
    LowerAppend(x + [c], y);
    LowerAppend(x, [c]);
  }

  /** Skipping junk over a punctuation character either stops before it or runs past it. */
  lemma {:induction false} SkipJunkOver(a: string, c: char, b: string)
    requires !IsLowerAlnum(c)
    ensures SkipJunk(a) == [] ==> SkipJunk(a + [c] + b) == SkipJunk(b)
    ensures SkipJunk(a) != [] ==> SkipJunk(a + [c] + b) == SkipJunk(a) + [c] + b
    decreases |a|
  {
    var s := a + [c] + b;
    if a == [] {
      assert s[0] == c && s[1..] == b;
      assert SkipJunk(s) == SkipJunk(b);
    } else if IsLowerAlnum(a[0]) {
      assert s[0] == a[0];
      assert SkipJunk(s) == s && SkipJunk(a) == a;
    } else {
      assert s[0] == a[0] && s[1..] == a[1..] + [c] + b;
      assert SkipJunk(s) == SkipJunk(s[1..]) && SkipJunk(a) == SkipJunk(a[1..]);
      SkipJunkOver(a[1..], c, b);
    }
  }

  /** Replacing one non-alphanumeric character by another leaves the dash runs unchanged. */
  lemma {:induction false} DashRunsSwap(a: string, c1: char, c2: char, b: string)
    requires !IsLowerAlnum(c1) && !IsLowerAlnum(c2)
    ensures DashRuns(a + [c1] + b) == DashRuns(a + [c2] + b)
    decreases |a|
  {
    var s1, s2 := a + [c1] + b, a + [c2] + b;
    SkipJunkOver(a, c1, b);
    SkipJunkOver(a, c2, b);
    if a == [] {
      assert SkipJunk(s1) == SkipJunk(b) == SkipJunk(s2);
    } else if IsLowerAlnum(a[0]) {
      assert s1[1..] == a[1..] + [c1] + b;
      assert s2[1..] == a[1..] + [c2] + b;
      DashRunsSwap(a[1..], c1, c2, b);
    } else if SkipJunk(a) != [] {
      var rest := SkipJunk(a);
      assert |rest| < |a| by {
        assert SkipJunk(a) == SkipJunk(a[1..]);
      }
      DashRunsSwap(rest, c1, c2, b);
    }
  }

  // ---------------------------------------------------------------------------------------------
  // The filter chain of `/articles`
  // ---------------------------------------------------------------------------------------------

  /** `a.get('title', '')`. */
  function Title(a: Object): Value { GetOr(a, "title", Str("")) }

  /** `a.get('description') or a.get('summary') or ''`. */
  function Description(a: Object): (v: Value)
    ensures Truthy(Get(a, "description")) ==> v == Get(a, "description")
    ensures !Truthy(Get(a, "description")) && Truthy(Get(a, "summary")) ==> v == Get(a, "summary")
    ensures !Truthy(Get(a, "description")) && !Truthy(Get(a, "summary")) ==> v == Str("")
  {
    Or(Or(Get(a, "description"), Get(a, "summary")), Str(""))
  }

  /** `f"{title}\n\n{desc}".strip()`: the text the query, exclude and language filters read. */
  function Body(a: Object): string
  {
    Trim(Show(Title(a)) + "\n\n" + Show(Description(a)))
  }

  /** `a.get('published') or a.get('publishedAt') or a.get('date')`. */
  function DateValue(a: Object): (v: Value)
    ensures Truthy(Get(a, "published")) ==> v == Get(a, "published")
    ensures !Truthy(Get(a, "published")) && Truthy(Get(a, "publishedAt")) ==> v == Get(a, "publishedAt")
    ensures !Truthy(Get(a, "published")) && !Truthy(Get(a, "publishedAt")) ==> v == Get(a, "date")
  {
    Or(Or(Get(a, "published"), Get(a, "publishedAt")), Get(a, "date"))
  }

  /** `a.get('url') or a.get('link') or ''`. */
  function Url(a: Object): (v: Value)
    ensures Truthy(Get(a, "url")) ==> v == Get(a, "url")
    ensures !Truthy(Get(a, "url")) && Truthy(Get(a, "link")) ==> v == Get(a, "link")
    ensures !Truthy(Get(a, "url")) && !Truthy(Get(a, "link")) ==> v == Str("")
  {
    Or(Or(Get(a, "url"), Get(a, "link")), Str(""))
  }

  /** The record appended for a snapshot item that passed every filter. */
  function Record(a: Object, dt: Instant, lang: string, cc: string): Object
  {
    map[
      "service" := Str("linkedin"),
      "id" := Get(a, "id"),
      "title" := Title(a),
      "description" := Description(a),
      "url" := Url(a),
      "date" := Str(IsoFormat(dt)),
      "langue" := Str(lang),
      "country" := Str(cc)
    ]
  }

  /**
   * One iteration of the loop, guard by guard in the order of the source: the date (skipped
   * when isoparse fails), the window, the query, the exclude terms, the language, then the
   * country lookup (which raises on a non-string URL) and the country filter.
   */
  function Step(a: Object, c: Criteria, o: Oracles): Result<Option<Object>, string>
  {
    match ParseStamp(DateValue(a), o)
    case None => Success(None)
    case Some(dt) =>
      if !InWindow(dt.date, c.window) then Success(None)
      else if !MatchQuery(c.q, Lower(Body(a))) then Success(None)
      else if AnyTermIn(c.ex, Lower(Body(a))) then Success(None)
      else
        var lang := LanguageOf(Body(a), o);
        if !Accepts(c.lang, lang) then Success(None)
        else match CountryOf(Url(a), o)
          case Failure(e) => Failure(e)
          case Success(cc) =>
            if !Accepts(c.country, cc) then Success(None)
            else Success(Some(Record(a, dt, lang, cc)))
  }

  function Steps(c: Criteria, o: Oracles): Object -> Result<Option<Object>, string>
  {
    a => Step(a, c, o)
  }

  /** The filters as one condition: what an item must satisfy to be kept. */
  predicate Selected(a: Object, c: Criteria, o: Oracles)
  {
    var dt := ParseStamp(DateValue(a), o);
    var cc := CountryOf(Url(a), o);
    dt.Some? && InWindow(dt.value.date, c.window)
    && MatchQuery(c.q, Lower(Body(a))) && !AnyTermIn(c.ex, Lower(Body(a)))
    && Accepts(c.lang, LanguageOf(Body(a), o))
    && cc.Success? && Accepts(c.country, cc.value)
  }

  /** The record of a selected item. */
  function Emitted(a: Object, c: Criteria, o: Oracles): Object
    requires Selected(a, c, o)
  {
    Record(a, ParseStamp(DateValue(a), o).value, LanguageOf(Body(a), o), CountryOf(Url(a), o).value)
  }

  /**
   * The loop body keeps exactly the selected items, with their records; it raises only when an
   * item passed the date, text and language filters and its URL is a non-string value.
   */
  lemma StepSpec(a: Object, c: Criteria, o: Oracles)
    ensures Step(a, c, o).Success? && Step(a, c, o).value.Some? <==> Selected(a, c, o)
    ensures Selected(a, c, o) ==> Step(a, c, o) == Success(Some(Emitted(a, c, o)))
    ensures Step(a, c, o).Failure? <==>
      ParseStamp(DateValue(a), o).Some? && InWindow(ParseStamp(DateValue(a), o).value.date, c.window)
      && MatchQuery(c.q, Lower(Body(a))) && !AnyTermIn(c.ex, Lower(Body(a)))
      && Accepts(c.lang, LanguageOf(Body(a), o)) && Truthy(Url(a)) && !Url(a).Str?
  {
  }

  /** Every emitted record is the record of a selected item, and there are no more records than items. */
  lemma FilterSound(items: seq<Object>, c: Criteria, o: Oracles, out: seq<Object>)
    requires Gather(items, Steps(c, o)) == Success(out)
    ensures |out| <= |items|
    ensures forall j :: 0 <= j < |out| ==>
      exists i :: 0 <= i < |items| && Selected(items[i], c, o) && out[j] == Emitted(items[i], c, o)
  {
    GatherShorter(items, Steps(c, o), out);
    forall j | 0 <= j < |out|
      ensures exists i :: 0 <= i < |items| && Selected(items[i], c, o) && out[j] == Emitted(items[i], c, o)
    {
      var i := GatherSource(items, Steps(c, o), out, j);
      KeptIsSelected(items[i], c, o, out[j]);
    }
  }

  lemma KeptIsSelected(a: Object, c: Criteria, o: Oracles, u: Object)
    requires Step(a, c, o) == Success(Some(u))
    ensures Selected(a, c, o) && u == Emitted(a, c, o)
  {
    StepSpec(a, c, o);
  }

  /** Every selected item is emitted. */
  lemma FilterComplete(items: seq<Object>, c: Criteria, o: Oracles, out: seq<Object>)
    requires Gather(items, Steps(c, o)) == Success(out)
    ensures forall i :: 0 <= i < |items| && Selected(items[i], c, o) ==> Emitted(items[i], c, o) in out
  {
    forall i | 0 <= i < |items| && Selected(items[i], c, o)
      ensures Emitted(items[i], c, o) in out
    {
      StepSpec(items[i], c, o);
      GatherKeeps(items, Steps(c, o), out, i);
    }
  }

  /** Every emitted record is tagged `linkedin` and carries the item's date inside the window. */
  lemma EmittedFields(a: Object, c: Criteria, o: Oracles)
    requires Selected(a, c, o)
    ensures var r := Emitted(a, c, o);
      r["service"] == Str("linkedin") && r["url"] == Url(a) && r["description"] == Description(a)
      && r["date"].Str? && r["date"].s[..10] == DateIso(ParseStamp(DateValue(a), o).value.date)
      && (c.lang != "" ==> r["langue"] == Str(c.lang))
      && (c.country != "" ==> r["country"] == Str(c.country))
  {
    var dt := ParseStamp(DateValue(a), o).value;
    var lang, cc := LanguageOf(Body(a), o), CountryOf(Url(a), o).value;
    assert Emitted(a, c, o) == Record(a, dt, lang, cc);
    RecordFields(a, dt, lang, cc);
  }

  lemma RecordFields(a: Object, dt: Instant, lang: string, cc: string)
    ensures var r := Record(a, dt, lang, cc);
      r["service"] == Str("linkedin") && r["url"] == Url(a) && r["description"] == Description(a)
      && r["date"].Str? && r["date"].s[..10] == DateIso(dt.date)
      && r["langue"] == Str(lang) && r["country"] == Str(cc)
  {
  }

  /** The criteria of `/articles`: the query, language and country lower-cased, the exclude list split. */
  function CriteriaOf(args: Args, w: Window): (c: Criteria)
    ensures c.ex == ExcludeTerms(args.exclude) && c.window == w
  {
    Criteria(Lower(args.q), ExcludeTerms(args.exclude), Lower(args.lang), Lower(args.country), w)
  }

  /** How many posts are searched for when `n` is absent. */
  const DefaultCount := 1000

  /**
   * What `/articles` answers for the items it read: an error when `n` is no integer, when a date
   * argument raises, or when an item raises.
   */
  function ArticlesOf(args: Args, today: Date, items: seq<Object>, o: Oracles): Result<seq<Object>, string>
  {
    match CountArg(args.n, DefaultCount)
    case Failure(e) => Failure(e)
    case Success(_) =>
      match ResolveWindow(args.start, args.end, today, o.isoparse)
      case Failure(e) => Failure(e)
      case Success(w) => Gather(items, Steps(CriteriaOf(args, w), o))
  }

  /** `int(n)` is read before the dates: an `n` that is no integer fails the request whatever the window. */
  lemma BadCountFails(args: Args, today: Date, items: seq<Object>, o: Oracles, c: char)
    requires args.n.Some? && c in args.n.value
    requires !IsDigit(c) && !IsSpace(c) && c != '+' && c != '-' && c != '_'
    ensures ArticlesOf(args, today, items, o) == Failure(NotAnInt)
  {
    CountArgRejects(args.n.value, c, DefaultCount);
  }

  // ---------------------------------------------------------------------------------------------
  // The snapshot store
  // ---------------------------------------------------------------------------------------------

  /**
   * The `data/` directory: one JSON list per snapshot path. `fold` is the Unicode folding
   * `slugify` applies before lower-casing.
   */
  class SnapshotStore {
    var files: map<string, seq<Object>>
    const fold: string -> string

    constructor(fold: string -> string)
      ensures files == map[] && this.fold == fold
    {
      files := map[];
      this.fold := fold;
    }

    function PathOf(query: string): string
    {
      SnapshotKey(query, fold)
    }

    /** The list `_load` reads: the file's contents, or `[]` when the file does not exist. */
    function Stored(query: string): (r: seq<Object>)
      reads this
      ensures PathOf(query) !in files ==> r == []
    {
      if PathOf(query) in files then files[PathOf(query)] else []
    }

    /** `_load(query)`. */
    method Load(query: string) returns (items: seq<Object>)
      ensures items == Stored(query)
    {
      var path := PathOf(query);
      if path !in files {
        return [];
      }
      items := files[path];
    }

    /** `_save(query, articles)`: the snapshot is overwritten, every other file is left alone. */
    method Save(query: string, items: seq<Object>)
      modifies this
      ensures files == old(files)[PathOf(query) := items]
    {
      files := files[PathOf(query) := items];
    }

    /**
     * `/collect`: reads `n`, then always searches (`search` stands for the paginated search of the
     * lower-cased query for that many posts), overwrites the snapshot, and reports how many records
     * it saved. When `int(n)` or `search_posts` raises, the request fails and nothing is saved.
     */
    method Collect(qArg: string, nArg: Option<string>, search: (string, int) -> seq<Object>, now: Instant,
                   parse: string -> Option<DateTime>)
      returns (r: Result<nat, string>)
      requires ParserValid(parse)
      modifies this
      ensures CountArg(nArg, DefaultCount).Failure? ==> r == Failure(CountArg(nArg, DefaultCount).error) && files == old(files)
      ensures CountArg(nArg, DefaultCount).Success? ==>
        var found := SearchAsWritten(search(Lower(qArg), CountArg(nArg, DefaultCount).value), now, parse);
        (found.Failure? ==> r == Failure(found.error) && files == old(files))
        && (found.Success? ==>
              files == old(files)[PathOf(Lower(qArg)) := found.value]
              && r == Success(|Stored(Lower(qArg))|)
              && r.value == |FirstByLink(search(Lower(qArg), CountArg(nArg, DefaultCount).value))|)
    {
      var q := Lower(qArg);
      var count := CountArg(nArg, DefaultCount);
      if count.Failure? {
        return Failure(count.error);
      }
      var out := SearchPosts(search(q, count.value), now, parse);
      if out.Failure? {
        return Failure(out.error);
      }
      SearchAsWrittenSpec(search(q, count.value), now, parse);
      Save(q, out.value);
      r := Success(|out.value|);
    }

    /**
     * `/articles`: `n` and the window are read first (a bad argument raises before anything else);
     * then the snapshot is loaded, and searched and saved only when it is empty; then the filter
     * loop runs over it. `fetched` tells whether the search ran; when it raises, the request
     * fails and nothing is saved.
     */
    method Articles(args: Args, search: (string, int) -> seq<Object>, now: Instant, today: Date,
                    parse: string -> Option<DateTime>, o: Oracles)
      returns (r: Result<seq<Object>, string>, fetched: bool)
      requires ParserValid(parse)
      modifies this
      ensures fetched <==> (CountArg(args.n, DefaultCount).Success?
                            && ResolveWindow(args.start, args.end, today, o.isoparse).Success?
                            && old(Stored(Lower(args.q))) == [])
      ensures !fetched ==> files == old(files) && r == ArticlesOf(args, today, Stored(Lower(args.q)), o)
      ensures fetched ==>
        var found := SearchAsWritten(search(Lower(args.q), CountArg(args.n, DefaultCount).value), now, parse);
        (found.Failure? ==> files == old(files) && r == Failure(found.error))
        && (found.Success? ==>
              files == old(files)[PathOf(Lower(args.q)) := found.value]
              && r == ArticlesOf(args, today, Stored(Lower(args.q)), o))
    {
      fetched := false;
      var q := Lower(args.q);
      var count := CountArg(args.n, DefaultCount);
      if count.Failure? {
        return Failure(count.error), false;
      }
      var window := ResolveWindow(args.start, args.end, today, o.isoparse);
      if window.Failure? {
        return Failure(window.error), false;
      }
      var items := Load(q);
      if items == [] {
        fetched := true;
        var found := SearchPosts(search(q, count.value), now, parse);
        if found.Failure? {
          return Failure(found.error), true;
        }
        items := found.value;
        Save(q, items);
      }
      r := FilterLoop(items, Steps(CriteriaOf(args, window.value), o));
    }
  }
}
