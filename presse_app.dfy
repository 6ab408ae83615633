/**
 * The press service (presse_service/app.py): `/collect` runs one site's extractor, and
 * `/articles` runs every requested extractor in turn, keeps the articles whose title and
 * description contain the query literally and none of the exclude terms, and tags each kept
 * article with the name of the service it came from.
 */
module PresseApp {
  import opened Wrappers
  import opened Text
  import opened Values
  import opened Filters
  import opened Extractors

  /** What calling an extractor can raise: an ImportError, which the handler skips, or anything else, which escapes. */
  datatype Raised = ImportError | Error(msg: string)

  /** `f"{a.get('title','')} {a.get('description','')}".lower()`. */
  function TitleDesc(a: Object): string
  {
    Lower(Show(GetOr(a, "title", Str(""))) + " " + Show(GetOr(a, "description", Str(""))))
  }

  /** The two filters: the query as a literal substring (no comma or phrase handling), and no exclude term. */
  predicate Wanted(a: Object, q: string, ex: seq<string>)
  {
    (q == "" || Contains(TitleDesc(a), q)) && !AnyTermIn(ex, TitleDesc(a))
  }

  /** `a["service"] = svc`: the article with its `service` field set, every other field kept. */
  function Tag(a: Object, svc: string): (r: Object)
    ensures r.Keys == a.Keys + {"service"} && r["service"] == Str(svc)
    ensures forall k :: k in a && k != "service" ==> r[k] == a[k]
  {
    a["service" := Str(svc)]
  }

  /** The inner loop over one extractor's articles: the wanted ones, tagged, in order. */
  function Picked(items: seq<Object>, q: string, ex: seq<string>, svc: string): (r: seq<Object>)
    ensures |r| <= |items|
  {
    if items == [] then []
    else
      var a := items[|items| - 1];
      Picked(items[..|items| - 1], q, ex, svc) + (if Wanted(a, q, ex) then [Tag(a, svc)] else [])
  }

  /** `[service] if service else list_extractors()`. */
  function Targets(service: Option<string>): (r: seq<string>)
    ensures service.Some? && service.value != "" ==> r == [service.value]
    ensures service.None? || service.value == "" ==> r == ListExtractors()
  {
    if service.Some? && service.value != "" then [service.value] else ListExtractors()
  }

  /**
   * The outer loop as a function: a target whose extractor cannot be imported, or whose call
   * raises ImportError, adds nothing; any other exception ends the handler with an error; an
   * extractor that returns contributes its picked articles.
   */
  function Gathered(targets: seq<string>, q: string, ex: seq<string>, importable: Site -> bool,
                    run: Site -> Result<seq<Object>, Raised>): Result<seq<Object>, string>
  {
    if targets == [] then Success([])
    else
      var svc := targets[|targets| - 1];
      match Gathered(targets[..|targets| - 1], q, ex, importable, run)
      case Failure(m) => Failure(m)
      case Success(acc) =>
        match GetExtractor(svc, importable)
        case None => Success(acc)
        case Some(site) =>
          match run(site)
          case Failure(ImportError) => Success(acc)
          case Failure(Error(m)) => Failure(m)
          case Success(items) => Success(acc + Picked(items, q, ex, svc))
  }

  /** A target whose extractor raises something other than ImportError. */
  predicate Raises(svc: string, importable: Site -> bool, run: Site -> Result<seq<Object>, Raised>)
  {
    var site := GetExtractor(svc, importable);
    site.Some? && run(site.value).Failure? && run(site.value).error.Error?
  }

  /** Once a prefix of the targets has failed, the whole loop has failed the same way. */
  lemma {:induction false} GatheredFailureSticks(targets: seq<string>, q: string, ex: seq<string>, importable: Site -> bool,
                                                 run: Site -> Result<seq<Object>, Raised>, k: nat)
    requires k <= |targets|
    requires Gathered(targets[..k], q, ex, importable, run).Failure?
    ensures Gathered(targets, q, ex, importable, run) == Gathered(targets[..k], q, ex, importable, run)
    decreases |targets| - k
  {
    if k < |targets| {
      var next := targets[..k + 1];
      assert next[..k] == targets[..k];
      GatheredFailureSticks(targets, q, ex, importable, run, k + 1);
    } else {
      assert targets[..k] == targets;
    }
  }

  /** The handler fails exactly when one of its targets raises something other than ImportError. */
  lemma {:induction false} GatheredFailsIff(targets: seq<string>, q: string, ex: seq<string>, importable: Site -> bool,
                                            run: Site -> Result<seq<Object>, Raised>)
    ensures Gathered(targets, q, ex, importable, run).Failure? <==>
      exists k :: 0 <= k < |targets| && Raises(targets[k], importable, run)
  {
    if targets != [] {
      GatheredFailsIff(targets[..|targets| - 1], q, ex, importable, run);
      GatheredFailsStep(targets, q, ex, importable, run);
      RaisesSnoc(targets, targets[..|targets| - 1], importable, run);
    }
  }

  /** One more target fails the loop exactly when the loop had failed or that target raises. */
  lemma GatheredFailsStep(targets: seq<string>, q: string, ex: seq<string>, importable: Site -> bool,
                          run: Site -> Result<seq<Object>, Raised>)
    requires targets != []
    ensures Gathered(targets, q, ex, importable, run).Failure? <==>
      Gathered(targets[..|targets| - 1], q, ex, importable, run).Failure? || Raises(targets[|targets| - 1], importable, run)
  {
  }

  lemma RaisesSnoc(targets: seq<string>, init: seq<string>, importable: Site -> bool, run: Site -> Result<seq<Object>, Raised>)
    requires targets != [] && init == targets[..|targets| - 1]
    ensures (exists k :: 0 <= k < |targets| && Raises(targets[k], importable, run)) <==>
      (exists k :: 0 <= k < |init| && Raises(init[k], importable, run)) || Raises(targets[|targets| - 1], importable, run)
  {
    if exists k :: 0 <= k < |init| && Raises(init[k], importable, run) {
      var k :| 0 <= k < |init| && Raises(init[k], importable, run);
      assert targets[k] == init[k];
    }
    if exists k :: 0 <= k < |targets| && Raises(targets[k], importable, run) {
      var k :| 0 <= k < |targets| && Raises(targets[k], importable, run);
      if k < |init| {
        assert init[k] == targets[k];
      }
    }
  }

  /** Every article the inner loop emits is a wanted article of the extractor, tagged with the service name. */
  lemma {:induction false} PickedSound(items: seq<Object>, q: string, ex: seq<string>, svc: string, x: Object)
    requires x in Picked(items, q, ex, svc)
    ensures exists a :: a in items && Wanted(a, q, ex) && x == Tag(a, svc)
  {
    if items != [] {
      var init, a := items[..|items| - 1], items[|items| - 1];
      if x in Picked(init, q, ex, svc) {
        PickedSound(init, q, ex, svc, x);
        var b :| b in init && Wanted(b, q, ex) && x == Tag(b, svc);
        assert b in items;
      } else {
        assert a in items && Wanted(a, q, ex) && x == Tag(a, svc);
      }
    }
  }

  /** Every wanted article of the extractor is emitted, tagged. */
  lemma {:induction false} PickedComplete(items: seq<Object>, q: string, ex: seq<string>, svc: string, a: Object)
    requires a in items && Wanted(a, q, ex)
    ensures Tag(a, svc) in Picked(items, q, ex, svc)
  {
    var init, last := items[..|items| - 1], items[|items| - 1];
    if a != last {
      assert items == init + [last];
      assert a in init;
      PickedComplete(init, q, ex, svc, a);
    }
  }

  /**
   * Every article in the answer comes from one of the targets: a wanted article returned by
   * that target's extractor, tagged with the target's name.
   */
  lemma {:induction false} GatheredSound(targets: seq<string>, q: string, ex: seq<string>, importable: Site -> bool,
                                         run: Site -> Result<seq<Object>, Raised>, out: seq<Object>, x: Object)
    requires Gathered(targets, q, ex, importable, run) == Success(out) && x in out
    ensures exists k, a :: (0 <= k < |targets| && GetExtractor(targets[k], importable).Some?
      && run(GetExtractor(targets[k], importable).value).Success?
      && a in run(GetExtractor(targets[k], importable).value).value
      && Wanted(a, q, ex) && x == Tag(a, targets[k]))
  {
    var init, svc := targets[..|targets| - 1], targets[|targets| - 1];
    var acc := Gathered(init, q, ex, importable, run).value;
    if x in acc {
      GatheredSound(init, q, ex, importable, run, acc, x);
      var k, a :| 0 <= k < |init| && GetExtractor(init[k], importable).Some?
        && run(GetExtractor(init[k], importable).value).Success?
        && a in run(GetExtractor(init[k], importable).value).value
        && Wanted(a, q, ex) && x == Tag(a, init[k]);
      assert init[k] == targets[k];
    } else {
      var site := GetExtractor(svc, importable).value;
      var items := run(site).value;
      assert x in Picked(items, q, ex, svc);
      PickedSound(items, q, ex, svc, x);
      var a :| a in items && Wanted(a, q, ex) && x == Tag(a, svc);
      assert targets[|targets| - 1] == svc;
    }
  }

  /** Every wanted article of every target whose extractor returned is in the answer, tagged with the target's name. */
  lemma {:induction false} GatheredComplete(targets: seq<string>, q: string, ex: seq<string>, importable: Site -> bool,
                                            run: Site -> Result<seq<Object>, Raised>, out: seq<Object>, k: int, a: Object)
    requires Gathered(targets, q, ex, importable, run) == Success(out)
    requires 0 <= k < |targets| && GetExtractor(targets[k], importable).Some?
    requires run(GetExtractor(targets[k], importable).value).Success?
    requires a in run(GetExtractor(targets[k], importable).value).value && Wanted(a, q, ex)
    ensures Tag(a, targets[k]) in out
  {
    var init, svc := targets[..|targets| - 1], targets[|targets| - 1];
    var acc := Gathered(init, q, ex, importable, run).value;
    if k < |init| {
      assert init[k] == targets[k];
      GatheredComplete(init, q, ex, importable, run, acc, k, a);
    } else {
      PickedComplete(run(GetExtractor(svc, importable).value).value, q, ex, svc, a);
    }
  }

  /** A requested service the registry does not know yields an empty answer, not an error. */
  lemma UnknownServiceEmpty(service: string, q: string, ex: seq<string>, importable: Site -> bool,
                            run: Site -> Result<seq<Object>, Raised>)
    requires service != "" && service !in ListExtractors()
    ensures Gathered(Targets(Some(service)), q, ex, importable, run) == Success([])
  {
    assert [service][..0] == [];
  }

  /** What `/articles` answers for the `service`, `q` and `exclude` arguments. */
  function ArticlesOf(service: Option<string>, qArg: string, exclude: string, importable: Site -> bool,
                      run: Site -> Result<seq<Object>, Raised>): Result<seq<Object>, string>
  {
    Gathered(Targets(service), Lower(qArg), ExcludeTerms(exclude), importable, run)
  }

  /**
   * `/articles`: the two loops. `run` stands for calling an extractor module (which scrapes its
   * site); `importable` says which modules import.
   */
  method Articles(service: Option<string>, qArg: string, exclude: string, importable: Site -> bool,
                  run: Site -> Result<seq<Object>, Raised>) returns (r: Result<seq<Object>, string>)
    ensures r == ArticlesOf(service, qArg, exclude, importable, run)
  {
    var q := Lower(qArg);
    var ex := ExcludeTerms(exclude);
    var targets := Targets(service);
    var results: seq<Object> := [];
    for k := 0 to |targets|
      invariant Gathered(targets[..k], q, ex, importable, run) == Success(results)
    {
      var svc := targets[k];
      assert targets[..k + 1][..k] == targets[..k];
      var site := GetExtractor(svc, importable);
      if site.None? {
        continue;
      }
      var called := run(site.value);
      match called {
        case Failure(ImportError) =>
        case Failure(Error(m)) =>
          GatheredFailureSticks(targets, q, ex, importable, run, k + 1);
          assert targets[..|targets|] == targets;
          return Failure(m);
        case Success(items) =>
          var picked := PickLoop(items, q, ex, svc);
          results := results + picked;
      }
    }
    assert targets[..|targets|] == targets;
    return Success(results);
  }

  /** The inner loop: `title_desc`, the two `continue`s, the tag and the append. */
  method PickLoop(items: seq<Object>, q: string, ex: seq<string>, svc: string) returns (picked: seq<Object>)
    ensures picked == Picked(items, q, ex, svc)
  {
    picked := [];
    for i := 0 to |items|
      invariant picked == Picked(items[..i], q, ex, svc)
    {
      assert items[..i + 1][..i] == items[..i];
      var a := items[i];
      var td := TitleDesc(a);
      if q != "" && !Contains(td, q) {
        continue;
      }
      if AnyTermIn(ex, td) {
        continue;
      }
      a := a["service" := Str(svc)];
      picked := picked + [a];
    }
    assert items[..|items|] == items;
  }

  /** The answers of `/collect`: a 400 with its message, or the number of articles saved. */
  datatype Reply = BadRequest(error: string) | Saved(count: nat)

  /**
   * `/collect?site=…`: a missing or empty site and a site `get_extractor` rejects are 400s; an
   * exception of the extractor escapes; otherwise the number of articles it returned.
   */
  function Collect(site: Option<string>, importable: Site -> bool, run: Site -> Result<seq<Object>, Raised>): (r: Result<Reply, string>)
    ensures (r.Success? && r.value.BadRequest?) <==>
      site.None? || site.value == "" || GetExtractor(site.value, importable).None?
    ensures r.Success? && r.value.Saved? ==>
      run(GetExtractor(site.value, importable).value).Success?
      && r.value.count == |run(GetExtractor(site.value, importable).value).value|
  {
    if site.None? || site.value == "" then Success(BadRequest("Missing `site` parameter"))
    else match GetExtractor(site.value, importable)
      case None => Success(BadRequest("Unknown site '" + site.value + "'"))
      case Some(s) =>
        match run(s)
        case Failure(ImportError) => Failure("ImportError")
        case Failure(Error(m)) => Failure(m)
        case Success(items) => Success(Saved(|items|))
  }

  /** Every listed site is collectable when every module imports: `/collect` never answers 400 for it. */
  lemma ListedSitesCollect(site: string, importable: Site -> bool, run: Site -> Result<seq<Object>, Raised>)
    requires forall s :: importable(s)
    requires site in ListExtractors()
    ensures !(Collect(Some(site), importable, run).Success? && Collect(Some(site), importable, run).value.BadRequest?)
  {
    ListingAgrees(site, importable);
  }
}
