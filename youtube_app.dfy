/**
 * The YouTube service's `/articles` handler (youtube_service/app.py): the fetched videos are
 * filtered by the query and the exclude terms on their title alone, with no date, language or
 * country filter, and mapped to records.
 */
module YoutubeApp {
  import opened Wrappers
  import opened Text
  import opened Values
  import opened Search
  import opened Filters

  /**
   * `q and not match_query(q, title)` negated: a blank query keeps everything; otherwise a
   * falsy title reads as `""`, a string title is matched, and any other title makes
   * `.lower()` raise.
   */
  function Included(q: string, title: Value): (r: Result<bool, string>)
    ensures Lower(Trim(q)) == "" ==> r == Success(true)
    ensures r.Failure? <==> Lower(Trim(q)) != "" && Truthy(title) && !title.Str?
    ensures title.Str? ==> r == Success(MatchQuery(q, title.s))
  {
    if Lower(Trim(q)) == "" then Success(true)
    else if !Truthy(title) then Success(MatchQuery(q, ""))
    else match title
      case Str(s) => Success(MatchQuery(q, s))
      case _ => Failure("AttributeError: title has no attribute 'lower'")
  }

  /** `ex and any(w in title.lower() for w in ex)`: only a non-empty list reads the title. */
  function Excluded(ex: seq<string>, title: Value): (r: Result<bool, string>)
    ensures ex == [] ==> r == Success(false)
    ensures r.Failure? <==> ex != [] && !title.Str?
    ensures r.Success? && r.value ==> title.Str? && AnyTermIn(ex, Lower(title.s))
  {
    if ex == [] then Success(false)
    else match title
      case Str(s) => Success(AnyTermIn(ex, Lower(s)))
      case _ => Failure("AttributeError: title has no attribute 'lower'")
  }

  const WatchPrefix: string := "https://www.youtube.com/watch?v="

  /** The record of a video whose `title`, `videoId` and `publishedAt` keys exist. */
  function Record(v: Object): Object
    requires "title" in v && "videoId" in v && "publishedAt" in v
  {
    map[
      "service" := Str("youtube"),
      "id" := v["videoId"],
      "title" := v["title"],
      "date" := v["publishedAt"],
      "texte" := v["title"],
      "auteur" := GetOr(v, "channelTitle", Str("")),
      "url" := Str(WatchPrefix + Show(v["videoId"]))
    ]
  }

  /**
   * One iteration, in the order of the source: `v["title"]` (a missing key raises), the query,
   * the exclude terms, then the record, whose `v["videoId"]` and `v["publishedAt"]` raise when
   * missing.
   */
  function Step(v: Object, q: string, ex: seq<string>): Result<Option<Object>, string>
  {
    if "title" !in v then Failure("KeyError: 'title'")
    else match Included(q, v["title"])
      case Failure(e) => Failure(e)
      case Success(keep) =>
        if !keep then Success(None)
        else match Excluded(ex, v["title"])
          case Failure(e) => Failure(e)
          case Success(drop) =>
            if drop then Success(None)
            else if "videoId" !in v then Failure("KeyError: 'videoId'")
            else if "publishedAt" !in v then Failure("KeyError: 'publishedAt'")
            else Success(Some(Record(v)))
  }

  function Steps(q: string, ex: seq<string>): Object -> Result<Option<Object>, string>
  {
    v => Step(v, q, ex)
  }

  /** The filters as one condition (the three keys present, the title included and not excluded). */
  predicate Selected(v: Object, q: string, ex: seq<string>)
  {
    "title" in v && "videoId" in v && "publishedAt" in v
    && Included(q, v["title"]) == Success(true) && Excluded(ex, v["title"]) == Success(false)
  }

  /** The loop body keeps exactly the selected videos, with their records. */
  lemma StepSpec(v: Object, q: string, ex: seq<string>)
    ensures Step(v, q, ex).Success? && Step(v, q, ex).value.Some? <==> Selected(v, q, ex)
    ensures Selected(v, q, ex) ==> Step(v, q, ex) == Success(Some(Record(v)))
  {
  }

  /** A video without a `title` key stops the handler, whatever the query. */
  lemma MissingTitleRaises(v: Object, q: string, ex: seq<string>)
    requires "title" !in v
    ensures Step(v, q, ex) == Failure("KeyError: 'title'")
  {
  }

  lemma KeptIsSelected(v: Object, q: string, ex: seq<string>, u: Object)
    requires Step(v, q, ex) == Success(Some(u))
    ensures RecordOfSelected(v, q, ex, u)
  {
    StepSpec(v, q, ex);
  }

  /** `u` is the record of the selected video `v`. */
  predicate RecordOfSelected(v: Object, q: string, ex: seq<string>, u: Object)
  {
    Selected(v, q, ex) && u == Record(v)
  }

  /** Every emitted record is the record of a selected video, and there are no more records than videos. */
  lemma FilterSound(videos: seq<Object>, q: string, ex: seq<string>, out: seq<Object>)
    requires Gather(videos, Steps(q, ex)) == Success(out)
    ensures |out| <= |videos|
    ensures forall j :: 0 <= j < |out| ==>
      exists i :: 0 <= i < |videos| && RecordOfSelected(videos[i], q, ex, out[j])
  {
    GatherShorter(videos, Steps(q, ex), out);
    forall j | 0 <= j < |out|
      ensures exists i :: 0 <= i < |videos| && RecordOfSelected(videos[i], q, ex, out[j])
    {
      var i := GatherSource(videos, Steps(q, ex), out, j);
      KeptIsSelected(videos[i], q, ex, out[j]);
    }
  }

  /** Every selected video is emitted. */
  lemma FilterComplete(videos: seq<Object>, q: string, ex: seq<string>, out: seq<Object>)
    requires Gather(videos, Steps(q, ex)) == Success(out)
    ensures forall i :: 0 <= i < |videos| && Selected(videos[i], q, ex) ==> Record(videos[i]) in out
  {
    forall i | 0 <= i < |videos| && Selected(videos[i], q, ex)
      ensures Record(videos[i]) in out
    {
      StepSpec(videos[i], q, ex);
      GatherKeeps(videos, Steps(q, ex), out, i);
    }
  }

  predicate Complete(v: Object) { "title" in v && "videoId" in v && "publishedAt" in v }

  /** The record of every video, in order. */
  function Records(videos: seq<Object>): (r: seq<Object>)
    requires forall i :: 0 <= i < |videos| ==> Complete(videos[i])
    ensures |r| == |videos|
  {
    if videos == [] then []
    else
      assert Complete(videos[|videos| - 1]);
      Records(videos[..|videos| - 1]) + [Record(videos[|videos| - 1])]
  }

  /**
   * With no query and no exclude terms nothing is filtered: every video (each with its three
   * keys) gives its record, in order; there is no date, language or country filter.
   */
  lemma {:induction false} NoFilterKeepsAll(videos: seq<Object>)
    requires forall i :: 0 <= i < |videos| ==> Complete(videos[i])
    ensures Gather(videos, Steps("", [])) == Success(Records(videos))
    decreases |videos|
  {
    if videos != [] {
      var init := videos[..|videos| - 1];
      forall i | 0 <= i < |init| ensures Complete(init[i]) { assert init[i] == videos[i]; }
      NoFilterKeepsAll(init);
      assert Lower(Trim("")) == "";
      var last := videos[|videos| - 1];
      assert Steps("", [])(last) == Success(Some(Record(last)));
    }
  }

  /** An emitted record is tagged `youtube`, has `texte` equal to the title, and a watch URL. */
  lemma RecordFields(v: Object)
    requires Complete(v)
    ensures var r := Record(v);
      r["service"] == Str("youtube") && r["id"] == v["videoId"] && r["texte"] == v["title"]
      && r["url"] == Str(WatchPrefix + Show(v["videoId"]))
      && ("channelTitle" !in v ==> r["auteur"] == Str(""))
  {
  }

  /** How many videos are fetched when `n` is absent. */
  const DefaultCount := 1000

  /** What `/articles` answers: an error when `n` is no integer or when a video raises. */
  function ArticlesOf(q: string, exclude: string, n: Option<string>, fetch: (string, int) -> seq<Object>): Result<seq<Object>, string>
  {
    match CountArg(n, DefaultCount)
    case Failure(err) => Failure(err)
    case Success(count) => Gather(fetch(q, count), Steps(q, ExcludeTerms(exclude)))
  }

  /** An `n` that is no integer fails the request before any video is fetched. */
  lemma BadCountFails(q: string, exclude: string, n: string, fetch: (string, int) -> seq<Object>, c: char)
    requires c in n && !IsDigit(c) && !IsSpace(c) && c != '+' && c != '-' && c != '_'
    ensures ArticlesOf(q, exclude, Some(n), fetch) == Failure(NotAnInt)
  {
    CountArgRejects(n, c, DefaultCount);
  }

  /**
   * `/articles`: `n` is read, the videos are fetched for the query and count (`fetch` stands for
   * the YouTube client), then the filter loop runs.
   */
  method Articles(q: string, exclude: string, n: Option<string>, fetch: (string, int) -> seq<Object>) returns (r: Result<seq<Object>, string>)
    ensures r == ArticlesOf(q, exclude, n, fetch)
  {
    var count := CountArg(n, DefaultCount);
    if count.Failure? {
      return Failure(count.error);
    }
    var videos := fetch(q, count.value);
    r := FilterLoop(videos, Steps(q, ExcludeTerms(exclude)));
  }
}
