/**
 * The root component of the frontend: the query string each micro-service is asked with, the
 * `service` tag put on what it returns, the statistics sent with the report request, and the
 * client-side filter on date, language and country.
 *
 * An article is the map of its string fields; a missing key is JavaScript's `undefined`, and a
 * field is truthy when it is present and not empty. What JavaScript's built-ins compute on dates
 * and URLs is passed in as a function: `new URL(u).host` as `host` (`None` when the constructor
 * throws), `new Date(d).toISOString().slice(0, 10)` as `day` (`None` for an invalid date, where
 * `toISOString` throws), `new Date(d)` as `time` (`None` for an invalid date, whose time value is
 * NaN).
 */
module App {
  import opened Wrappers
  import opened Text
  import opened Counting

  type Article = map<string, string>

  /** `a.f || ""`. */
  function Field(a: Article, f: string): (r: string)
    ensures r == "" <==> f !in a || a[f] == ""
    ensures r != "" ==> r == a[f]
  {
    if f in a then a[f] else ""
  }

  /** The search form's state. */
  datatype Search = Search(query: string, exclude: string, country: string, lang: string, start: string, end: string)

  // ---------------------------------------------------------------------------------------------
  // Query string
  // ---------------------------------------------------------------------------------------------

  /** The services asked for up to a thousand results. */
  predicate WantsMany(svc: string)
  {
    svc in ["reddit", "twitter", "youtube"] || svc == "linkedin"
  }

  /** The names `buildParams` may append. */
  datatype Name = Q | Exclude | Country | Lang | Start | End | N

  /** The name as written in the query string. */
  function Wire(n: Name): string
  {
    match n
    case Q => "q"
    case Exclude => "exclude"
    case Country => "country"
    case Lang => "lang"
    case Start => "start"
    case End => "end"
    case N => "n"
  }

  /** Different names are written differently. */
  lemma WireInjective(m: Name, n: Name)
    requires m != n
    ensures Wire(m) != Wire(n)
  {
    assert Wire(m)[0] != Wire(n)[0] || |Wire(m)| != |Wire(n)|;
  }

  type Params = seq<(Name, string)>

  /** A parameter the form may send: whether it is sent, and its value. */
  datatype Cand = Cand(on: bool, value: string)

  /** A form field sent when not empty. */
  function Filled(v: string): Cand
  {
    Cand(v != "", v)
  }

  /** What one `if (...) p.append(k, v)` adds: the pair when the condition holds. */
  function When(c: Cand, k: Name): Params
  {
    if c.on then [(k, c.value)] else []
  }

  /** The parameters `buildParams` appends, in order. */
  function ParamsOf(s: Search, svc: string): Params
  {
    Build(Filled(Trim(s.query)), Filled(Trim(s.exclude)), Filled(s.country), Filled(s.lang),
          Filled(s.start), Filled(s.end), Cand(svc in ["reddit", "twitter", "youtube"], "1000"),
          Cand(svc == "linkedin", "1000"))
  }

  /** The eight appends, given what each may send. */
  function Build(q: Cand, x: Cand, country: Cand, lang: Cand, start: Cand, end: Cand, many: Cand, linkedin: Cand): Params
  {
    When(q, Q) + When(x, Exclude) + When(country, Country) + When(lang, Lang)
    + When(start, Start) + When(end, End) + When(many, N) + When(linkedin, N)
  }

  /** `if (c) p.append(k, v)`. */
  method AppendIf(p: Params, c: Cand, k: Name) returns (r: Params)
    ensures r == p + When(c, k)
  {
    r := p;
    if c.on {
      r := r + [(k, c.value)];
    }
  }

  /** `buildParams`: appends each parameter whose field is set. */
  method BuildParams(s: Search, svc: string) returns (p: Params)
    ensures p == ParamsOf(s, svc)
  {
    var q, x := Filled(Trim(s.query)), Filled(Trim(s.exclude));
    var country, lang, start, end := Filled(s.country), Filled(s.lang), Filled(s.start), Filled(s.end);
    var many, li := Cand(svc in ["reddit", "twitter", "youtube"], "1000"), Cand(svc == "linkedin", "1000");
    p := AppendIf([], q, Q);
    assert p == When(q, Q);
    p := AppendIf(p, x, Exclude);
    p := AppendIf(p, country, Country);
    p := AppendIf(p, lang, Lang);
    p := AppendIf(p, start, Start);
    p := AppendIf(p, end, End);
    p := AppendIf(p, many, N);
    p := AppendIf(p, li, N);
  }

  /** How many values `URLSearchParams.getAll(n)` returns: the pairs appended under `n`. */
  function Count(p: Params, n: Name): nat
  {
    if p == [] then 0 else (if p[0].0 == n then 1 else 0) + Count(p[1..], n)
  }

  lemma {:induction false} CountConcat(a: Params, b: Params, n: Name)
    ensures Count(a + b, n) == Count(a, n) + Count(b, n)
  {
    if a != [] {
      assert (a + b)[0] == a[0];
      assert (a + b)[1..] == a[1..] + b;
      CountConcat(a[1..], b, n);
    } else {
      assert a + b == b;
    }
  }

  /** A name appended once has one value: the one appended. */
  lemma {:induction false} OnlyValue(p: Params, n: Name, v: string, w: string)
    requires Count(p, n) == 1 && (n, v) in p && (n, w) in p
    ensures v == w
  {
    if p[0].0 == n {
      assert Count(p[1..], n) == 0;
      NoneLeft(p[1..], n, v);
      NoneLeft(p[1..], n, w);
    } else {
      assert (n, v) in p[1..] && (n, w) in p[1..];
      OnlyValue(p[1..], n, v, w);
    }
  }

  /** A name never appended has no value. */
  lemma {:induction false} NoneLeft(p: Params, n: Name, v: string)
    requires Count(p, n) == 0
    ensures (n, v) !in p
  {
    if p != [] {
      assert p == [p[0]] + p[1..];
      NoneLeft(p[1..], n, v);
    }
  }

  /** One when the parameter is sent under the name `n`. */
  function Hit(c: Cand, k: Name, n: Name): nat
  {
    if c.on && k == n then 1 else 0
  }

  lemma CountWhen(c: Cand, k: Name, n: Name)
    ensures Count(When(c, k), n) == Hit(c, k, n)
  {
  }

  /** Under each name, the appends sent under that name, and no others. */
  lemma CountBuild(q: Cand, x: Cand, country: Cand, lang: Cand, start: Cand, end: Cand, many: Cand, linkedin: Cand, n: Name)
    ensures Count(Build(q, x, country, lang, start, end, many, linkedin), n)
      == Hit(q, Q, n) + Hit(x, Exclude, n) + Hit(country, Country, n) + Hit(lang, Lang, n)
       + Hit(start, Start, n) + Hit(end, End, n) + Hit(many, N, n) + Hit(linkedin, N, n)
  {
    var w1, w2, w3, w4 := When(q, Q), When(x, Exclude), When(country, Country), When(lang, Lang);
    var w5, w6, w7, w8 := When(start, Start), When(end, End), When(many, N), When(linkedin, N);
    CountWhen(q, Q, n); CountWhen(x, Exclude, n); CountWhen(country, Country, n); CountWhen(lang, Lang, n);
    CountWhen(start, Start, n); CountWhen(end, End, n); CountWhen(many, N, n); CountWhen(linkedin, N, n);
    CountConcat(w1, w2, n);
    CountConcat(w1 + w2, w3, n);
    CountConcat(w1 + w2 + w3, w4, n);
    CountConcat(w1 + w2 + w3 + w4, w5, n);
    CountConcat(w1 + w2 + w3 + w4 + w5, w6, n);
    CountConcat(w1 + w2 + w3 + w4 + w5 + w6, w7, n);
    CountConcat(w1 + w2 + w3 + w4 + w5 + w6 + w7, w8, n);
  }

  /** A name's count and value, when one parameter may be sent under it. */
  predicate Once(p: Params, c: Cand, k: Name)
  {
    if c.on then Count(p, k) == 1 && (k, c.value) in p else Count(p, k) == 0
  }

  /** Each form field's name receives that field's value once when it is sent, and nothing otherwise. */
  lemma BuildSpec(q: Cand, x: Cand, country: Cand, lang: Cand, start: Cand, end: Cand, many: Cand, linkedin: Cand)
    ensures var p := Build(q, x, country, lang, start, end, many, linkedin);
      && Once(p, q, Q) && Once(p, x, Exclude) && Once(p, country, Country)
      && Once(p, lang, Lang) && Once(p, start, Start) && Once(p, end, End)
  {
    TextSent(q, x, country, lang, start, end, many, linkedin);
    PlaceSent(q, x, country, lang, start, end, many, linkedin);
    PeriodSent(q, x, country, lang, start, end, many, linkedin);
  }

  /** The query and the excluded words. */
  lemma TextSent(q: Cand, x: Cand, country: Cand, lang: Cand, start: Cand, end: Cand, many: Cand, linkedin: Cand)
    ensures var p := Build(q, x, country, lang, start, end, many, linkedin);
      Once(p, q, Q) && Once(p, x, Exclude)
  {
    CountBuild(q, x, country, lang, start, end, many, linkedin, Q);
    CountBuild(q, x, country, lang, start, end, many, linkedin, Exclude);
  }

  /** The country and the language. */
  lemma PlaceSent(q: Cand, x: Cand, country: Cand, lang: Cand, start: Cand, end: Cand, many: Cand, linkedin: Cand)
    ensures var p := Build(q, x, country, lang, start, end, many, linkedin);
      Once(p, country, Country) && Once(p, lang, Lang)
  {
    CountBuild(q, x, country, lang, start, end, many, linkedin, Country);
    CountBuild(q, x, country, lang, start, end, many, linkedin, Lang);
  }

  /** The two ends of the period. */
  lemma PeriodSent(q: Cand, x: Cand, country: Cand, lang: Cand, start: Cand, end: Cand, many: Cand, linkedin: Cand)
    ensures var p := Build(q, x, country, lang, start, end, many, linkedin);
      Once(p, start, Start) && Once(p, end, End)
  {
    CountBuild(q, x, country, lang, start, end, many, linkedin, Start);
    CountBuild(q, x, country, lang, start, end, many, linkedin, End);
  }

  /** `n` receives the value of each of its two appends that is sent. */
  lemma BuildLimit(q: Cand, x: Cand, country: Cand, lang: Cand, start: Cand, end: Cand, many: Cand, linkedin: Cand)
    ensures var p := Build(q, x, country, lang, start, end, many, linkedin);
      && Count(p, N) == Hit(many, N, N) + Hit(linkedin, N, N)
      && (many.on ==> (N, many.value) in p) && (linkedin.on ==> (N, linkedin.value) in p)
  {
    CountBuild(q, x, country, lang, start, end, many, linkedin, N);
  }

  /**
   * What a micro-service receives: `q` and `exclude` once each when their trimmed text is not
   * blank, and then trimmed; `country`, `lang`, `start` and `end` once each when set, as typed;
   * `n=1000` once for exactly reddit, twitter, youtube and linkedin. With `OnlyValue`, a name
   * sent once has exactly the value stated.
   */
  lemma ParamsSpec(s: Search, svc: string)
    ensures var p := ParamsOf(s, svc);
      && Once(p, Filled(Trim(s.query)), Q) && Once(p, Filled(Trim(s.exclude)), Exclude)
      && Once(p, Filled(s.country), Country) && Once(p, Filled(s.lang), Lang)
      && Once(p, Filled(s.start), Start) && Once(p, Filled(s.end), End)
      && Once(p, Cand(WantsMany(svc), "1000"), N)
  {
    var many, li := Cand(svc in ["reddit", "twitter", "youtube"], "1000"), Cand(svc == "linkedin", "1000");
    BuildSpec(Filled(Trim(s.query)), Filled(Trim(s.exclude)), Filled(s.country), Filled(s.lang),
              Filled(s.start), Filled(s.end), many, li);
    BuildLimit(Filled(Trim(s.query)), Filled(Trim(s.exclude)), Filled(s.country), Filled(s.lang),
               Filled(s.start), Filled(s.end), many, li);
    LinkedinApart(svc);
  }

  /** LinkedIn is not among the three other services asked for many results. */
  lemma LinkedinApart(svc: string)
    ensures !(svc in ["reddit", "twitter", "youtube"] && svc == "linkedin")
  {
    if svc == "linkedin" {
      assert svc[0] != "reddit"[0] && svc[0] != "twitter"[0] && svc[0] != "youtube"[0];
    }
  }

  /** `k=v` pairs joined by `&`, each name and value passed through the form encoding `enc`. */
  function QueryString(p: Params, enc: string -> string): (r: string)
    ensures p == [] <==> r == ""
  {
    if p == [] then ""
    else if |p| == 1 then enc(Wire(p[0].0)) + "=" + enc(p[0].1)
    else QueryString(p[..|p| - 1], enc) + "&" + enc(Wire(p[|p| - 1].0)) + "=" + enc(p[|p| - 1].1)
  }

  /** `fetchOne`'s URL: the endpoint, followed by `?` and the query string when there is one. */
  function Url(endpoint: string, p: Params, enc: string -> string): (r: string)
    ensures endpoint <= r
    ensures r == endpoint <==> p == []
  {
    var qs := QueryString(p, enc);
    if qs != "" then endpoint + "?" + qs else endpoint
  }

  // ---------------------------------------------------------------------------------------------
  // Service tag
  // ---------------------------------------------------------------------------------------------

  /** `{ ...item, service: name }` on every item a micro-service returned. */
  function Tag(items: seq<Article>, name: string): (r: seq<Article>)
    ensures |r| == |items|
    ensures forall i :: 0 <= i < |r| ==> "service" in r[i] && r[i]["service"] == name
    ensures forall i, f :: 0 <= i < |r| && f != "service" ==> (f in r[i] <==> f in items[i])
    ensures forall i, f :: 0 <= i < |r| && f != "service" && f in items[i] ==> r[i][f] == items[i][f]
  {
    seq(|items|, i requires 0 <= i < |items| => items[i]["service" := name])
  }

  // ---------------------------------------------------------------------------------------------
  // Sentiment
  // ---------------------------------------------------------------------------------------------

  const PositiveWords: seq<string> := [
    "good", "great", "excellent", "positive", "success", "gain",
    "happy", "benefit", "favorable", "bien", "bon", "hausse"
  ]
  const NegativeWords: seq<string> := [
    "bad", "poor", "terrible", "negative", "loss", "fail",
    "down", "unfavorable", "mauvais", "baisse", "crise"
  ]

  /** How many of the words occur in the text. */
  function Hits(words: seq<string>, text: string): (r: nat)
    ensures r <= |words|
  {
    if words == [] then 0
    else Hits(words[..|words| - 1], text) + (if Contains(text, words[|words| - 1]) then 1 else 0)
  }

  predicate NoRepeats(words: seq<string>)
  {
    forall i, j :: 0 <= i < j < |words| ==> words[i] != words[j]
  }

  /** With no word listed twice, the hits are the number of listed words the text contains. */
  lemma {:induction false} HitsAreFound(words: seq<string>, text: string)
    requires NoRepeats(words)
    ensures Hits(words, text) == |set w | w in words && Contains(text, w)|
  {
    if words != [] {
      var init, w := words[..|words| - 1], words[|words| - 1];
      HitsAreFound(init, text);
      var before := set v | v in init && Contains(text, v);
      var after := set v | v in words && Contains(text, v);
      assert words == init + [w];
      assert w !in init;
      if Contains(text, w) {
        assert after == before + {w};
      } else {
        assert after == before;
      }
    }
  }

  /** Neither word list repeats a word, and no word is on both. */
  lemma WordListsDistinct()
    ensures NoRepeats(PositiveWords) && NoRepeats(NegativeWords)
    ensures forall w :: w in PositiveWords ==> w !in NegativeWords
  {
  }

  /** The text the score is computed on: title and description, lower-cased. */
  function ScoredText(a: Article): string
  {
    Lower(Field(a, "title") + " " + Field(a, "description"))
  }

  /**
   * The score: one up for every positive word in the text, one down for every negative word,
   * whatever the number of times each occurs.
   */
  function Score(text: string): (r: int)
    ensures -|NegativeWords| <= r <= |PositiveWords|
  {
    Hits(PositiveWords, text) - Hits(NegativeWords, text)
  }

  lemma ScoreCountsWords(text: string)
    ensures Score(text) == |set w | w in PositiveWords && Contains(text, w)|
                         - |set w | w in NegativeWords && Contains(text, w)|
  {
    WordListsDistinct();
    HitsAreFound(PositiveWords, text);
    HitsAreFound(NegativeWords, text);
  }

  /** The two `forEach` loops over the word lists. */
  method ScoreText(text: string) returns (score: int)
    ensures score == Score(text)
  {
    score := 0;
    for i := 0 to |PositiveWords|
      invariant score == Hits(PositiveWords[..i], text)
    {
      assert PositiveWords[..i + 1][..i] == PositiveWords[..i];
      if Contains(text, PositiveWords[i]) {
        score := score + 1;
      }
    }
    assert PositiveWords[..|PositiveWords|] == PositiveWords;
    for i := 0 to |NegativeWords|
      invariant score == Hits(PositiveWords, text) - Hits(NegativeWords[..i], text)
    {
      assert NegativeWords[..i + 1][..i] == NegativeWords[..i];
      if Contains(text, NegativeWords[i]) {
        score := score - 1;
      }
    }
    assert NegativeWords[..|NegativeWords|] == NegativeWords;
  }

  // ---------------------------------------------------------------------------------------------
  // Statistics
  // ---------------------------------------------------------------------------------------------

  datatype Sentiment = Sentiment(positive: nat, negative: nat, neutral: nat)
  datatype Stats = Stats(totalMentions: nat, topSources: seq<Entry<string>>, timeline: seq<Entry<string>>, sentiment: Sentiment)

  /** The message of the `RangeError` `toISOString` raises on an invalid date. */
  const InvalidTime := "Invalid time value"

  /** The service, else the URL's host when the URL parses, else `"Inconnu"`. */
  function SourceKey(a: Article, host: string -> Option<string>): string
  {
    if Field(a, "service") != "" then a["service"]
    else if Field(a, "url") != "" && host(a["url"]).Some? then host(a["url"]).value
    else "Inconnu"
  }

  /** Every article coming from a micro-service is counted under its service's name. */
  lemma TaggedSource(items: seq<Article>, name: string, host: string -> Option<string>, i: int)
    requires name != "" && 0 <= i < |items|
    ensures SourceKey(Tag(items, name)[i], host) == name
  {
  }

  /** The day of `a.date`; `new Date(undefined)` is an invalid date. */
  function DayKey(a: Article, day: string -> Option<string>): Option<string>
  {
    if "date" in a then day(a["date"]) else None
  }

  function Sources(arts: seq<Article>, host: string -> Option<string>): (r: seq<string>)
    ensures |r| == |arts| && forall i :: 0 <= i < |arts| ==> r[i] == SourceKey(arts[i], host)
  {
    seq(|arts|, i requires 0 <= i < |arts| => SourceKey(arts[i], host))
  }

  /** The day of every article, or `None` as soon as one of them has an invalid date. */
  function Days(arts: seq<Article>, day: string -> Option<string>): Option<seq<string>>
  {
    if arts == [] then Some([])
    else match Days(arts[..|arts| - 1], day)
      case None => None
      case Some(ds) =>
        match DayKey(arts[|arts| - 1], day)
        case None => None
        case Some(d) => Some(ds + [d])
  }

  /** The days are there exactly when every article's date is valid, and are then those days. */
  lemma {:induction false} DaysSpec(arts: seq<Article>, day: string -> Option<string>)
    ensures Days(arts, day).Some? <==> forall i :: 0 <= i < |arts| ==> DayKey(arts[i], day).Some?
    ensures Days(arts, day).Some? ==>
      (|Days(arts, day).value| == |arts|
       && forall i :: 0 <= i < |arts| ==> Days(arts, day).value[i] == DayKey(arts[i], day).value)
  {
    if arts != [] {
      var init := arts[..|arts| - 1];
      DaysSpec(init, day);
      assert forall i :: 0 <= i < |init| ==> init[i] == arts[i];
    }
  }

  /** The bucket an article's score falls in. */
  function Classify(m: Sentiment, score: int): Sentiment
  {
    if score > 0 then m.(positive := m.positive + 1)
    else if score < 0 then m.(negative := m.negative + 1)
    else m.(neutral := m.neutral + 1)
  }

  function Moods(arts: seq<Article>): Sentiment
  {
    if arts == [] then Sentiment(0, 0, 0)
    else Classify(Moods(arts[..|arts| - 1]), Score(ScoredText(arts[|arts| - 1])))
  }

  /** Articles whose score is above zero, below zero, or zero. */
  function CountScored(arts: seq<Article>, sign: int): nat
  {
    if arts == [] then 0
    else
      var s := Score(ScoredText(arts[|arts| - 1]));
      CountScored(arts[..|arts| - 1], sign) + (if (s > 0 && sign > 0) || (s < 0 && sign < 0) || (s == 0 && sign == 0) then 1 else 0)
  }

  /** Each article lands in exactly one bucket: the buckets count the articles of each sign. */
  lemma {:induction false} MoodsSpec(arts: seq<Article>)
    ensures Moods(arts).positive == CountScored(arts, 1)
    ensures Moods(arts).negative == CountScored(arts, -1)
    ensures Moods(arts).neutral == CountScored(arts, 0)
    ensures Moods(arts).positive + Moods(arts).negative + Moods(arts).neutral == |arts|
  {
    if arts != [] {
      MoodsSpec(arts[..|arts| - 1]);
    }
  }

  /** `computeStats`, or the `RangeError` it raises at the first invalid date. */
  function StatsOf(arts: seq<Article>, host: string -> Option<string>, day: string -> Option<string>): Result<Stats, string>
  {
    match Days(arts, day)
    case None => Failure(InvalidTime)
    case Some(ds) =>
      Success(Stats(|arts|, Top(Tally(Sources(arts, host)), 5), Sort(Tally(ds), ByKeyAsc()), Moods(arts)))
  }

  /** `computeStats`: one pass over the articles, then the sorted top sources and timeline. */
  method ComputeStats(arts: seq<Article>, host: string -> Option<string>, day: string -> Option<string>)
    returns (r: Result<Stats, string>)
    ensures r == StatsOf(arts, host, day)
  {
    var bySource: seq<Entry<string>> := [];
    var byDate: seq<Entry<string>> := [];
    var mood := Sentiment(0, 0, 0);
    for i := 0 to |arts|
      invariant bySource == Tally(Sources(arts[..i], host))
      invariant Days(arts[..i], day).Some? && byDate == Tally(Days(arts[..i], day).value)
      invariant mood == Moods(arts[..i])
    {
      var a := arts[i];
      StatsStep(arts, i, host, day);
      var text := ScoredText(a);
      var src := SourceKey(a, host);
      bySource := Bump(bySource, src);
      var d := DayKey(a, day);
      if d.None? {
        DaysStop(arts, day, i + 1);
        return Failure(InvalidTime);
      }
      byDate := Bump(byDate, d.value);
      var score := ScoreText(text);
      mood := Classify(mood, score);
    }
    assert arts[..|arts|] == arts;
    r := Success(Stats(|arts|, Top(bySource, 5), Sort(byDate, ByKeyAsc()), mood));
  }

  /** What one more article adds to the tallies of the sources and days and to the buckets. */
  lemma StatsStep(arts: seq<Article>, i: int, host: string -> Option<string>, day: string -> Option<string>)
    requires 0 <= i < |arts|
    ensures Tally(Sources(arts[..i + 1], host)) == Bump(Tally(Sources(arts[..i], host)), SourceKey(arts[i], host))
    ensures Days(arts[..i + 1], day)
      == if Days(arts[..i], day).Some? && DayKey(arts[i], day).Some?
         then Some(Days(arts[..i], day).value + [DayKey(arts[i], day).value])
         else None
    ensures Days(arts[..i + 1], day).Some? ==>
      Tally(Days(arts[..i + 1], day).value) == Bump(Tally(Days(arts[..i], day).value), DayKey(arts[i], day).value)
    ensures Moods(arts[..i + 1]) == Classify(Moods(arts[..i]), Score(ScoredText(arts[i])))
  {
    var prefix := arts[..i + 1];
    assert prefix[..i] == arts[..i];
    var srcs := Sources(prefix, host);
    assert srcs[..i] == Sources(arts[..i], host);
    if Days(prefix, day).Some? {
      var ds := Days(prefix, day).value;
      assert ds[..|ds| - 1] == Days(arts[..i], day).value;
    }
  }

  /** Once an invalid date is met, the days of any longer run are missing too. */
  lemma DaysStop(arts: seq<Article>, day: string -> Option<string>, i: int)
    requires 0 <= i <= |arts| && Days(arts[..i], day).None?
    ensures Days(arts, day).None?
  {
    DaysSpec(arts[..i], day);
    DaysSpec(arts, day);
  }

  /**
   * The statistics fail exactly when some article's date is invalid. Otherwise they count every
   * article once: the sentiment buckets and the timeline add up to the total. The timeline has
   * one entry per day, in increasing order, counting that day's articles; the top sources are at
   * most five, by decreasing count, each counting its source's articles, and no source left out
   * counts more than one kept.
   */
  lemma StatsSpec(arts: seq<Article>, host: string -> Option<string>, day: string -> Option<string>)
    ensures StatsOf(arts, host, day).Failure? <==> exists i :: 0 <= i < |arts| && DayKey(arts[i], day).None?
    ensures StatsOf(arts, host, day).Success? ==>
      var st := StatsOf(arts, host, day).value;
      var ds := Days(arts, day).value;
      && st.totalMentions == |arts|
      && st.sentiment.positive + st.sentiment.negative + st.sentiment.neutral == |arts|
      && Total(st.timeline) == |arts|
      && (forall i, j :: 0 <= i < j < |st.timeline| ==> StrLt(st.timeline[i].key, st.timeline[j].key))
      && (forall i :: 0 <= i < |st.timeline| ==> st.timeline[i].count == Occurrences(ds, st.timeline[i].key))
      && (forall d :: d in ds <==> exists i :: 0 <= i < |st.timeline| && st.timeline[i].key == d)
      && TopSources(Sources(arts, host), st.topSources)
  {
    DaysSpec(arts, day);
    MoodsSpec(arts);
    if Days(arts, day).Some? {
      TimelineSpec(Days(arts, day).value);
      TopSourcesSpec(Sources(arts, host));
    }
  }

  /** The timeline: one entry per day, in increasing order, counting that day's articles. */
  lemma TimelineSpec(ds: seq<string>)
    ensures var t := Sort(Tally(ds), ByKeyAsc());
      && Total(t) == |ds|
      && (forall i, j :: 0 <= i < j < |t| ==> StrLt(t[i].key, t[j].key))
      && (forall i :: 0 <= i < |t| ==> t[i].count == Occurrences(ds, t[i].key))
      && (forall d :: d in ds <==> exists i :: 0 <= i < |t| && t[i].key == d)
  {
    TallySpec(ds);
    SortByKey(Tally(ds));
    TotalSort(Tally(ds), ByKeyAsc());
    TimelineCounts(ds);
    TimelineDays(ds);
  }

  /** Some entry of `t` is for source `k`. */
  predicate Listed(t: seq<Entry<string>>, k: string)
  {
    exists i :: 0 <= i < |t| && t[i].key == k
  }

  /**
   * `t` ranks the sources `ks`: as many entries as distinct sources up to five, by decreasing
   * count, each counting its source's articles, and no source left out counts more than one kept.
   */
  ghost predicate TopSources(ks: seq<string>, t: seq<Entry<string>>)
  {
    && |t| == (if |Tally(ks)| <= 5 then |Tally(ks)| else 5)
    && (forall i, j :: 0 <= i < j < |t| ==> t[i].count >= t[j].count)
    && (forall i :: 0 <= i < |t| ==> t[i].count == Occurrences(ks, t[i].key))
    && (forall k :: k in ks && !Listed(t, k) ==> forall i :: 0 <= i < |t| ==> Occurrences(ks, k) <= t[i].count)
  }

  /** The top five of the tally of the sources ranks them. */
  lemma TopSourcesSpec(ks: seq<string>)
    ensures TopSources(ks, Top(Tally(ks), 5))
  {
    var t := Top(Tally(ks), 5);
    TopLength(Tally(ks), 5);
    TopSorted(Tally(ks), 5);
    forall i | 0 <= i < |t| ensures t[i].count == Occurrences(ks, t[i].key)
    {
      TopCounted(ks, i);
    }
    forall k | k in ks && !Listed(t, k)
      ensures forall i :: 0 <= i < |t| ==> Occurrences(ks, k) <= t[i].count
    {
      TopLeavesSmaller(ks, k);
    }
  }

  /** A top entry counts its source's articles. */
  lemma TopCounted(ks: seq<string>, i: int)
    requires 0 <= i < |Top(Tally(ks), 5)|
    ensures Top(Tally(ks), 5)[i].count == Occurrences(ks, Top(Tally(ks), 5)[i].key)
  {
    var es := Tally(ks);
    TallySpec(ks);
    TopFrom(es, 5, i);
    var k :| 0 <= k < |es| && es[k] == Top(es, 5)[i];
    CountOfEntry(es, k);
  }

  /** A source without a top entry counts no more than any top entry. */
  lemma TopLeavesSmaller(ks: seq<string>, k: string)
    requires k in ks && !Listed(Top(Tally(ks), 5), k)
    ensures forall i :: 0 <= i < |Top(Tally(ks), 5)| ==> Occurrences(ks, k) <= Top(Tally(ks), 5)[i].count
  {
    var es := Tally(ks);
    var t := Top(es, 5);
    TallySpec(ks);
    assert k in Keys(es);
    var j :| 0 <= j < |es| && es[j].key == k;
    CountOfEntry(es, j);
    NotListedNotIn(t, es[j]);
    TopLeftOut(es, 5, es[j]);
  }

  /** An entry whose key is not listed is not among the entries. */
  lemma NotListedNotIn(t: seq<Entry<string>>, e: Entry<string>)
    requires !Listed(t, e.key)
    ensures e !in t
  {
    forall i | 0 <= i < |t| ensures t[i] != e {
      assert t[i].key != e.key;
    }
  }

  /** Each entry of the sorted tally of the days counts that day's occurrences. */
  lemma TimelineCounts(ds: seq<string>)
    ensures var t := Sort(Tally(ds), ByKeyAsc());
      forall i :: 0 <= i < |t| ==> t[i].count == Occurrences(ds, t[i].key)
  {
    var es := Tally(ds);
    var t := Sort(es, ByKeyAsc());
    TallySpec(ds);
    forall i | 0 <= i < |t| ensures t[i].count == Occurrences(ds, t[i].key)
    {
      assert t[i] in multiset(es);
      var k :| 0 <= k < |es| && es[k] == t[i];
      CountOfEntry(es, k);
    }
  }

  /** The sorted tally of the days holds an entry for exactly the days that occur. */
  lemma TimelineDays(ds: seq<string>)
    ensures var t := Sort(Tally(ds), ByKeyAsc());
      forall d :: d in ds <==> exists i :: 0 <= i < |t| && t[i].key == d
  {
    var t := Sort(Tally(ds), ByKeyAsc());
    forall d ensures d in ds <==> exists i :: 0 <= i < |t| && t[i].key == d
    {
      if d in ds {
        var i := DayListed(ds, d);
      }
      if exists i :: 0 <= i < |t| && t[i].key == d {
        var i :| 0 <= i < |t| && t[i].key == d;
        ListedDay(ds, i);
      }
    }
  }

  /** A day that occurs has an entry. */
  lemma DayListed(ds: seq<string>, d: string) returns (i: int)
    requires d in ds
    ensures 0 <= i < |Sort(Tally(ds), ByKeyAsc())| && Sort(Tally(ds), ByKeyAsc())[i].key == d
  {
    var es := Tally(ds);
    var t := Sort(es, ByKeyAsc());
    TallySpec(ds);
    assert d in Keys(es);
    var k :| 0 <= k < |es| && es[k].key == d;
    assert es[k] in multiset(t);
    i :| 0 <= i < |t| && t[i] == es[k];
  }

  /** An entry is for a day that occurs. */
  lemma ListedDay(ds: seq<string>, i: int)
    requires 0 <= i < |Sort(Tally(ds), ByKeyAsc())|
    ensures Sort(Tally(ds), ByKeyAsc())[i].key in ds
  {
    var es := Tally(ds);
    var t := Sort(es, ByKeyAsc());
    TallySpec(ds);
    assert t[i] in multiset(es);
    var k :| 0 <= k < |es| && es[k] == t[i];
    assert Keys(es)[k] == t[i].key;
  }

  // ---------------------------------------------------------------------------------------------
  // Client-side filter
  // ---------------------------------------------------------------------------------------------

  /** `new Date(a.date)`; a missing date is an invalid one. */
  function DateOf(a: Article, time: string -> Option<int>): Option<int>
  {
    if "date" in a then time(a["date"]) else None
  }

  /** `d < new Date(start)`: false when either side is NaN. */
  predicate Before(d: Option<int>, bound: Option<int>)
  {
    d.Some? && bound.Some? && d.value < bound.value
  }

  /** The four tests of the `filtered` callback: start, end of day, language, country. */
  predicate Kept(a: Article, s: Search, time: string -> Option<int>)
  {
    var d := DateOf(a, time);
    && !(s.start != "" && Before(d, time(s.start)))
    && !(s.end != "" && Before(time(s.end + "T23:59:59"), d))
    && !(s.lang != "" && Field(a, "langue") != "" && Lower(a["langue"]) != Lower(s.lang))
    && !(s.country != "" && Field(a, "country") != "" && Lower(a["country"]) != Lower(s.country))
  }

  /** `articles.filter(...)`. */
  function Filtered(arts: seq<Article>, s: Search, time: string -> Option<int>): (r: seq<Article>)
    ensures |r| <= |arts|
  {
    if arts == [] then []
    else Filtered(arts[..|arts| - 1], s, time) + (if Kept(arts[|arts| - 1], s, time) then [arts[|arts| - 1]] else [])
  }

  /** Filtering keeps the order: the filter of two runs is the two filters, one after the other. */
  lemma {:induction false} FilteredAppend(a: seq<Article>, b: seq<Article>, s: Search, time: string -> Option<int>)
    ensures Filtered(a + b, s, time) == Filtered(a, s, time) + Filtered(b, s, time)
    decreases |b|
  {
    if b == [] {
      assert a + b == a;
    } else {
      var init := b[..|b| - 1];
      assert (a + b)[..|a + b| - 1] == a + init;
      FilteredAppend(a, init, s, time);
    }
  }

  /** Every article kept passes the tests, and every article that passes them is kept. */
  lemma {:induction false} FilteredSpec(arts: seq<Article>, s: Search, time: string -> Option<int>)
    ensures forall i :: 0 <= i < |Filtered(arts, s, time)| ==> Kept(Filtered(arts, s, time)[i], s, time)
    ensures forall i :: 0 <= i < |arts| && Kept(arts[i], s, time) ==> arts[i] in Filtered(arts, s, time)
  {
    if arts != [] {
      var init := arts[..|arts| - 1];
      FilteredSpec(init, s, time);
      assert forall i :: 0 <= i < |init| ==> init[i] == arts[i];
    }
  }

  /**
   * The tests only exclude: an article without a valid date passes both date tests, one without
   * `langue` or `country` passes that test, and the end date takes in its whole day, up to
   * 23:59:59.
   */
  lemma KeptLenient(a: Article, s: Search, time: string -> Option<int>)
    ensures DateOf(a, time).None? ==> (Kept(a, s, time) <==> Kept(a, s.(start := "", end := ""), time))
    ensures Field(a, "langue") == "" ==> (Kept(a, s, time) <==> Kept(a, s.(lang := ""), time))
    ensures Field(a, "country") == "" ==> (Kept(a, s, time) <==> Kept(a, s.(country := ""), time))
    ensures DateOf(a, time) == time(s.end + "T23:59:59") ==> (Kept(a, s, time) <==> Kept(a, s.(end := ""), time))
  {
  }

  /** The language and country tests ignore ASCII case on both sides. */
  lemma KeptIgnoresCase(a: Article, s: Search, time: string -> Option<int>)
    ensures Kept(a, s, time) <==> Kept(a, s.(lang := Lower(s.lang), country := Lower(s.country)), time)
  {
    LowerIdempotent(s.lang);
    LowerIdempotent(s.country);
    assert Lower(s.lang) == "" <==> s.lang == "";
    assert Lower(s.country) == "" <==> s.country == "";
  }

  /** With the form empty, nothing is filtered out. */
  lemma FilterAllWhenBlank(arts: seq<Article>, time: string -> Option<int>)
    ensures Filtered(arts, Search("", "", "", "", "", ""), time) == arts
  {
    FilteredFull(arts, Search("", "", "", "", "", ""), time);
  }

  lemma {:induction false} FilteredFull(arts: seq<Article>, s: Search, time: string -> Option<int>)
    requires s.start == "" && s.end == "" && s.lang == "" && s.country == ""
    ensures Filtered(arts, s, time) == arts
  {
    if arts != [] {
      FilteredFull(arts[..|arts| - 1], s, time);
    }
  }
}
