/**
 * The RSS scraper (rss_service/rss_scraper.py): the feeds listed in a file are parsed, and an
 * entry is kept when it has a publication (or else update) date no earlier than 1 July 2025
 * and its title and summary mention one of the tracked keywords. `parse_rss` and
 * `collect_all` build the raw archive records; `fetch_rss_articles` builds the entries the
 * RSS service's `/articles` handler filters.
 */
module RssScraper {
  import opened Wrappers
  import opened Text
  import opened Calendar
  import opened Values
  import opened Filters
  import opened Loops

  /** `KEYWORDS`. */
  const Keywords: seq<string> := ["sonko", "diomaye", "newdealtechnologique", "mntc"]

  /** `START_DATE`: midnight on 1 July 2025. */
  const StartDate: DateTime := DateTime(Date(2025, 7, 1), 0)

  /** `contains_keywords`: one of the keywords occurs in the lower-cased text. */
  predicate ContainsKeywords(text: string)
  {
    AnyTermIn(Keywords, Lower(text))
  }

  /** The keyword test spelt out: exactly the four words, looked for in the lower-cased text. */
  lemma ContainsKeywordsIff(text: string)
    ensures ContainsKeywords(text) <==>
      Contains(Lower(text), "sonko") || Contains(Lower(text), "diomaye")
      || Contains(Lower(text), "newdealtechnologique") || Contains(Lower(text), "mntc")
  {
    if ContainsKeywords(text) {
      var k :| 0 <= k < |Keywords| && Contains(Lower(text), Keywords[k]);
      assert k == 0 || k == 1 || k == 2 || k == 3;
    }
    assert Keywords[0] == "sonko" && Keywords[1] == "diomaye";
    assert Keywords[2] == "newdealtechnologique" && Keywords[3] == "mntc";
  }

  /** The test ignores case: a text and its lower-cased form agree. */
  lemma KeywordsIgnoreCase(text: string)
    ensures ContainsKeywords(Lower(text)) == ContainsKeywords(text)
  {
    LowerIdempotent(text);
  }

  /**
   * A feed entry as feedparser presents it: its fields, the date-times of `published_parsed`
   * and `updated_parsed` (`None` when absent or empty), and the `term` of each of its tags
   * (`None` when it has no `tags` key).
   */
  datatype Entry = Entry(fields: Object, published: Option<Instant>, updated: Option<Instant>, tags: Option<seq<string>>)

  /** A parsed feed: `feed.feed.get("title", "")` and its entries. */
  datatype Feed = Feed(title: Value, entries: seq<Entry>)

  /** The entry's date: its publication date when it has one, else its update date, else none. */
  function EntryDate(e: Entry): (r: Option<Instant>)
    ensures e.published.Some? ==> r == e.published
    ensures e.published.None? ==> r == e.updated
  {
    if e.published.Some? then e.published else e.updated
  }

  /** `pub_date < START_DATE` negated. */
  predicate Recent(t: DateTime)
  {
    !Before(t, StartDate)
  }

  /** The cutoff is a whole day: an entry is recent exactly when its day is 1 July 2025 or later, so midnight on that day is kept. */
  lemma CutoffInclusive(t: Instant)
    ensures Recent(t) <==> DateLe(Date(2025, 7, 1), t.date)
  {
  }

  // ----- parse_rss and collect_all -----

  /** An archive record of `parse_rss`; `lien`, `sourceTitle` and `tags` are its `métadonnées`. */
  datatype RawArticle = RawArticle(id: string, date: string, source: string, texte: string,
                                   lien: string, sourceTitle: Value, tags: seq<string>)

  /**
   * One iteration of `parse_rss`, in the order of the source: the date (skipped when missing),
   * the cutoff, `entry.title` (an AttributeError when missing), the concatenation with the
   * summary (a TypeError unless both are strings), the keywords, then `entry.link` (an
   * AttributeError when missing) hashed by `digest`, which stands for the MD5 hex digest.
   */
  function RawStep(e: Entry, feedTitle: Value, digest: string -> string): Result<Option<RawArticle>, string>
  {
    match EntryDate(e)
    case None => Success(None)
    case Some(dt) =>
      if !Recent(dt) then Success(None)
      else if "title" !in e.fields then Failure("AttributeError: title")
      else
        var title, summary := e.fields["title"], GetOr(e.fields, "summary", Str(""));
        if !title.Str? || !summary.Str? then Failure("TypeError: can only concatenate str")
        else
          var full := title.s + "\n\n" + summary.s;
          if !ContainsKeywords(full) then Success(None)
          else if "link" !in e.fields then Failure("AttributeError: link")
          else match e.fields["link"]
            case Str(link) =>
              Success(Some(RawArticle(digest(link), IsoFormat(dt), "rss", full, link, feedTitle,
                                      if e.tags.Some? then e.tags.value else [])))
            case _ => Failure("AttributeError: link has no attribute 'encode'")
  }

  function RawSteps(feedTitle: Value, digest: string -> string): Entry -> Result<Option<RawArticle>, string>
  {
    e => RawStep(e, feedTitle, digest)
  }

  /** The conditions under which `parse_rss` keeps an entry. */
  predicate RawSelected(e: Entry)
  {
    var dt := EntryDate(e);
    var summary := GetOr(e.fields, "summary", Str(""));
    dt.Some? && Recent(dt.value) && "title" in e.fields && e.fields["title"].Str? && summary.Str?
    && ContainsKeywords(e.fields["title"].s + "\n\n" + summary.s)
    && "link" in e.fields && e.fields["link"].Str?
  }

  /**
   * A kept entry's record: the digest of its link, its ISO date, source `rss`, the title and
   * summary separated by a blank line, and its tags (none when it has no `tags` key).
   */
  lemma RawStepSpec(e: Entry, feedTitle: Value, digest: string -> string)
    ensures RawStep(e, feedTitle, digest).Success? && RawStep(e, feedTitle, digest).value.Some? <==> RawSelected(e)
    ensures RawSelected(e) ==>
      var r := RawStep(e, feedTitle, digest).value.value;
      r.id == digest(e.fields["link"].s) && r.source == "rss" && r.lien == e.fields["link"].s
      && r.texte == e.fields["title"].s + "\n\n" + GetOr(e.fields, "summary", Str("")).s
      && r.date == IsoFormat(EntryDate(e).value) && r.sourceTitle == feedTitle
      && (e.tags.None? ==> r.tags == [])
  {
  }

  /** Every record `parse_rss` returns has source `rss`, mentions a keyword, and is dated on or after 1 July 2025. */
  lemma ParseRssSound(feed: Feed, digest: string -> string, out: seq<RawArticle>)
    requires Gather(feed.entries, RawSteps(feed.title, digest)) == Success(out)
    ensures |out| <= |feed.entries|
    ensures forall j :: 0 <= j < |out| ==>
      (out[j].source == "rss" && ContainsKeywords(out[j].texte)
       && exists i :: 0 <= i < |feed.entries| && RawSelected(feed.entries[i])
            && out[j].date == IsoFormat(EntryDate(feed.entries[i]).value))
  {
    GatherShorter(feed.entries, RawSteps(feed.title, digest), out);
    forall j | 0 <= j < |out|
      ensures out[j].source == "rss" && ContainsKeywords(out[j].texte)
      && exists i :: 0 <= i < |feed.entries| && RawSelected(feed.entries[i])
           && out[j].date == IsoFormat(EntryDate(feed.entries[i]).value)
    {
      GatherMember(feed.entries, RawSteps(feed.title, digest), out, j);
      var i :| 0 <= i < |feed.entries| && RawSteps(feed.title, digest)(feed.entries[i]) == Success(Some(out[j]));
      RawStepSpec(feed.entries[i], feed.title, digest);
    }
  }

  /** `parse_rss(url)`: `fetch` stands for `feedparser.parse`. */
  method ParseRss(url: string, fetch: string -> Feed, digest: string -> string) returns (r: Result<seq<RawArticle>, string>)
    ensures r == Gather(fetch(url).entries, RawSteps(fetch(url).title, digest))
  {
    var feed := fetch(url);
    r := FilterLoop(feed.entries, RawSteps(feed.title, digest));
  }

  /**
   * `f.read().splitlines()`. Reading in text mode turns `\r\n` and `\r` into `\n`, which
   * `splitlines()` treats as one break either way, so the lines are those of the raw text.
   */
  function Lines(content: string): (r: seq<string>)
  {
    SplitLines(content, IsLineBreak)
  }

  /**
   * The URLs of a file written one per line come back in order and no empty URL is added;
   * `\r\n` line ends and any Python line break split lines.
   */
  lemma LinesRoundTrip(urls: seq<string>, last: string)
    requires forall k :: 0 <= k < |urls| ==> NoBreak(urls[k], IsLineBreak)
    requires NoBreak(last, IsLineBreak)
    ensures Lines(Unlines(urls)) == urls
    ensures last != "" ==> Lines(Unlines(urls) + last) == urls + [last]
    ensures forall k :: 0 <= k < |Lines(Unlines(urls) + last)| ==> NoBreak(Lines(Unlines(urls) + last)[k], IsLineBreak)
  {
    SplitUnlines(urls, "", IsLineBreak);
    assert Unlines(urls) + "" == Unlines(urls);
    assert urls + [] == urls;
    SplitUnlines(urls, last, IsLineBreak);
    if last != "" {
      SplitLastLine(last, IsLineBreak);
    }
  }

  /** A Windows line end is one break: `"a\r\nb"` has the lines `a` and `b`. */
  lemma CrLfIsOneBreak(a: string, t: string)
    requires NoBreak(a, IsLineBreak)
    ensures Lines(a + "\r\n" + t) == [a] + Lines(t)
  {
    SplitLinesCons(a, "\r\n", t, IsLineBreak);
  }

  /** `parse_rss` of each URL, as the per-URL step of `collect_all`. */
  function ParsedFeed(fetch: string -> Feed, digest: string -> string): string -> Result<seq<RawArticle>, string>
  {
    url => Gather(fetch(url).entries, RawSteps(fetch(url).title, digest))
  }

  /** `collect_all` as a function: every URL's records, in order, or the first error. */
  function CollectedAll(urls: seq<string>, fetch: string -> Feed, digest: string -> string): Result<seq<RawArticle>, string>
  {
    Collect(urls, ParsedFeed(fetch, digest))
  }

  /** Once a feed raised, the URLs after it change nothing. */
  lemma CollectedFailureSticks(urls: seq<string>, fetch: string -> Feed, digest: string -> string, k: nat)
    requires k <= |urls| && CollectedAll(urls[..k], fetch, digest).Failure?
    ensures CollectedAll(urls, fetch, digest) == CollectedAll(urls[..k], fetch, digest)
  {
    CollectFailureSticks(urls, ParsedFeed(fetch, digest), k);
  }

  /** The records of several URLs are the records of each, in the order of the URLs. */
  lemma CollectedAppend(a: seq<string>, b: seq<string>, fetch: string -> Feed, digest: string -> string)
    requires CollectedAll(a, fetch, digest).Success? && CollectedAll(b, fetch, digest).Success?
    ensures CollectedAll(a + b, fetch, digest) == Success(CollectedAll(a, fetch, digest).value + CollectedAll(b, fetch, digest).value)
  {
    CollectAppend(a, b, ParsedFeed(fetch, digest));
  }

  /** `collect_all(feeds_file)`: `content` is the file's text. */
  method CollectAll(content: string, fetch: string -> Feed, digest: string -> string) returns (r: Result<seq<RawArticle>, string>)
    ensures r == CollectedAll(Lines(content), fetch, digest)
  {
    var urls := Lines(content);
    var articles: seq<RawArticle> := [];
    for k := 0 to |urls|
      invariant CollectedAll(urls[..k], fetch, digest) == Success(articles)
    {
      assert urls[..k + 1] == urls[..k] + [urls[k]];
      var parsed := ParseRss(urls[k], fetch, digest);
      if parsed.Failure? {
        assert urls[..k + 1][..k] == urls[..k];
        CollectFailureSticks(urls, ParsedFeed(fetch, digest), k + 1);
        assert urls[..|urls|] == urls;
        return Failure(parsed.error);
      }
      CollectSnoc(urls[..k], urls[k], ParsedFeed(fetch, digest));
      articles := articles + parsed.value;
    }
    assert urls[..|urls|] == urls;
    return Success(articles);
  }

  // ----- fetch_rss_articles -----

  /** The stripped line, or nothing when it is blank. */
  function NonBlank(line: string): Option<string>
  {
    var t := Trim(line);
    if t != "" then Some(t) else None
  }

  /** `[line.strip() for line in f if line.strip()]`, over the lines of the file. */
  function StrippedNonBlank(lines: seq<string>): (r: seq<string>)
    ensures |r| <= |lines|
  {
    Picked(lines, NonBlank)
  }

  /**
   * `for line in f` in text mode: lines end at `\n`, `\r\n` or `\r`, and the URLs are the
   * stripped non-blank ones.
   */
  function FeedUrls(content: string): seq<string>
  {
    StrippedNonBlank(SplitLines(content, IsNewline))
  }

  /** Every feed URL is non-blank and already stripped. */
  lemma FeedUrlsClean(lines: seq<string>)
    ensures forall k :: 0 <= k < |StrippedNonBlank(lines)| ==>
      var u := StrippedNonBlank(lines)[k]; u != "" && Trim(u) == u
  {
    forall k | 0 <= k < |StrippedNonBlank(lines)|
      ensures var u := StrippedNonBlank(lines)[k]; u != "" && Trim(u) == u
    {
      var u := StrippedNonBlank(lines)[k];
      var i := PickedSound(lines, NonBlank, u);
      NonBlankClean(lines[i], u);
    }
  }

  lemma NonBlankClean(line: string, u: string)
    requires NonBlank(line) == Some(u)
    ensures u != "" && Trim(u) == u
  {
    TrimUnpadded(u);
  }

  /** No non-blank line is lost: its stripped form is among the feed URLs. */
  lemma FeedUrlsComplete(lines: seq<string>, k: int)
    requires 0 <= k < |lines| && Trim(lines[k]) != ""
    ensures Trim(lines[k]) in StrippedNonBlank(lines)
  {
    PickedComplete(lines, NonBlank, k);
  }

  /** A blank line contributes nothing. */
  lemma BlankLinesIgnored(lines: seq<string>, blank: string)
    requires AllSpace(blank)
    ensures StrippedNonBlank(lines + [blank]) == StrippedNonBlank(lines)
  {
    PickedSnoc(lines, blank, NonBlank);
    assert StrippedNonBlank(lines) + [] == StrippedNonBlank(lines);
  }

  /** `f"{title}\n\n{summary}"`, with `entry.get` defaults. */
  function FullText(e: Entry): string
  {
    Show(GetOr(e.fields, "title", Str(""))) + "\n\n" + Show(GetOr(e.fields, "summary", Str("")))
  }

  /** One iteration of the inner loop of `fetch_rss_articles`: the normalised entry, or nothing when it is skipped. */
  function Pick(e: Entry): Option<Object>
  {
    match EntryDate(e)
    case None => None
    case Some(dt) =>
      if !Recent(dt) || !ContainsKeywords(FullText(e)) then None
      else Some(map[
        "title" := GetOr(e.fields, "title", Str("")),
        "link" := Get(e.fields, "link"),
        "published" := Str(IsoFormat(dt))
      ])
  }

  /** An entry is kept exactly when it is dated, recent and mentions a keyword; its record holds the title, the link and the ISO date. */
  lemma PickSpec(e: Entry)
    ensures Pick(e).Some? <==> EntryDate(e).Some? && Recent(EntryDate(e).value) && ContainsKeywords(FullText(e))
    ensures Pick(e).Some? ==>
      var r := Pick(e).value;
      r.Keys == {"title", "link", "published"} && r["title"] == GetOr(e.fields, "title", Str(""))
      && r["link"] == Get(e.fields, "link") && r["published"].Str?
      && r["published"].s[..10] == DateIso(EntryDate(e).value.date)
  {
  }

  /** The inner loop over one feed's entries. */
  function Picks(entries: seq<Entry>): (r: seq<Object>)
    ensures |r| <= |entries|
  {
    Picked(entries, Pick)
  }

  /** Every kept article is the normalised form of one of the feed's entries. */
  lemma PicksSound(entries: seq<Entry>, x: Object)
    requires x in Picks(entries)
    ensures exists i :: 0 <= i < |entries| && Pick(entries[i]) == Some(x)
  {
    var i := PickedSound(entries, Pick, x);
  }

  /** Every entry that `Pick` keeps is among the feed's articles. */
  lemma PicksComplete(entries: seq<Entry>, i: int)
    requires 0 <= i < |entries| && Pick(entries[i]).Some?
    ensures Pick(entries[i]).value in Picks(entries)
  {
    PickedComplete(entries, Pick, i);
  }

  /** The kept entries of the feed at each URL. */
  function FeedPicks(fetch: string -> Feed): string -> seq<Object>
  {
    url => Picks(fetch(url).entries)
  }

  /** `fetch_rss_articles` as a function: every feed's kept entries, feed after feed. */
  function Fetched(urls: seq<string>, fetch: string -> Feed): seq<Object>
  {
    Flattened(urls, FeedPicks(fetch))
  }

  /** Feed order: the articles of several feeds are those of each, one feed after the other. */
  lemma FetchedAppend(a: seq<string>, b: seq<string>, fetch: string -> Feed)
    ensures Fetched(a + b, fetch) == Fetched(a, fetch) + Fetched(b, fetch)
  {
    FlattenedAppend(a, b, FeedPicks(fetch));
  }

  /** Every fetched article is the normalised form of an entry of one of the listed feeds. */
  lemma FetchedSound(urls: seq<string>, fetch: string -> Feed, x: Object)
    requires x in Fetched(urls, fetch)
    ensures exists k, i :: 0 <= k < |urls| && 0 <= i < |fetch(urls[k]).entries| && Pick(fetch(urls[k]).entries[i]) == Some(x)
  {
    var k := FlattenedSound(urls, FeedPicks(fetch), x);
    var i := PickedSound(fetch(urls[k]).entries, Pick, x);
  }

  /** Every entry of a listed feed that `Pick` keeps is fetched. */
  lemma FetchedComplete(urls: seq<string>, fetch: string -> Feed, k: int, i: int)
    requires 0 <= k < |urls| && 0 <= i < |fetch(urls[k]).entries| && Pick(fetch(urls[k]).entries[i]).Some?
    ensures Pick(fetch(urls[k]).entries[i]).value in Fetched(urls, fetch)
  {
    PicksComplete(fetch(urls[k]).entries, i);
    FlattenedComplete(urls, FeedPicks(fetch), k, Pick(fetch(urls[k]).entries[i]).value);
  }

  /** The inner loop: the dated, recent, relevant entries of one feed. */
  method PickEntries(entries: seq<Entry>) returns (picked: seq<Object>)
    ensures picked == Picks(entries)
  {
    picked := [];
    for i := 0 to |entries|
      invariant picked == Picks(entries[..i])
    {
      assert entries[..i + 1] == entries[..i] + [entries[i]];
      PickedSnoc(entries[..i], entries[i], Pick);
      var e := entries[i];
      var pubDate: Option<Instant>;
      if e.published.Some? {
        pubDate := e.published;
      } else if e.updated.Some? {
        pubDate := e.updated;
      } else {
        continue;
      }
      if Before(pubDate.value, StartDate) {
        continue;
      }
      var title := GetOr(e.fields, "title", Str(""));
      var summary := GetOr(e.fields, "summary", Str(""));
      var fullText := Show(title) + "\n\n" + Show(summary);
      if !ContainsKeywords(fullText) {
        continue;
      }
      picked := picked + [map["title" := title, "link" := Get(e.fields, "link"), "published" := Str(IsoFormat(pubDate.value))]];
    }
    assert entries[..|entries|] == entries;
  }

  /** One more feed: its kept entries come after those of the feeds before it. */
  lemma FetchedStep(urls: seq<string>, k: int, fetch: string -> Feed)
    requires 0 <= k < |urls|
    ensures Fetched(urls[..k + 1], fetch) == Fetched(urls[..k], fetch) + Picks(fetch(urls[k]).entries)
  {
    assert urls[..k + 1] == urls[..k] + [urls[k]];
    FlattenedSnoc(urls[..k], urls[k], FeedPicks(fetch));
  }

  /** `fetch_rss_articles(feeds_file)`: `content` is the file's text and `fetch` stands for `feedparser.parse`. */
  method FetchRssArticles(content: string, fetch: string -> Feed) returns (articles: seq<Object>)
    ensures articles == Fetched(FeedUrls(content), fetch)
  {
    var feedUrls := FeedUrls(content);
    articles := [];
    for k := 0 to |feedUrls|
      invariant articles == Fetched(feedUrls[..k], fetch)
    {
      var feed := fetch(feedUrls[k]);
      var picked := PickEntries(feed.entries);
      FetchedStep(feedUrls, k, fetch);
      articles := articles + picked;
    }
    assert feedUrls[..|feedUrls|] == feedUrls;
  }
}
