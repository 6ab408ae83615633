# comTracker, verified model

comTracker collects mentions of a topic from several sources, filters them, and reports on them. Each source has its own Python micro-service: LinkedIn (through a SerpAPI search and a snapshot cache), Reddit, Twitter, RSS feeds, YouTube, and Senegalese press sites. An AI service streams a written report. A React frontend queries the services, filters and tallies the articles, and shows them as a list, as charts and as a report.

This project models the deterministic core of that system in Dafny and proves what it promises:

- **Query matching.** `match_query` has an OR-mode for queries with commas and a phrase mode otherwise (`Search`).
- **Country and language decisions.** These are `extract_country` and `detect_language` (`Lang`).
- **Shared filter steps.** `Filters` models the exclude-term split, the date window and its defaults, and the optional language and country filters. It also models the shape every `/articles` loop shares: go through the items in order, skip some, append a record for the others, and stop at the first exception.
- **LinkedIn client.** `LinkedInClient` covers the first-link-wins deduplication, the fuzzy date resolver `_norm`, the record mapping, and `slugify`.
- **LinkedIn snapshot store.** `LinkedInApp.SnapshotStore` is a class over a map from snapshot path to item list. `collect` always refreshes it. `articles` fetches only when the stored list is empty.
- **Per-service `/articles` handlers.** `RedditApp`, `TwitterApp`, `RssApp`, `YoutubeApp` and `PresseApp` each keep that service's filters, in its own order and on its own fields.
- **RSS scraper and press extractor registry.** The scraper's entry selection is in `RssScraper`, the registry in `Extractors`.
- **AI service.** `AiService` covers the truncation to twenty articles, the statistics block and the server-sent-event framing.
- **Frontend report reader.** `AppStream` models how the frontend re-reads the event stream. It proves the round trip with the framing.
- **Frontend root component.** `App` covers `buildParams`, the `service` tag, `computeStats` and the client-side filter.
- **Frontend components.** `AiReport` covers the report panel and `renderSummary`. `InsightReport` covers the metrics. `ArticleCharts` covers the charts. `ArticleList` covers the source labels and description excerpts.

Some modules only model language semantics that the code above relies on:

- `Wrappers` holds Option and Result, which stand for an absent value or a raised exception.
- `Text` models ASCII strings.
- `Values` models JSON-like dictionaries.
- `Calendar` models Python dates and times.
- `Counting` models JavaScript tally objects and the stable sort.

Wherever the source changes state step by step, the model does too. Loops become methods with invariants, proved equal to a specification function. The properties are then lemmas about that function.

Some behaviour is foreign code, and each module takes it as a function parameter:

- the clock;
- the fetchers;
- dateutil's parsers;
- langdetect;
- the public-suffix lookup;
- NFKD folding;
- JavaScript's `Date` and `URL`.

## Model

| member | source | states |
|---|---|---|
| Search.AnyKeywordIff | utils/search.py:20 | the `any` scan over the comma pieces is true exactly when some piece, trimmed, is non-empty and occurs in the text |
| Search.BlankQueryMatchesAll | utils/search.py:14-16 | an empty or whitespace-only query matches every text |
| Search.CommaSurvivesNormalisation | utils/search.py:14-19 | the query has a comma after `strip().lower()` exactly when the raw query has one, so the mode is decided by the raw query |
| Search.CommaQueryIff | utils/search.py:19-20 | a query with a comma matches exactly when some trimmed, non-empty comma piece of the lowered query occurs in the lowered text |
| Search.BlankPiecesMatchNothing | utils/search.py:19-20 | a comma query whose pieces are all blank (such as `","`) matches no text |
| Search.PhraseQueryIff | utils/search.py:21-24 | a non-blank query without a comma matches exactly when its whitespace-collapsed, lowered form occurs in the whitespace-collapsed, lowered text |
| Search.MatchIgnoresCase | utils/search.py:14-17 | lower-casing the query or the text never changes the result |
| Search.MatchIgnoresPadding | utils/search.py:14 | whitespace around the query never changes the result |
| Search.VerbatimPhraseMatches | utils/search.py:21-24 | a comma-free query that occurs verbatim (trimmed and lowered) in the lowered text matches |
| Search.PhraseExample | utils/search.py:11 | `"Jonh Abraham Cena"` is a phrase: it does not match `"John Cena"` |
| Search.PhraseExampleHit | utils/search.py:11 | `"Jonh Abraham Cena"` matches a text holding that phrase in another case |
| Search.KeywordExample | utils/search.py:12 | `"jean,Abraham,Cena"` matches `"John Cena"` through its one token `cena` |
| Lang.DetectLanguage | utils/lang.py:5-14 | the first candidate's language when its probability reaches the threshold, else `''`; no candidates or a detector exception give `''` |
| Lang.ThresholdMonotone | utils/lang.py:11-12 | raising the threshold can only turn a detected language into `''` |
| Lang.LastLabel | utils/lang.py:22 | the last dot-separated label of the suffix, lowered: no dot, already lower case |
| Lang.ExtractCountry | utils/lang.py:17-25 | `''` for a missing or empty URL; otherwise a two-letter last label, `us` for `com`, `''` for anything else; always `''` or two lower-case characters |
| Lang.TwoLetterSuffix | utils/lang.py:22-24 | a suffix ending in a two-letter label (`co.uk`) gives that label, lowered (`uk`) |
| Lang.EmptySuffix | utils/lang.py:22-25 | an empty suffix gives `''` |
| Lang.ComIsUs | utils/lang.py:25 | the suffix `com` gives `us` |
| Filters.Terms | linkedin_service/app.py:42 | the exclude terms are non-empty and hold no comma and no whitespace |
| Filters.TermsSplitAt | linkedin_service/app.py:42 | a comma or whitespace splits the terms: the terms of `a + sep + b` are those of `a` then those of `b` |
| Filters.TermsOfJoin | linkedin_service/app.py:42 | splitting a comma-joined list of separator-free words gives the words back |
| Filters.CountArg | reddit_service/app.py:22 | an absent `n` gives the handler's default count |
| Filters.CountArgReads | reddit_service/app.py:22 | an `n` that is a number's decimal form, with any surrounding whitespace, reads as that number |
| Filters.CountArgRejects | reddit_service/app.py:22 | an `n` holding a character that is no digit, sign, underscore or whitespace raises `ValueError` |
| Text.IntOfToString | reddit_service/app.py:22 | `int()` of `str(v)` is `v`, negative numbers included |
| Text.IntOfIgnoresPadding | reddit_service/app.py:22 | `int()` ignores leading and trailing whitespace |
| Text.IntOfRejects | reddit_service/app.py:22 | `int()` of a string holding a character that is no digit, sign, underscore or whitespace raises |
| Text.UnderscoreExample | reddit_service/app.py:22 | `int()` reads `"1_000"` as 1000: an underscore between digits is allowed |
| Filters.ResolveBound | linkedin_service/app.py:47-50 | an absent or empty bound gives the default; otherwise the isoparsed date, and an unparsable bound raises |
| Filters.ResolveWindow | linkedin_service/app.py:47-50 | the window succeeds exactly when both bounds do, holds their dates, and fails with the start's error first |
| Filters.DefaultWindow | linkedin_service/app.py:48-50 | with no bounds the window runs from 2023-01-01 through today |
| Filters.CountryOf | linkedin_service/app.py:76-77 | a falsy URL gives `''`, a string URL gives `extract_country` of it, and any other truthy value raises |
| Filters.ParseStamp | linkedin_service/app.py:63-67 | a string date is what isoparse makes of it; a missing or non-string date does not parse |
| Filters.FilterLoop | linkedin_service/app.py:57-90 | the loop of `continue` guards and appends computes the gather of the per-item steps |
| Filters.GatherSelects | linkedin_service/app.py:57-90 | a successful loop ran every step; its output is, in order, the records of exactly the items whose step emitted one |
| Filters.GatherFails | linkedin_service/app.py:57-90 | the loop raises exactly when some item's step raises, and with the error of the first such item |
| Filters.GatherFailureSticks | linkedin_service/app.py:57-90 | once a prefix of the items raised, the whole loop raises the same error |
| LinkedInClient.FirstByLink | linkedin_service/linkedin_client.py:36-43 | the deduplicated posts are never more than the fetched ones |
| LinkedInClient.Dedup | linkedin_service/linkedin_client.py:36-43 | the loop over the `seen` set returns exactly the posts whose link no earlier post had |
| LinkedInClient.FirstByLinkLinks | linkedin_service/linkedin_client.py:36-43 | every link value of the input survives, and no two kept posts share a link |
| LinkedInClient.FirstByLinkFirst | linkedin_service/linkedin_client.py:36-43 | each kept post is the first post with its link, and the kept posts keep their input order |
| LinkedInClient.DistinctLinksKept | linkedin_service/linkedin_client.py:36-43 | posts with pairwise distinct links all pass unchanged |
| LinkedInClient.DedupIdempotent | linkedin_service/linkedin_client.py:36-43 | deduplicating twice is deduplicating once |
| Text.ParseNatToString | linkedin_service/linkedin_client.py:63 | `int()` of a number's decimal digits gives the number back |
| LinkedInClient.RelativeMatchAccepts | linkedin_service/linkedin_client.py:61-64 | digits, optional whitespace and one unit letter `h`, `d`, `w`, `m`, `y` are a full match giving that number and unit |
| LinkedInClient.TrailingTextRejected | linkedin_service/linkedin_client.py:61 | a string that does not end in a unit letter (such as `"3h ago"`) is no full match |
| LinkedInClient.OffsetClassified | linkedin_service/linkedin_client.py:55-64 | a relative offset string is read as that offset |
| LinkedInClient.Shift | linkedin_service/linkedin_client.py:65-71 | moving back n hours, days, weeks, calendar months or years gives a valid date-time, or nothing when it leaves the calendar |
| LinkedInClient.Reckon | linkedin_service/linkedin_client.py:55-76 | `today` gives now; an unmatched string gives the parser's date-time or now, never nothing |
| LinkedInClient.TodayIsNow | linkedin_service/linkedin_client.py:55-58 | `today` and `aujourd'hui`, in any case and padding, resolve to now |
| LinkedInClient.YesterdayIsOneDayBack | linkedin_service/linkedin_client.py:59-60 | `yesterday` resolves to the same time one calendar day before now |
| LinkedInClient.OffsetMovesBack | linkedin_service/linkedin_client.py:61-71 | a relative offset resolves to now moved back by that offset, and raises exactly when that leaves the calendar |
| LinkedInClient.LargeYearOffsetRaises | linkedin_service/linkedin_client.py:65-70 | as written, a year offset of at least the current year (`"3000y"`) leaves the calendar and raises out of `_norm` |
| LinkedInClient.YearsBeforeFirst | linkedin_service/linkedin_client.py:70 | moving back at least the current year's number of years has no result |
| LinkedInClient.ResolveDate | linkedin_service/linkedin_client.py:54-76 | the corrected resolver agrees with the code wherever the code returns, and gives now where it raises |
| LinkedInClient.ResolveDateValid | linkedin_service/linkedin_client.py:54-76 | the corrected resolver never raises and always gives a representable date-time |
| LinkedInClient.PostRecordFields | linkedin_service/linkedin_client.py:78-89 | a record has `service="linkedin"`, the post's source or `"LinkedIn"`, the post's title and snippet when truthy and `""` otherwise, the post's link and position, and a 19-character ISO date |
| LinkedInClient.PostRecordAsWritten | linkedin_service/linkedin_client.py:78 | the record of a post raises exactly when `_norm` raises on its date, with that error, and is otherwise the record built from the resolved date |
| LinkedInClient.RecordsAsWrittenSpec | linkedin_service/linkedin_client.py:78-89 | the record loop raises exactly when `_norm` raises on some post's date, with the error of the first such post; otherwise it gives one record per post, in order |
| LinkedInClient.BuildRecords | linkedin_service/linkedin_client.py:78-89 | the append loop returns the records of the posts or the first error `_norm` raises |
| LinkedInClient.RecordsAt | linkedin_service/linkedin_client.py:78-89 | with the corrected resolver there is one record per post, and record `k` is the record built from post `k` |
| LinkedInClient.SearchResultsSpec | linkedin_service/linkedin_client.py:35-90 | with the corrected resolver the search never raises and gives one record per deduplicated post, in order, never more than the posts fetched |
| LinkedInClient.SearchAsWrittenSpec | linkedin_service/linkedin_client.py:35-90 | `search_posts` raises exactly when `_norm` raises on the date of a deduplicated post; otherwise it gives the corrected resolver's records, one per deduplicated post |
| LinkedInClient.LargeYearOffsetFailsSearch | linkedin_service/linkedin_client.py:61-89 | one kept post dated `"<n>y"` with `n` at least the current year makes the whole search raise |
| LinkedInClient.SearchPosts | linkedin_service/linkedin_client.py:35-90 | the dedup loop then the record loop compute `search_posts` as written: the records, or the error raised on the first kept post whose date `_norm` cannot resolve |
| LinkedInClient.DashRuns | linkedin_service/linkedin_client.py:117 | every run of non-alphanumerics becomes one dash: only slug characters, never two dashes in a row |
| LinkedInClient.StripDashes | linkedin_service/linkedin_client.py:117 | `strip("-")` leaves no dash at either end and keeps the dash separation |
| LinkedInClient.Slugify | linkedin_service/linkedin_client.py:105-119 | the slug is non-empty, made of `a-z`, `0-9` and single inner dashes; an empty text gives `"untitled"` |
| LinkedInClient.NoAlnumIsUntitled | linkedin_service/linkedin_client.py:117-119 | a text with no ASCII letter or digit after folding gives `"untitled"` |
| LinkedInClient.SlugIsFixed | linkedin_service/linkedin_client.py:100-103 | a slug such as `"newdealtechnologique"` is its own slug |
| LinkedInClient.SlugIgnoresCase | linkedin_service/linkedin_client.py:109-114 | texts equal up to ASCII case have the same slug |
| LinkedInApp.PunctuationSharesKey | linkedin_service/app.py:17-18 | queries differing in one punctuation character share one snapshot file |
| LinkedInApp.Description | linkedin_service/app.py:60 | the description is `description`, else `summary`, else `''` |
| LinkedInApp.DateValue | linkedin_service/app.py:63 | the date is taken from `published`, else `publishedAt`, else `date` |
| LinkedInApp.Url | linkedin_service/app.py:76 | the URL is `url`, else `link`, else `''` |
| LinkedInApp.StepSpec | linkedin_service/app.py:58-89 | an item is emitted exactly when its date parses and lies in the window, the query matches, no exclude term occurs and the language and country filters accept it; it raises exactly when it passes all but the URL is truthy and not a string |
| LinkedInApp.KeptIsSelected | linkedin_service/app.py:58-89 | whatever one step emits is the record of a selected item |
| LinkedInApp.FilterSound | linkedin_service/app.py:57-90 | every emitted record is the record of some selected snapshot item, and there are no more records than items |
| LinkedInApp.FilterComplete | linkedin_service/app.py:57-90 | every selected item's record is emitted |
| LinkedInApp.EmittedFields | linkedin_service/app.py:80-89 | a record has `service='linkedin'`, the chosen URL and description, the item's ISO date, and the filtered language and country when those filters are set |
| LinkedInApp.CriteriaOf | linkedin_service/app.py:41-50 | the exclude terms are the comma/whitespace split of the lowered `exclude` argument |
| LinkedInApp.BadCountFails | linkedin_service/app.py:45 | a non-integer `n` fails `/articles` with `ValueError` before the dates are read |
| LinkedInApp.SnapshotStore.constructor | linkedin_service/app.py:14-15 | the store starts with no snapshot |
| LinkedInApp.SnapshotStore.Stored | linkedin_service/app.py:24-27 | a missing snapshot reads as the empty list |
| LinkedInApp.SnapshotStore.Load | linkedin_service/app.py:24-29 | `_load` returns the stored list of the query's slug path |
| LinkedInApp.SnapshotStore.Save | linkedin_service/app.py:20-22 | `_save` overwrites that one path and no other |
| LinkedInApp.SnapshotStore.Collect | linkedin_service/app.py:31-37 | `collect` fails with `ValueError` and changes no file when `n` is no integer; otherwise it always searches for `n` posts, 1000 by default; when the search raises the request fails and no file changes, otherwise the lowered query's snapshot is overwritten with the records and their number, one per deduplicated post, is reported |
| LinkedInApp.SnapshotStore.Articles | linkedin_service/app.py:39-90 | the search, for `n` posts, runs exactly when `n` is an integer, the window resolves and the stored list is empty; when it raises the request fails with its error and no file changes; when it succeeds its records are saved; otherwise nothing changes; the reply is the filter over the stored list |
| RedditApp.PostTime | reddit_service/app.py:42-45 | a missing `created_utc` gives no time; a numeric one gives its local date-time, when it has one |
| RedditApp.StepSpec | reddit_service/app.py:32-64 | a post is emitted exactly when the query matches and no exclude term occurs in the lowered title+selftext body, its time exists and lies in the window, and the language and country filters accept it; it raises exactly when it passes all but the URL is truthy and not a string |
| RedditApp.KeptIsSelected | reddit_service/app.py:32-64 | whatever one step emits is the record of a selected post |
| RedditApp.UndatedPostDropped | reddit_service/app.py:42-45 | a post without `created_utc` is skipped, never raising |
| RedditApp.FilterSound | reddit_service/app.py:31-66 | every emitted record is the record of some selected post, and there are no more records than posts |
| RedditApp.FilterComplete | reddit_service/app.py:31-66 | every selected post's record is emitted |
| RedditApp.EmittedFields | reddit_service/app.py:57-64 | a record has `service='reddit'`, the post's title and URL, the post's ISO date, and the filtered language and country when those filters are set |
| RedditApp.CriteriaOf | reddit_service/app.py:17-28 | the query is taken as given and the exclude terms are the comma/whitespace split of the lowered `exclude` argument |
| RedditApp.Articles | reddit_service/app.py:16-66 | the handler fetches `n` posts (1000 by default) with the query and returns the filter of the posts, or the `ValueError` of a non-integer `n`, or the error of an unparsable window bound |
| RedditApp.BadCountFails | reddit_service/app.py:22 | a non-integer `n` fails the request with `ValueError`, whatever the window and the posts |
| TwitterApp.CreatedAt | twitter_service/app.py:31-39 | `created_at` is tried with isoparse, then with the general parser; a missing one gives no date |
| TwitterApp.StepSpec | twitter_service/app.py:30-64 | a tweet is emitted exactly when its date exists and lies in the window, the query matches and no exclude term occurs in the lowered text, and the language and country filters accept it; it raises exactly when its date is in the window but its text is not a string |
| TwitterApp.KeptIsSelected | twitter_service/app.py:30-64 | whatever one step emits is the record of a selected tweet |
| TwitterApp.FilterSound | twitter_service/app.py:29-65 | every emitted record is the record of some selected tweet, and there are no more records than tweets |
| TwitterApp.FilterComplete | twitter_service/app.py:29-65 | every selected tweet's record is emitted |
| TwitterApp.EmittedFields | twitter_service/app.py:51-64 | a record has `service='twitter'`, `id=id_str`, `title=text`, the URL `https://twitter.com/i/web/status/<id_str>` and the tweet's ISO date |
| TwitterApp.CountryAlwaysUs | twitter_service/app.py:51-54 | with the status URL's suffix `com`, every record's country is `us`, and any other country filter empties the result |
| TwitterApp.CriteriaOf | twitter_service/app.py:16-26 | the query is taken as given and the exclude terms are the comma/whitespace split of the lowered `exclude` argument |
| TwitterApp.Articles | twitter_service/app.py:15-65 | the handler fetches `n` tweets (200 by default) with the query and returns the filter of the tweets, or the `ValueError` of a non-integer `n`, or the error of an unparsable window bound |
| TwitterApp.BadCountFails | twitter_service/app.py:20 | a non-integer `n` fails the request with `ValueError`, whatever the window and the tweets |
| RssApp.StepSpec | rss_service/app.py:32-50 | an entry is emitted exactly when `published` isoparses to a date in the window, the query matches the lowered title and no exclude term occurs in it; it raises exactly when its date is in the window but its title is not a string |
| RssApp.KeptIsSelected | rss_service/app.py:32-50 | whatever one step emits is the record of a selected entry |
| RssApp.TitleAndDateDecide | rss_service/app.py:33-43 | two entries with the same title and `published` are kept or dropped alike: nothing else is tested |
| RssApp.FilterSound | rss_service/app.py:31-51 | every emitted record is the record of some selected entry, and there are no more records than entries |
| RssApp.FilterComplete | rss_service/app.py:31-51 | every selected entry's record is emitted |
| RssApp.EmittedFields | rss_service/app.py:45-50 | a record has exactly `service='rss'`, the title, `url=link` and the ISO date: no language or country |
| RssApp.CriteriaOf | rss_service/app.py:23-28 | the query is lowered, the exclude terms are split from the lowered argument, and there is no language or country filter |
| RssApp.Articles | rss_service/app.py:22-51 | the handler returns the filter of the feed entries, or the error of an unparsable window bound |
| YoutubeApp.Included | youtube_service/app.py:54-55 | an empty query includes every video; otherwise inclusion is `match_query` against the title only, and a truthy non-string title raises |
| YoutubeApp.Excluded | youtube_service/app.py:56-57 | no exclude terms exclude nothing; a video is excluded only when some term occurs in its lowered title, and a non-string title raises when there are terms |
| YoutubeApp.StepSpec | youtube_service/app.py:50-70 | a video is emitted exactly when it is included and not excluded, and then as its record |
| YoutubeApp.MissingTitleRaises | youtube_service/app.py:51 | a video without `title` raises a `KeyError` |
| YoutubeApp.KeptIsSelected | youtube_service/app.py:50-70 | whatever one step emits is the record of a selected video |
| YoutubeApp.FilterSound | youtube_service/app.py:49-72 | every emitted record is the record of some selected video, and there are no more records than videos |
| YoutubeApp.FilterComplete | youtube_service/app.py:49-72 | every selected video's record is emitted |
| YoutubeApp.Records | youtube_service/app.py:59-70 | one record per video |
| YoutubeApp.NoFilterKeepsAll | youtube_service/app.py:41-72 | with no query and no exclude terms every video is emitted, in order: there is no date, language or country filter |
| YoutubeApp.RecordFields | youtube_service/app.py:59-69 | a record has `service='youtube'`, `id=videoId`, `texte=title`, the URL `https://www.youtube.com/watch?v=<videoId>` and `auteur=""` without a channel title |
| YoutubeApp.Articles | youtube_service/app.py:41-72 | the handler fetches `n` videos (1000 by default) with the query and returns the filter of the videos, or the `ValueError` of a non-integer `n` |
| YoutubeApp.BadCountFails | youtube_service/app.py:45 | a non-integer `n` fails the request with `ValueError`, whatever the videos |
| PresseApp.Tag | presse_service/app.py:55 | tagging sets `service` to the extractor's name and leaves every other field as it was |
| PresseApp.Picked | presse_service/app.py:45-56 | no more items are kept than the extractor returned |
| PresseApp.PickLoop | presse_service/app.py:45-56 | the loop over one extractor's items keeps, tagged and in order, the items the include and exclude tests let through |
| PresseApp.PickedSound | presse_service/app.py:46-56 | every kept item is a tagged item whose title and description contain the lowered query literally and no exclude term |
| PresseApp.PickedComplete | presse_service/app.py:46-56 | every such item is kept, tagged |
| PresseApp.Targets | presse_service/app.py:40 | the targets are the one given service, or every listed extractor in list order |
| PresseApp.GatheredFailsIff | presse_service/app.py:42-58 | the handler raises exactly when some target's extractor raises something other than `ImportError` |
| PresseApp.GatheredFailsStep | presse_service/app.py:42-58 | one more target makes the handler raise exactly when it had raised already or that target's extractor raises something other than `ImportError` |
| PresseApp.GatheredFailureSticks | presse_service/app.py:42-58 | once a target raised, the later targets change nothing |
| PresseApp.GatheredSound | presse_service/app.py:42-58 | every result is an item of some target's extractor that passes the filters, tagged with that target |
| PresseApp.GatheredComplete | presse_service/app.py:42-58 | every item of a known target's extractor that passes the filters is in the result, tagged |
| PresseApp.UnknownServiceEmpty | presse_service/app.py:43-58 | an unknown service is skipped silently and gives `[]` |
| PresseApp.Articles | presse_service/app.py:28-59 | the nested loop computes the gathered, filtered and tagged items of the targets |
| PresseApp.Collect | presse_service/app.py:12-26 | 400 exactly for a missing or empty site and for a site `get_extractor` rejects; otherwise the count of the extractor's articles |
| PresseApp.ListedSitesCollect | presse_service/app.py:12-26 | a listed site never gets a 400 |
| Extractors.GetExtractor | presse_service/extractors/__init__.py:1-12 | an accepted name is the name of the extractor returned |
| Extractors.ListExtractors | presse_service/extractors/__init__.py:14-19 | the listing has four names |
| Extractors.NameRoundTrip | presse_service/extractors/__init__.py:1-12 | each of `gfm`, `rts`, `senepeople`, `lequotidien` gets its own extractor |
| Extractors.ListingAgrees | presse_service/extractors/__init__.py:1-19 | a name is accepted by `get_extractor` exactly when `list_extractors()` lists it |
| Extractors.ListingOrder | presse_service/extractors/__init__.py:19 | the listing is `gfm`, `rts`, `senepeople`, `lequotidien`, in that order, without repeats |
| RssScraper.ContainsKeywordsIff | rss_service/rss_scraper.py:52-57 | true exactly when the lowered text contains `sonko`, `diomaye`, `newdealtechnologique` or `mntc` |
| RssScraper.KeywordsIgnoreCase | rss_service/rss_scraper.py:55-57 | lower-casing the text first never changes the answer |
| RssScraper.EntryDate | rss_service/rss_scraper.py:64-70 | the entry date is `published_parsed` when present, else `updated_parsed` |
| RssScraper.CutoffInclusive | rss_service/rss_scraper.py:53-73 | an entry is recent exactly when its day is 2025-07-01 or later: the cutoff itself is kept |
| RssScraper.RawStepSpec | rss_service/rss_scraper.py:63-94 | `parse_rss` keeps an entry exactly when it has a date, is recent and its title+`"\n\n"`+summary has a keyword; the record has the link's digest as id, `source='rss'`, that text as `texte`, the ISO date, the feed title and `[]` as tags without tags |
| RssScraper.ParseRssSound | rss_service/rss_scraper.py:59-95 | every record has `source='rss'` and a keyword in its text, and carries the date of some kept entry |
| RssScraper.ParseRss | rss_service/rss_scraper.py:59-95 | the loop over the feed's entries computes the gather of the per-entry steps |
| RssScraper.LinesRoundTrip | rss_service/rss_scraper.py:100 | `splitlines()` gives back URLs written one per line, in order, with an unterminated last line kept and no empty line after a final break; no line holds a Python line break |
| RssScraper.CrLfIsOneBreak | rss_service/rss_scraper.py:100 | `\r\n` ends one line, not two |
| Text.SplitLinesCons | rss_service/rss_scraper.py:100 | a line ended by `\n`, `\r\n` or any other break is split off whole and its end dropped |
| Text.SplitUnlines | rss_service/rss_scraper.py:100 | splitting lines written one per line gives them back, followed by the lines of whatever text comes after |
| RssScraper.CollectedFailureSticks | rss_service/rss_scraper.py:101-102 | once a feed raised, the later feeds change nothing |
| RssScraper.CollectedAppend | rss_service/rss_scraper.py:101-102 | collecting two lists of feeds is collecting each and concatenating, in order |
| RssScraper.CollectAll | rss_service/rss_scraper.py:97-103 | the loop extends the list with each feed's records in file order |
| RssScraper.StrippedNonBlank | rss_service/rss_scraper.py:108 | there are no more feed URLs than lines |
| RssScraper.FeedUrlsClean | rss_service/rss_scraper.py:108 | every feed URL is non-empty and stripped |
| RssScraper.FeedUrlsComplete | rss_service/rss_scraper.py:108 | every non-blank line gives its stripped URL |
| RssScraper.BlankLinesIgnored | rss_service/rss_scraper.py:108 | a blank line adds no URL |
| RssScraper.PickSpec | rss_service/rss_scraper.py:112-140 | an entry is emitted exactly when it has a date, is recent and its title+`"\n\n"`+summary has a keyword; then as exactly `{title, link, published}` with its ISO date |
| RssScraper.Picks | rss_service/rss_scraper.py:112-140 | no more records than entries |
| RssScraper.PicksSound | rss_service/rss_scraper.py:112-140 | every record is the pick of some entry |
| RssScraper.PicksComplete | rss_service/rss_scraper.py:112-140 | every entry's pick is emitted |
| RssScraper.PickEntries | rss_service/rss_scraper.py:112-140 | the loop over one feed's entries appends their picks in order |
| RssScraper.FetchedAppend | rss_service/rss_scraper.py:110-140 | records of two lists of feeds are those of each, in feed order |
| RssScraper.FetchedSound | rss_service/rss_scraper.py:110-140 | every record is the pick of some entry of some feed |
| RssScraper.FetchedComplete | rss_service/rss_scraper.py:110-140 | every pick of every feed is emitted |
| RssScraper.FetchRssArticles | rss_service/rss_scraper.py:105-140 | the nested loop emits the picks of the entries of the stripped, non-blank feed URLs (lines ended by `\n`, `\r\n` or `\r`), feed then entry order |
| RssScraper.FetchedStep | rss_service/rss_scraper.py:110-140 | one more feed URL appends that feed's kept entries after those of the URLs before it |
| RssScraper.NonBlankClean | rss_service/rss_scraper.py:108 | a line that passes `line.strip()` gives a non-empty URL with no surrounding whitespace |
| Loops.PickedSound | rss_service/rss_scraper.py:112-140 | every record a keep-some loop appends is the pick of some item |
| Loops.PickedComplete | rss_service/rss_scraper.py:112-140 | every item that has a pick gets it appended |
| Loops.FlattenedAppend | rss_service/rss_scraper.py:110-140 | running the `for url` loop over two lists of feeds gives the records of each list, in order |
| Loops.FlattenedSound | rss_service/rss_scraper.py:110-140 | every record appended belongs to the records of some feed |
| Loops.FlattenedComplete | rss_service/rss_scraper.py:110-140 | every record of every feed is appended |
| Loops.CollectAppend | rss_service/rss_scraper.py:101-102 | when no feed raises, extending over two lists of feeds gives each list's records, in order |
| Loops.CollectFailureSticks | rss_service/rss_scraper.py:101-102 | once a feed raised, the loop ends with that error whatever feeds follow |
| AiService.Truncated | ai_service/app.py:67 | only the first 20 articles are used: a prefix of the list, all of it when it is shorter |
| AiService.Pieces | ai_service/app.py:72-74 | one `"title – description"` piece per article, in order |
| AiService.TextBlockSplits | ai_service/app.py:72-74 | splitting the text block on blank lines gives the pieces back, when no piece holds a blank line |
| AiService.Order | ai_service/app.py:76-98 | the stats lines present, in the fixed order Total, Top sources, Timeline, Sentiment |
| AiService.StatsLinesOrder | ai_service/app.py:76-98 | the stats block holds one line per present item, each the line of its item, in that order |
| AiService.ZeroTotalShown | ai_service/app.py:77-79 | a total of 0 still gives the first line `Total mentions: 0` |
| AiService.StatsParts | ai_service/app.py:76-98 | the successive appends to `parts` build the stats lines |
| AiService.Tokens | ai_service/app.py:51-54 | falsy deltas are never yielded: every token is non-empty, and there are no more tokens than deltas |
| AiService.TokensKeepText | ai_service/app.py:51-54 | dropping empty deltas keeps the text of the completion |
| AiService.Frames | ai_service/app.py:116-117 | one `"data: <token>\n\n"` frame per token, in order |
| AiService.GeneratedEnds | ai_service/app.py:114-120 | the stream ends with `"data: [DONE]\n\n"` exactly when the completion did not fail, else with the one `"data: [ERROR] <msg>\n\n"` frame; no earlier frame is the done frame |
| AiService.Generate | ai_service/app.py:114-120 | the generator yields the token frames, then the done or error frame |
| AiService.Report | ai_service/app.py:64-122 | 400 exactly when no article was supplied; otherwise the event frames of the completion of the prompt |
| AiService.LinesFrameAgrees | ai_service/app.py:117 | for a token without a line break the corrected framing is the frame as written |
| AppStream.AsWritten | frontend/src/App.jsx:135-136 | a part is data exactly when it starts with `"data: "`, and its token is the rest of the part |
| AppStream.Handle | frontend/src/App.jsx:134-140 | handling the parts stops exactly when some part's token is `[DONE]` |
| AppStream.HandleAppend | frontend/src/App.jsx:134-140 | handling two runs of parts is handling the first, then (unless it stopped) the second, the report growing by its tokens |
| AppStream.Pending | frontend/src/App.jsx:132-133 | the carried fragment never holds a `"\n\n"` |
| AppStream.FramedAppend | frontend/src/App.jsx:131-133 | a new chunk completes the parts of the carried fragment plus the chunk; the parts seen so far stay as they were |
| AppStream.StopIsFinal | frontend/src/App.jsx:137 | once `[DONE]` was read, nothing that arrives later changes the report |
| AppStream.ReceivedAppend | frontend/src/App.jsx:128-141 | reading one more chunk adds the tokens of the parts it completes |
| AppStream.HandleParts | frontend/src/App.jsx:134-140 | the loop over the parts appends their tokens and returns at `[DONE]` |
| AppStream.ReadStream | frontend/src/App.jsx:127-141 | the read loop over the chunks gives the report of the concatenated stream, whatever the chunk boundaries |
| AppStream.Events | ai_service/app.py:117 | each event is its data followed by the blank-line separator |
| AppStream.EventsFramed | frontend/src/App.jsx:132-133 | splitting a run of events without blank lines inside gives their data back |
| AppStream.EventsRead | frontend/src/App.jsx:127-141 | reading a run of data events, none `[DONE]`, reports their tokens in order |
| AppStream.FramesRead | frontend/src/App.jsx:127-141 | reading the frames of tokens without a line break, none `[DONE]`, reports their concatenation |
| AppStream.EmptyRead | frontend/src/App.jsx:127 | an empty stream reports nothing and does not stop |
| AppStream.DoneFrameRead | frontend/src/App.jsx:137 | the done frame stops the reader and adds nothing |
| AppStream.ErrorFrameRead | frontend/src/App.jsx:135-138 | the error frame is appended to the report as `"[ERROR] <msg>"`: the client does not recognise it |
| AppStream.Closing | ai_service/app.py:118-120 | the generated stream is the token frames followed by one closing frame |
| AppStream.GeneratedRead | ai_service/app.py:114-120 | reading the whole generated stream reports every delta, in order, then what the closing frame adds |
| AppStream.ReportRoundTrip | frontend/src/App.jsx:127-141 | for deltas without a line break and not `[DONE]`, a successful stream reads back as their concatenation and stops |
| AppStream.ReportErrorTrip | frontend/src/App.jsx:127-141 | a failed stream reads back as the deltas followed by `"[ERROR] <msg>"`, and does not stop |
| AppStream.NewlineDeltaLost | ai_service/app.py:117 | as written, the deltas `"a\n"`, `"b"` read back as `"a"`: the frame of a token ending in a line break runs into the next and that token is lost |
| AppStream.NewlineDeltaFrames | ai_service/app.py:117 | the frames of `"a\n"`, `"b"` run together as `"data: a\n\n\ndata: b\n\n"` |
| AppStream.DecodeLines | frontend/src/App.jsx:135-136 | the corrected decoder accepts a part exactly when it starts with `"data: "` |
| AppStream.DataLinesDecode | ai_service/app.py:117 | one `data:` line per line of the token holds no blank line and decodes back to the token |
| AppStream.LinesRoundTrip | frontend/src/App.jsx:127-141 | with one `data:` line per token line, any deltas other than `[DONE]` read back as their concatenation |
| App.Field | frontend/src/App.jsx:82 | an absent or empty field reads as `""`, any other as its value |
| App.WireInjective | frontend/src/App.jsx:50-57 | distinct parameters go out under distinct names |
| App.AppendIf | frontend/src/App.jsx:50-57 | one guarded `p.append`: the parameter is appended exactly when its condition holds |
| App.BuildParams | frontend/src/App.jsx:48-59 | the successive guarded appends build the parameter list of the search and service |
| App.CountConcat | frontend/src/App.jsx:49-57 | the occurrences of a name in two lists of parameters add up |
| App.OnlyValue | frontend/src/App.jsx:49-57 | a name sent once has one value |
| App.NoneLeft | frontend/src/App.jsx:49-57 | a name never sent carries no value |
| App.CountWhen | frontend/src/App.jsx:50-57 | a guarded append sends its name once when its condition holds, never otherwise |
| App.CountBuild | frontend/src/App.jsx:50-57 | each name is sent as often as the appends that carry it fire |
| App.BuildSpec | frontend/src/App.jsx:50-55 | each of `q`, `exclude`, `country`, `lang`, `start`, `end` is sent once with its value when its condition holds, never otherwise |
| App.TextSent | frontend/src/App.jsx:50-51 | `q` and `exclude` are each sent once when their condition holds, never otherwise |
| App.PlaceSent | frontend/src/App.jsx:52-53 | `country` and `lang` are each sent once when their condition holds, never otherwise |
| App.PeriodSent | frontend/src/App.jsx:54-55 | `start` and `end` are each sent once when their condition holds, never otherwise |
| App.BuildLimit | frontend/src/App.jsx:56-57 | `n` is sent as often as the two limit appends fire, with their values |
| App.LinkedinApart | frontend/src/App.jsx:56-57 | `linkedin` is not among `reddit`, `twitter`, `youtube`, so the two limit appends never both fire |
| App.ParamsSpec | frontend/src/App.jsx:48-59 | `q` and `exclude` are sent trimmed exactly when not blank, `country`, `lang`, `start`, `end` exactly when non-empty, each once; `n=1000` exactly once for reddit, twitter, youtube and linkedin, and never otherwise |
| App.QueryString | frontend/src/App.jsx:58 | the query string is empty exactly when no parameter was appended |
| App.Url | frontend/src/App.jsx:159-160 | the URL is the endpoint alone exactly when there is no parameter, and always starts with the endpoint |
| App.Tag | frontend/src/App.jsx:166 | every article gets the service's label as `service`, every other field unchanged, the list in order |
| App.Hits | frontend/src/App.jsx:96-97 | a word list adds at most its length to the score |
| App.HitsAreFound | frontend/src/App.jsx:96-97 | a list of distinct words adds the number of distinct words the text contains |
| App.WordListsDistinct | frontend/src/App.jsx:61-68 | no word repeats within a list, and no word is both positive and negative |
| App.Score | frontend/src/App.jsx:95-97 | the score lies between minus the number of negative words and the number of positive words |
| App.ScoreCountsWords | frontend/src/App.jsx:61-68 | the score is the number of distinct positive words the text contains minus that of the negative ones: each counts at most once |
| App.ScoreText | frontend/src/App.jsx:95-97 | the two `forEach` loops compute the score |
| App.TaggedSource | frontend/src/App.jsx:83-84 | an article tagged with a non-empty service label is counted under that label |
| App.Sources | frontend/src/App.jsx:83-90 | one source key per article, in order |
| App.DaysSpec | frontend/src/App.jsx:92 | the days exist exactly when every article's date is valid, and then are one day per article, in order |
| App.MoodsSpec | frontend/src/App.jsx:98-100 | each article lands in exactly one bucket: positive, negative and neutral count the articles scored above, below and at zero, and add up to the total |
| App.ComputeStats | frontend/src/App.jsx:70-113 | the `forEach` over the articles followed by the sorts computes the statistics, or raises at an invalid date |
| App.StatsStep | frontend/src/App.jsx:81-101 | one more article bumps its source's count, adds its day (or fails) and moves its sentiment bucket |
| App.DaysStop | frontend/src/App.jsx:92 | once an invalid date was met, the whole computation raises |
| App.StatsSpec | frontend/src/App.jsx:70-113 | the statistics raise exactly when some date is invalid; otherwise `totalMentions` is the number of articles, the buckets add up to it, the timeline has one entry per day in ascending order with counts summing to it, and `topSources` holds at most 5 sources by descending count, each with its number of articles |
| App.TimelineSpec | frontend/src/App.jsx:108-110 | the timeline has one entry per day, strictly ascending, each counting that day's articles, the counts summing to the number of days |
| App.TopSourcesSpec | frontend/src/App.jsx:103-106 | at most 5 sources, by descending count, each counting its articles |
| App.TimelineCounts | frontend/src/App.jsx:108-110 | each timeline entry counts the articles of its day |
| App.TimelineDays | frontend/src/App.jsx:108-110 | a day has a timeline entry exactly when some article falls on it |
| App.Filtered | frontend/src/App.jsx:200 | the client filter keeps no more articles than it got |
| App.FilteredAppend | frontend/src/App.jsx:200-207 | filtering is per article and keeps the order: filtering two lists is filtering each |
| App.FilteredSpec | frontend/src/App.jsx:200-207 | every article kept passes the filter, and every article that passes is kept |
| App.KeptLenient | frontend/src/App.jsx:201-205 | an article without a valid date ignores the period, and one without `langue` or `country` ignores that filter; an article at `end` 23:59:59 is kept as if there were no end |
| App.KeptIgnoresCase | frontend/src/App.jsx:204-205 | the language and country filters ignore case |
| App.FilterAllWhenBlank | frontend/src/App.jsx:200-207 | with every search field empty, every article is kept, in order |
| App.FilteredFull | frontend/src/App.jsx:200-207 | with no period, language or country every article is kept, in order, whatever the query and exclusion |
| AiReport.ItemText | frontend/src/components/AIReport.jsx:22-24 | a list item is the trimmed line with its two-character marker removed |
| AiReport.NonBlank | frontend/src/components/AIReport.jsx:17 | the filter keeps no more lines than it got, and none of them is blank |
| AiReport.NonBlankSpec | frontend/src/components/AIReport.jsx:17 | a line is kept exactly when it is in the text and not blank |
| AiReport.Shown | frontend/src/components/AIReport.jsx:22-37 | a line becomes a list item exactly when its trimmed form starts with `- ` or `* `; any other line is shown as it is |
| AiReport.ShownAll | frontend/src/components/AIReport.jsx:21-38 | one shape per line, in order |
| AiReport.RenderSummary | frontend/src/components/AIReport.jsx:16-51 | the `forEach` with its pending list items, and the final flush, compute the rendered blocks |
| AiReport.RunPrefix | frontend/src/components/AIReport.jsx:21-38 | the rendering after one more line is one more step |
| AiReport.Marks | frontend/src/components/AIReport.jsx:28-32 | one list entry per pending item, in order |
| AiReport.FlattenSnoc | frontend/src/components/AIReport.jsx:27-36 | the lines shown by the blocks of two lists are those of each, in order |
| AiReport.RunSpec | frontend/src/components/AIReport.jsx:21-38 | after any number of lines, the blocks and the pending items together show every line, in order, and no list follows a list |
| AiReport.StepSpec | frontend/src/components/AIReport.jsx:22-37 | one more line keeps that invariant |
| AiReport.ParagraphStep | frontend/src/components/AIReport.jsx:26-36 | a paragraph line closes the pending list and then follows it, keeping every line in order |
| AiReport.WellFormedParagraph | frontend/src/components/AIReport.jsx:36 | a paragraph may follow any block |
| AiReport.CloseSpec | frontend/src/components/AIReport.jsx:26-35 | closing the pending list adds its items after the blocks, as one list |
| AiReport.SummarySpec | frontend/src/components/AIReport.jsx:16-51 | the rendered summary shows every non-blank line exactly once, in order, each as an item or a paragraph, and never two lists in a row |
| AiReport.ReportPanel | frontend/src/components/AIReport.jsx:53-56 | the placeholder exactly when no summary, sentiment or statistics are given; otherwise a summary is shown only when given, and a sentiment exactly when given |
| AiReport.ArticlesPanelAsWritten | frontend/src/App.jsx:304-306 | the articles tab, as written, always shows the placeholder |
| AiReport.ArticlesPanel | frontend/src/App.jsx:304-306 | with the streamed report passed as the summary, the placeholder appears exactly when nothing was streamed, and otherwise every non-blank line is shown, in order |
| AiReport.StreamedReportHidden | frontend/src/App.jsx:304-306 | a report with a line to show is hidden as written and shown by the corrected tab |
| InsightReport.Origin | frontend/src/components/InsightReport.jsx:52-62 | the source key is never empty: the service when set, else the URL's host when it parses and is not empty |
| InsightReport.Origins | frontend/src/components/InsightReport.jsx:52-63 | one source key per article, in order |
| InsightReport.Years | frontend/src/components/InsightReport.jsx:43-46 | no more years than articles |
| InsightReport.UseMetrics | frontend/src/components/InsightReport.jsx:31-68 | the `forEach` over the articles computes the metrics |
| InsightReport.MetricsStep | frontend/src/components/InsightReport.jsx:41-64 | one more article bumps its year when its date is valid, moves the first and last dates, and bumps its source |
| InsightReport.YearsStep | frontend/src/components/InsightReport.jsx:43-46 | one more article bumps its year exactly when its date is valid |
| InsightReport.EarliestSpec | frontend/src/components/InsightReport.jsx:47 | the first date is absent exactly when no date is valid; otherwise it is some article's date and no valid date is earlier |
| InsightReport.LatestSpec | frontend/src/components/InsightReport.jsx:48 | the last date is absent exactly when no date is valid; otherwise it is some article's date and no valid date is later |
| InsightReport.YearsSpec | frontend/src/components/InsightReport.jsx:43-46 | one year per article with a valid date |
| InsightReport.DatesSpec | frontend/src/components/InsightReport.jsx:47-48 | the first and last dates are both absent or both present, absent exactly when no date is valid, and then the first is no later than the last |
| InsightReport.MetricsSpec | frontend/src/components/InsightReport.jsx:31-68 | `total` is the number of articles; the source counts add up to it, once per key, each counting its articles; the year counts add up to the dated articles; first and last dates as above |
| InsightReport.ChartDataSpec | frontend/src/components/InsightReport.jsx:109-116 | the yearly data are the year counts by increasing year; the source data are at most 8 source counts, by decreasing count, none left out counting more |
| InsightReport.YearsSpanSpec | frontend/src/components/InsightReport.jsx:120 | the period reads `n/a` exactly when no date is valid |
| InsightReport.Insight | frontend/src/components/InsightReport.jsx:118-128 | the placeholder exactly when there is no article; otherwise the number of articles and of distinct sources |
| InsightReport.UniqueSourcesSpec | frontend/src/components/InsightReport.jsx:128 | a non-empty list has at least one and at most as many sources as articles |
| ArticleCharts.TimelineData | frontend/src/components/ArticleCharts.jsx:9-18 | the `forEach` counting per day, then the sort, compute the timeline, or raise at an invalid date |
| ArticleCharts.DayStep | frontend/src/components/ArticleCharts.jsx:11-14 | one more article adds its day, or fails at an invalid date |
| ArticleCharts.TimelineDataSpec | frontend/src/components/ArticleCharts.jsx:9-18 | the timeline raises exactly when some date is invalid; otherwise one entry per day, strictly ascending, each counting that day's articles, the counts adding up to the number of articles |
| ArticleCharts.Domains | frontend/src/components/ArticleCharts.jsx:49-54 | no more domains than articles |
| ArticleCharts.DomainsSpec | frontend/src/components/ArticleCharts.jsx:49-54 | a domain is counted exactly when some article's URL parses to it |
| ArticleCharts.DomainData | frontend/src/components/ArticleCharts.jsx:48-59 | the `forEach` counting per host, then the sort and slice, compute the 8 largest domain counts |
| ArticleCharts.DomainStep | frontend/src/components/ArticleCharts.jsx:50-53 | one more article bumps its host exactly when its URL parses |
| ArticleCharts.SomeDomain | frontend/src/components/ArticleCharts.jsx:49-54 | some domain is counted exactly when some article's URL parses |
| ArticleCharts.TopCounts | frontend/src/components/ArticleCharts.jsx:56-59 | each of the largest entries counts the articles of its domain |
| ArticleCharts.TopEmpty | frontend/src/components/ArticleCharts.jsx:56-61 | the largest entries are none exactly when nothing was counted |
| ArticleCharts.DomainChartSpec | frontend/src/components/ArticleCharts.jsx:47-61 | the domain chart is shown exactly for `rss` and `presse` when some URL parses; at most 8 domains, by decreasing count, each counting its articles, none left out counting more |
| ArticleCharts.ChartsOf | frontend/src/components/ArticleCharts.jsx:20-25 | the placeholder exactly when there is no article; otherwise the charts with the timeline, unless a date is invalid and the timeline raises |
| ArticleList.FirstFieldSpec | frontend/src/components/ArticleList.jsx:4-7 | no label exactly when every field is empty; otherwise the first non-empty field in order |
| ArticleList.StripWww | frontend/src/components/ArticleList.jsx:9 | a host starting with `www.` loses it; a host without `www.` is unchanged |
| ArticleList.ResolveSpec | frontend/src/components/ArticleList.jsx:3-13 | the first of service, publisher, source and site that is set; else the URL's host without `www.` when it parses; else `Source inconnue` |
| ArticleList.SpaceRun | frontend/src/components/ArticleList.jsx:18 | `\s*` takes the longest run of spaces |
| ArticleList.PrefixLength | frontend/src/components/ArticleList.jsx:18 | the matched prefix lies within the label |
| ArticleList.StripLinkedinSpec | frontend/src/components/ArticleList.jsx:18 | a label not starting with `linkedin` (any case) is unchanged; otherwise the prefix removed is `linkedin`, spaces, at most one separator and spaces, as long as the pattern allows |
| ArticleList.OrSource | frontend/src/components/ArticleList.jsx:18 | the trimmed label, or `Source` when it is blank: never empty and never padded |
| ArticleList.FormatSource | frontend/src/components/ArticleList.jsx:15-21 | a LinkedIn article gets a non-empty, unpadded label; any other article its resolved source |
| ArticleList.LabelKept | frontend/src/components/ArticleList.jsx:18 | a trimmed label not starting with `linkedin` is kept as it is |
| ArticleList.LinkedinDefault | frontend/src/components/ArticleList.jsx:17 | a LinkedIn article without source, publisher or site is labelled `Source` |
| ArticleList.ExamplePrefix | frontend/src/components/ArticleList.jsx:18 | `LinkedIn · Acme` loses its prefix and becomes `Acme` |
| ArticleList.ExampleArticle | frontend/src/components/ArticleList.jsx:16-17 | an article of service `LinkedIn` with source `LinkedIn · Acme` is from LinkedIn and takes that source |
| ArticleList.LinkedinExample | frontend/src/components/ArticleList.jsx:15-21 | such an article is labelled `Acme` |
| ArticleList.Excerpt | frontend/src/components/ArticleList.jsx:62-64 | the excerpt is at most 153 characters |
| ArticleList.ExcerptSpec | frontend/src/components/ArticleList.jsx:62-64 | a description of at most 150 characters is shown whole; a longer one as its first 150 characters and `...` |
| ArticleList.CardOf | frontend/src/components/ArticleList.jsx:35-87 | a card has a link exactly when the URL is set, a description and an author exactly when those are set, and the description is at most 153 characters |
| ArticleList.ArticleListOf | frontend/src/components/ArticleList.jsx:23-35 | the placeholder exactly when there is no article; otherwise one card per article, in order |
| AiService.TokensFromDeltas | ai_service/app.py:52-54 | every token yielded is one of the deltas received |
| AppStream.HandleAll | frontend/src/App.jsx:134-140 | handling data parts none of which is `[DONE]` appends all their tokens, in order, and does not stop |
| AppStream.DataEvents | ai_service/app.py:117 | the frames of tokens without a line break are events whose data the client decodes back to the tokens |
| AppStream.ErrorFramed | ai_service/app.py:120 | the error frame of a message without a line break is one part, `data: [ERROR] <msg>` |
| LinkedInClient.SkipJunk | linkedin_service/linkedin_client.py:93 | the run matched by `[^a-z0-9]+` at the head of a text is skipped: what is left is a suffix, empty or starting with a letter or digit |
| LinkedInClient.DashRunsFixed | linkedin_service/linkedin_client.py:117 | a text already made of slug characters with single dashes is left unchanged |
| Filters.GatherShorter | linkedin_service/app.py:57-90 | the loop keeps no more records than items |
| Filters.GatherKeeps | linkedin_service/app.py:57-90 | the record of every item whose step emits one is in the output |
| Filters.GatherMember | linkedin_service/app.py:57-90 | every output record was emitted by some item's step |
| LinkedInClient.ThreeWords | linkedin_service/linkedin_client.py:117 | three words separated by two runs of other characters become the words joined by single dashes |
| LinkedInClient.SlugExample | linkedin_service/linkedin_client.py:100-101 | `"Sonko, Diomaye Faye"`, which folding leaves as it is, slugs to `"sonko-diomaye-faye"` |

## Left out

- Network clients and pagination are not part of this model: the YouTube, Twitter and Reddit clients, Twitter's sleep-and-retry, and the SerpAPI paging loop in linkedin_service/linkedin_client.py. A fetch is a given sequence of items, or the error it raised.
- The press HTML scrapers (presse_service/extractors/rts.py, gfm.py and the others) are not part of this model. An extractor is a function from site name to items or an error.
- The OpenAI call is an abstract completion: a sequence of deltas, and possibly the error that ended it.
- Flask routing, `request.args`, `jsonify`, CORS, dotenv and the service configuration are left out. Each handler takes its arguments as values and returns its JSON as a value.
- Snapshot files are a map from path to item list. JSON encoding, the file system, and a file that exists but fails to decode are not modelled.
- The clock (`date.today()`, `datetime.utcnow()`, `datetime.now()`) is a parameter.
- Python's microseconds and JavaScript's milliseconds are not modelled. Times count whole seconds.
- Lower-casing, trimming, `\s`, `\d`, `int()` and the `/i` flag are modelled on ASCII only. Python's `str.lower` and JavaScript's `toLowerCase` also map non-ASCII letters, for example the Kelvin sign to `k`. Python's `\d` and `int()` also accept any Unicode decimal digit, such as the Arabic-Indic digits.
- LinkedInClient.RelativeMatchAccepts: states the match for ASCII digits only. As written, `\d` and `int()` also read other decimal digits, so `"٣d"` is a 3-day offset in the source but `Other` here.
- Text.IntOf: reads ASCII digits only; Python's `int()` also reads other Unicode decimal digits, so the `n` argument `"٣"` is 3 in the source but a `ValueError` here.
- Text.IsSpace: is the ASCII whitespace of JavaScript's `trim()`. Python's `strip()`, `split()` and `\s` also treat the separators U+001C to U+001F as whitespace, and both languages treat non-ASCII spaces such as U+00A0 and U+2028 as whitespace. The model does not.
- Time-zone offsets are not modelled. Every date-time is naive, and `isoformat()` gives the 19-character form. As written, Reddit's `.astimezone()` appends the local `+HH:MM` offset, a Twitter date appends `+00:00`, and an isoparsed LinkedIn or RSS date keeps any offset it carried.
- RedditApp.EmittedFields: the date is stated without the `+HH:MM` suffix that `.astimezone().isoformat()` appends.
- TwitterApp.EmittedFields: the date is stated without the `+00:00` suffix of the aware UTC date.
- LinkedInClient.PostRecordFields: the 19 characters are the naive date; a resolved date carrying an offset would add its `+HH:MM` suffix.
- LinkedInApp.EmittedFields: the ISO date of an item with an offset would carry its `+HH:MM` suffix, which is not modelled.
- RssApp.EmittedFields: the ISO date of an item with an offset would carry its `+HH:MM` suffix, which is not modelled.
- LinkedInClient.RecordsAt: states the records of the corrected resolver, which never raises. `search_posts` as written raises instead; LinkedInClient.SearchAsWrittenSpec states that, and the snapshot store uses it.
- LinkedInClient.SearchResultsSpec: states the search with the corrected resolver. As written the search raises; see LinkedInClient.SearchAsWrittenSpec.
- String lengths count characters. JavaScript counts UTF-16 code units, so a description with characters outside the Basic Multilingual Plane is cut at a different point.
- The following are opaque functions: `isoparse`, dateutil's `parse`, langdetect, tldextract, feedparser, md5, NFKD folding, `new Date`, `new URL`, `toISOString`, `getFullYear` and `URLSearchParams` percent-encoding. The properties hold for any such function, and where one depends on a function's behaviour it says so in its `requires`.
- `localeCompare` on the timeline's `YYYY-MM-DD` keys is modelled as character-code order. The two agree on such keys.
- `Object.entries` order is modelled as insertion order. JavaScript lists integer-like keys, such as the years of `byYear`, first and in ascending order. The yearly data are sorted by year afterwards, so the result is the same.
- Floating point is left out: the `toFixed` averages, the pie-chart percentages, and float fields in fetched items.
- Rendering is left out: JSX markup, recharts, styles, React state and effects, and the date display with `toLocaleDateString`. The model keeps what each component decides to show.
- Concurrency is left out: the `Promise.allSettled` fan-out over the services and the asynchronous reads of the response body. The report reader takes the chunks as a sequence.
- The `TextDecoder` is left out. Chunks are already decoded text.
- The commented-out code at the top of rss_service/rss_scraper.py is left out.
- LinkedInClient.SlugExample: holds for any folding that leaves this ASCII text unchanged, as NFKD folding does. The fold itself is not modelled.
- LinkedInClient.SearchPosts: the paging loop is not modelled. It takes the fetched posts as given.
- YouTube's raw `/collect` route (youtube_service/app.py:17-35) is not part of this model. It writes a dated dump file that no filter chain reads.
- The SearchBar, DateRangePicker and ServiceSelector components and the vite proxy configuration are not part of this model.
- The report request's failure paths in frontend/src/App.jsx are left out, because the model starts from the chunks already read. A response without a body (line 124) ends the report with nothing read. An error thrown by the request or the reader (lines 142-144) replaces the report with `{ stats }`.
- The rapport tab (frontend/src/App.jsx:318-323) is left out. It reads `summary`, `sentiment` and `stats` off the streamed report, which is a string, so the streamed text is not shown there either. Only the articles tab is modelled.

## Findings

| source | as written | input that shows it | evidently intended | confidence | as-written member | corrected member |
|---|---|---|---|---|---|---|
| linkedin_service/linkedin_client.py:61-71 | a fuzzy offset is subtracted from `now` outside the `try`, so an offset in years reaching back before year 1 raises; the record loop has no `try` either, so the whole search fails and `/collect` saves nothing | the date `"3000y"` on any day of 2026 | a date that cannot be resolved falls back to `now`, as the parser branch does, and the search gives one record per post | not executed | LinkedInClient.LargeYearOffsetFailsSearch | LinkedInClient.SearchResultsSpec |
| ai_service/app.py:117 | each token is framed as one `data:` line whatever it contains, so a token ending in a line break runs into the blank-line separator and the client drops the next token | deltas `"a\n"`, `"b"`: the client reads `"a"` | one `data:` line per line of the token, re-joined with line breaks by the reader, as the server-sent events standard frames multi-line data | not executed | AppStream.NewlineDeltaLost | AppStream.LinesRoundTrip |
| frontend/src/App.jsx:304-306 | the articles tab renders `<AIReport text={aiReport} />`, but `AIReport` reads only `summary`, `sentiment` and `stats`, so the streamed report is never shown | any non-blank streamed report | the streamed text is passed as the summary and rendered by `renderSummary` | not executed | AiReport.StreamedReportHidden | AiReport.ArticlesPanel |
