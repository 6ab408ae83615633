/**
 * The article list of the frontend: one card per article, with the source label worked out from
 * the article's fields (LinkedIn labels lose their "LinkedIn ·" prefix), the description cut at
 * 150 characters, and a placeholder when there is no article. The host of a URL is the function
 * `host`, `None` where `new URL` throws.
 */
module ArticleList {
  import opened Wrappers
  import opened Text
  import opened App

  const Unknown := "Source inconnue"
  const DefaultSource := "Source"
  const NoArticles := "Aucun article trouvé"
  /** The longest description shown in full. */
  const PreviewLength := 150

  // ---------------------------------------------------------------------------------------------
  // Source labels
  // ---------------------------------------------------------------------------------------------

  /** The value of the first of `fields` the article sets to a non-empty string. */
  function FirstField(a: Article, fields: seq<string>): Option<string>
  {
    if fields == [] then None
    else if Field(a, fields[0]) != "" then Some(a[fields[0]])
    else FirstField(a, fields[1..])
  }

  /** `FirstField` finds field `k` exactly when it is set and every field before it is not. */
  lemma {:induction false} FirstFieldSpec(a: Article, fields: seq<string>)
    ensures FirstField(a, fields).None? <==> forall k :: 0 <= k < |fields| ==> Field(a, fields[k]) == ""
    ensures forall k :: (0 <= k < |fields| && Field(a, fields[k]) != "" && (forall j :: 0 <= j < k ==> Field(a, fields[j]) == ""))
                     ==> FirstField(a, fields) == Some(a[fields[k]])
  {
    if fields != [] {
      FirstFieldSpec(a, fields[1..]);
      assert forall k :: 0 < k < |fields| ==> fields[1..][k - 1] == fields[k];
    }
  }

  /** The fields `resolveSource` tries, in order, before the URL. */
  const Labels := ["service", "publisher", "source", "site"]

  /** `new URL(a.url).host.replace('www.', '')`, `None` when there is no URL or it does not parse. */
  function UrlLabel(a: Article, host: string -> Option<string>): Option<string>
  {
    if Field(a, "url") != "" && host(a["url"]).Some? then Some(ReplaceFirst(host(a["url"]).value, "www.", ""))
    else None
  }

  /** `resolveSource(a)`. */
  function ResolveSource(a: Article, host: string -> Option<string>): string
  {
    match FirstField(a, Labels)
    case Some(v) => v
    case None =>
      match UrlLabel(a, host)
      case Some(h) => h
      case None => Unknown
  }

  /** `replace('www.', '')` drops a leading "www." and leaves a host without "www." as it is. */
  lemma StripWww(h: string)
    ensures StartsWith(h, "www.") ==> ReplaceFirst(h, "www.", "") == h[4..]
    ensures !Contains(h, "www.") ==> ReplaceFirst(h, "www.", "") == h
  {
    if StartsWith(h, "www.") {
      assert OccursAt(h, "www.", 0);
      assert Contains(h, "www.");
      assert Find(h, "www.") == Some(0);
    }
  }

  /**
   * The label is the first set field among service, publisher, source and site; failing those the
   * URL's host without its leading "www."; failing that "Source inconnue".
   */
  lemma ResolveSpec(a: Article, host: string -> Option<string>)
    ensures forall k :: (0 <= k < |Labels| && Field(a, Labels[k]) != "" && (forall j :: 0 <= j < k ==> Field(a, Labels[j]) == ""))
                     ==> ResolveSource(a, host) == a[Labels[k]]
    ensures (forall k :: 0 <= k < |Labels| ==> Field(a, Labels[k]) == "") ==>
      var r := ResolveSource(a, host);
      && (Field(a, "url") == "" || host(a["url"]).None? ==> r == Unknown)
      && (Field(a, "url") != "" && host(a["url"]).Some? && StartsWith(host(a["url"]).value, "www.") ==> r == host(a["url"]).value[4..])
      && (Field(a, "url") != "" && host(a["url"]).Some? && !Contains(host(a["url"]).value, "www.") ==> r == host(a["url"]).value)
  {
    FirstFieldSpec(a, Labels);
    if Field(a, "url") != "" && host(a["url"]).Some? {
      StripWww(host(a["url"]).value);
    }
  }

  /** The separators the LinkedIn prefix may carry: `[·\-:|.]`. */
  predicate IsSeparator(c: char)
  {
    c == '·' || c == '-' || c == ':' || c == '|' || c == '.'
  }

  /** The length of the run of whitespace at the start of `s`. */
  function SpaceRun(s: string): (n: nat)
    ensures n <= |s|
    ensures forall i :: 0 <= i < n ==> IsSpace(s[i])
    ensures n < |s| ==> !IsSpace(s[n])
  {
    if s != [] && IsSpace(s[0]) then 1 + SpaceRun(s[1..]) else 0
  }

  /** `s` starts with "linkedin" in any mix of case. */
  predicate StartsLinkedin(s: string)
  {
    |s| >= 8 && Lower(s[..8]) == "linkedin"
  }

  /** The length of the match of `/^linkedin\s*[·\-:|.]?\s*\/i` at the start of `s`, 0 when none. */
  function PrefixLength(s: string): (n: nat)
    ensures n <= |s|
  {
    if !StartsLinkedin(s) then 0
    else
      var a := 8 + SpaceRun(s[8..]);
      var b := if a < |s| && IsSeparator(s[a]) then a + 1 else a;
      b + SpaceRun(s[b..])
  }

  /** `raw.replace(/^linkedin\s*[·\-:|.]?\s*\/i, "")`. */
  function StripLinkedin(s: string): string
  {
    s[PrefixLength(s)..]
  }

  /**
   * `s[..n]` is "linkedin" followed by the spaces `s[8..a]`, at most one separator `s[a..b]` and
   * the spaces `s[b..n]`.
   */
  ghost predicate PrefixShape(s: string, a: int, b: int, n: int)
  {
    && 8 <= a <= b <= n <= |s|
    && (forall i :: 8 <= i < a ==> IsSpace(s[i]))
    && (b == a || (b == a + 1 && IsSeparator(s[a])))
    && (forall i :: b <= i < n ==> IsSpace(s[i]))
  }

  /**
   * The prefix removed is empty unless `s` starts with "linkedin" (in any case); then it is
   * "linkedin", spaces, at most one separator and spaces, and what is left does not start with a
   * space.
   */
  lemma StripLinkedinSpec(s: string)
    ensures var n := PrefixLength(s);
      && StripLinkedin(s) == s[n..]
      && (!StartsLinkedin(s) ==> StripLinkedin(s) == s)
      && (StartsLinkedin(s) ==>
        && (n == |s| || !IsSpace(s[n]))
        && exists a, b :: PrefixShape(s, a, b, n))
  {
    if StartsLinkedin(s) {
      var a := 8 + SpaceRun(s[8..]);
      var b := if a < |s| && IsSeparator(s[a]) then a + 1 else a;
      assert forall i :: 8 <= i < a ==> s[i] == s[8..][i - 8];
      assert forall i :: b <= i < PrefixLength(s) ==> s[i] == s[b..][i - b];
      if PrefixLength(s) < |s| {
        assert s[PrefixLength(s)] == s[b..][PrefixLength(s) - b];
      }
      assert PrefixShape(s, a, b, PrefixLength(s));
    }
  }

  /** `article.service.toLowerCase() === "linkedin"`. */
  predicate FromLinkedin(a: Article)
  {
    Field(a, "service") != "" && Lower(a["service"]) == "linkedin"
  }

  /** The fields a LinkedIn label is taken from, in order, before "Source". */
  const LinkedinLabels := ["source", "publisher", "site"]

  /** `article.source || article.publisher || article.site || "Source"`. */
  function RawLabel(a: Article): string
  {
    match FirstField(a, LinkedinLabels)
    case Some(v) => v
    case None => DefaultSource
  }

  /**
   * `s.trim() || "Source"`: never empty and never padded; "Source" exactly when `s` is all
   * whitespace, else `s` trimmed.
   */
  function OrSource(s: string): (r: string)
    ensures r != [] && !IsSpace(r[0]) && !IsSpace(r[|r| - 1])
    ensures AllSpace(s) ==> r == DefaultSource
    ensures !AllSpace(s) ==> r == Trim(s)
  {
    assert !IsSpace(DefaultSource[0]) && !IsSpace(DefaultSource[5]);
    var t := Trim(s);
    if t == "" then DefaultSource else t
  }

  /** `raw.replace(/^linkedin…/i, "").trim() || "Source"`. */
  function LinkedinLabel(raw: string): string
  {
    OrSource(StripLinkedin(raw))
  }

  /**
   * `formatSource(article)`: a LinkedIn article's label is never empty nor padded; any other
   * article keeps the label of `resolveSource`.
   */
  function FormatSource(a: Article, host: string -> Option<string>): (r: string)
    ensures FromLinkedin(a) ==> r != [] && !IsSpace(r[0]) && !IsSpace(r[|r| - 1])
    ensures !FromLinkedin(a) ==> r == ResolveSource(a, host)
  {
    if FromLinkedin(a) then LinkedinLabel(RawLabel(a)) else ResolveSource(a, host)
  }

  /** A label with no LinkedIn prefix and no padding is kept as it is. */
  lemma LabelKept(raw: string)
    requires !StartsLinkedin(raw) && raw != [] && !IsSpace(raw[0]) && !IsSpace(raw[|raw| - 1])
    ensures LinkedinLabel(raw) == raw
  {
    assert !IsSpace(raw[0]);
    TrimUnpadded(raw);
  }

  /** A LinkedIn article with none of source, publisher and site is labelled "Source". */
  lemma LinkedinDefault(a: Article, host: string -> Option<string>)
    requires FromLinkedin(a)
    requires forall k :: 0 <= k < |LinkedinLabels| ==> Field(a, LinkedinLabels[k]) == ""
    ensures FormatSource(a, host) == DefaultSource
  {
    FirstFieldSpec(a, LinkedinLabels);
    assert RawLabel(a) == DefaultSource;
    assert !IsSpace(DefaultSource[0]) && !IsSpace(DefaultSource[5]);
    LabelKept(DefaultSource);
  }

  /** The prefix of "LinkedIn · Acme" is "LinkedIn · ". */
  lemma ExamplePrefix()
    ensures StripLinkedin("LinkedIn · Acme") == "Acme"
  {
    var s := "LinkedIn · Acme";
    assert StartsLinkedin(s) by {
      assert s[..8] == "LinkedIn";
      assert Lower("LinkedIn") == "linkedin";
    }
    assert s[8..] == " · Acme" && s[10..] == " Acme" && s[11..] == "Acme";
    OneSpace(" · Acme");
    OneSpace(" Acme");
    SeparatedPrefix(s, 9);
  }

  /** A run of exactly one whitespace character. */
  lemma OneSpace(t: string)
    requires |t| >= 2 && IsSpace(t[0]) && !IsSpace(t[1])
    ensures SpaceRun(t) == 1
  {
    assert SpaceRun(t[1..]) == 0;
  }

  /** "linkedin", spaces up to the separator at `a`, then one space: the prefix ends two past `a`. */
  lemma SeparatedPrefix(s: string, a: int)
    requires StartsLinkedin(s) && 8 <= a && a + 1 < |s| && IsSeparator(s[a])
    requires SpaceRun(s[8..]) == a - 8 && SpaceRun(s[a + 1..]) == 1
    ensures StripLinkedin(s) == s[a + 2..]
  {
  }


  /** The example article comes from LinkedIn and its raw label is its source. */
  lemma ExampleArticle()
    ensures var a := map["service" := "LinkedIn", "source" := "LinkedIn · Acme"];
      FromLinkedin(a) && RawLabel(a) == "LinkedIn · Acme"
  {
    assert Lower("LinkedIn") == "linkedin";
  }

  /** "LinkedIn · Acme" becomes "Acme". */
  lemma LinkedinExample(host: string -> Option<string>)
    ensures FormatSource(map["service" := "LinkedIn", "source" := "LinkedIn · Acme"], host) == "Acme"
  {
    ExampleArticle();
    ExamplePrefix();
    assert !IsSpace("Acme"[0]) && !IsSpace("Acme"[3]);
    TrimUnpadded("Acme");
  }

  // ---------------------------------------------------------------------------------------------
  // Cards
  // ---------------------------------------------------------------------------------------------

  /** The description as shown: in full up to 150 characters, else its first 150 and "...". */
  function Excerpt(d: string): (r: string)
    ensures |r| <= PreviewLength + 3
  {
    if |d| > PreviewLength then d[..PreviewLength] + "..." else d
  }

  /** A short description is shown whole; a long one is cut to its first 150 characters, then "...". */
  lemma ExcerptSpec(d: string)
    ensures |d| <= PreviewLength ==> Excerpt(d) == d
    ensures |d| > PreviewLength ==>
      |Excerpt(d)| == PreviewLength + 3 && StartsWith(Excerpt(d), d[..PreviewLength]) && Excerpt(d)[PreviewLength..] == "..."
    ensures StartsWith(d, Excerpt(d)) || |d| > PreviewLength
  {
  }

  /** What one card shows, the date left aside. */
  datatype Card = Card(source: string, title: string, link: Option<string>, description: Option<string>, author: Option<string>)

  /** The card of one article: the link, description and author only where the article sets them. */
  function CardOf(a: Article, host: string -> Option<string>): (c: Card)
    ensures c.link.Some? <==> Field(a, "url") != ""
    ensures c.description.Some? <==> Field(a, "description") != ""
    ensures c.author.Some? <==> Field(a, "author") != ""
    ensures c.description.Some? ==> |c.description.value| <= PreviewLength + 3
  {
    Card(
      FormatSource(a, host),
      Field(a, "title"),
      if Field(a, "url") != "" then Some(a["url"]) else None,
      if Field(a, "description") != "" then Some(Excerpt(a["description"])) else None,
      if Field(a, "author") != "" then Some(a["author"]) else None)
  }

  datatype View = Placeholder(message: string) | Grid(cards: seq<Card>)

  /** `ArticleList({ articles })`: the placeholder when there is no article, else one card per article, in order. */
  function ArticleListOf(arts: seq<Article>, host: string -> Option<string>): (r: View)
    ensures r.Placeholder? <==> arts == []
    ensures r.Placeholder? ==> r.message == NoArticles
    ensures r.Grid? ==> |r.cards| == |arts| && forall i :: 0 <= i < |arts| ==> r.cards[i] == CardOf(arts[i], host)
  {
    if arts == [] then Placeholder(NoArticles)
    else Grid(seq(|arts|, i requires 0 <= i < |arts| => CardOf(arts[i], host)))
  }
}
