/**
 * The query matcher shared by the services (utils/search.py): a query containing a comma is a list of
 * OR-keywords, any other query is one phrase that must occur with whitespace runs collapsed; both sides
 * are lower-cased first, and a blank query matches everything.
 */
module Search {
  import opened Text

  /** `match_query(q_raw, text)`: the query is stripped and lower-cased, the text lower-cased. */
  function MatchQuery(qRaw: string, text: string): bool
  {
    MatchNormalized(Lower(Trim(qRaw)), Lower(text))
  }

  /** The two modes, on a stripped lower-case query q and a lower-case text t. */
  function MatchNormalized(q: string, t: string): bool
  {
    if q == "" then true
    else if ',' in q then AnyKeyword(Split(q, ','), t)
    else Contains(CollapseSpace(t), CollapseSpace(q))
  }

  /** `any(kw and kw in text for kw in (k.strip() for k in pieces))`. */
  function AnyKeyword(pieces: seq<string>, text: string): bool
  {
    pieces != [] && ((Trim(pieces[0]) != "" && Contains(text, Trim(pieces[0]))) || AnyKeyword(pieces[1..], text))
  }

  /** A comma piece that makes an OR-query match. */
  predicate KeywordHit(piece: string, text: string) {
    Trim(piece) != "" && Contains(text, Trim(piece))
  }

  /** The generator scan finds a hit exactly when some piece is a non-blank substring. */
  lemma {:induction false} AnyKeywordIff(pieces: seq<string>, text: string)
    ensures AnyKeyword(pieces, text) <==> exists k :: 0 <= k < |pieces| && KeywordHit(pieces[k], text)
    decreases |pieces|
  {
    if pieces != [] {
      AnyKeywordIff(pieces[1..], text);
      if !KeywordHit(pieces[0], text) {
        forall k | 0 <= k < |pieces| && KeywordHit(pieces[k], text)
          ensures exists j :: 0 <= j < |pieces[1..]| && KeywordHit(pieces[1..][j], text)
        {
          assert pieces[1..][k - 1] == pieces[k];
        }
      }
    }
  }

  lemma CommaSurvivesNormalisation(qRaw: string)
    ensures ',' in qRaw <==> ',' in Lower(Trim(qRaw))
  {
    if ',' in qRaw {
      CharSurvivesTrim(qRaw, ',');
    }
    if ',' in Trim(qRaw) {
      InTrim(qRaw, ',');
    }
    LowerComma(Trim(qRaw));
  }

  /** `strip()` keeps a block of the string. */
  lemma InTrim(s: string, c: char)
    requires c in Trim(s)
    ensures c in s
  {
    var l := TrimLeft(s);
    var r := TrimRight(l);
    var i :| 0 <= i < |r| && r[i] == c;
    assert l[..|r|][i] == l[i];
    var n := |s| - |l|;
    assert s[n..][i] == s[n + i];
    assert s[n + i] == c;
  }

  /** Lower-casing neither makes nor removes a comma. */
  lemma LowerComma(t: string)
    ensures ',' in Lower(t) <==> ',' in t
  {
    if ',' in Lower(t) {
      var i :| 0 <= i < |t| && Lower(t)[i] == ',';
      assert t[i] == ',';
    }
    if ',' in t {
      var i :| 0 <= i < |t| && t[i] == ',';
      assert Lower(t)[i] == ',';
    }
  }

  /** An empty or whitespace-only query matches every text. */
  lemma BlankQueryMatchesAll(qRaw: string, text: string)
    requires AllSpace(qRaw)
    ensures MatchQuery(qRaw, text)
  {
  }

  /** OR-mode: with a comma, the query matches iff some trimmed, non-empty comma piece occurs in the lower-cased text. */
  lemma CommaQueryIff(qRaw: string, text: string)
    requires ',' in qRaw
    ensures var pieces := Split(Lower(Trim(qRaw)), ',');
      MatchQuery(qRaw, text) <==> exists k :: 0 <= k < |pieces| && KeywordHit(pieces[k], Lower(text))
  {
    var q := Lower(Trim(qRaw));
    CommaSurvivesNormalisation(qRaw);
    assert MatchNormalized(q, Lower(text)) == AnyKeyword(Split(q, ','), Lower(text));
    AnyKeywordIff(Split(q, ','), Lower(text));
  }

  /** A comma query whose pieces are all blank (such as `","`) matches nothing. */
  lemma BlankPiecesMatchNothing(qRaw: string, text: string)
    requires ',' in qRaw
    requires forall p | p in Split(Lower(Trim(qRaw)), ',') :: AllSpace(p)
    ensures !MatchQuery(qRaw, text)
  {
    CommaQueryIff(qRaw, text);
  }

  /** Phrase mode: without a comma, the query matches iff its whitespace-collapsed form occurs in the collapsed text. */
  lemma PhraseQueryIff(qRaw: string, text: string)
    requires ',' !in qRaw && !AllSpace(qRaw)
    ensures MatchQuery(qRaw, text) <==> Contains(CollapseSpace(Lower(text)), CollapseSpace(Lower(Trim(qRaw))))
  {
    CommaSurvivesNormalisation(qRaw);
    assert Trim(qRaw) != [];
  }

  /** Matching ignores case: lower-casing the query or the text never changes the answer. */
  lemma MatchIgnoresCase(qRaw: string, text: string)
    ensures MatchQuery(Lower(qRaw), text) == MatchQuery(qRaw, text)
    ensures MatchQuery(qRaw, Lower(text)) == MatchQuery(qRaw, text)
  {
    TrimLower(qRaw);
    LowerIdempotent(Trim(qRaw));
    assert Lower(Trim(Lower(qRaw))) == Lower(Trim(qRaw));
    LowerIdempotent(text);
  }

  /** Leading and trailing whitespace in the query never changes the answer. */
  lemma MatchIgnoresPadding(pre: string, qRaw: string, post: string, text: string)
    requires AllSpace(pre) && AllSpace(post)
    ensures MatchQuery(pre + qRaw + post, text) == MatchQuery(qRaw, text)
  {
    TrimIgnoresPadding(pre, qRaw, post);
  }

  /** Collapsing whitespace distributes over a split point that is followed by a non-space character. */
  lemma {:induction false} CollapseAppend(a: string, b: string)
    requires b != [] && !IsSpace(b[0])
    ensures CollapseSpace(a + b) == CollapseSpace(a) + CollapseSpace(b)
    decreases |a|
  {
    if a == [] {
      AppendEmpty(b);
    } else if IsSpace(a[0]) {
      if AllSpace(a) {
        CollapseAppendAllSpace(a, b);
      } else {
        CollapseAppend(TrimLeft(a), b);
        CollapseAppendSpaceStep(a, b);
      }
    } else {
      CollapseAppend(a[1..], b);
      CollapseAppendWordStep(a, b);
    }
  }

  lemma CollapseAppendAllSpace(a: string, b: string)
    requires a != [] && AllSpace(a) && b != [] && !IsSpace(b[0])
    ensures CollapseSpace(a + b) == CollapseSpace(a) + CollapseSpace(b)
  {
    CollapseSpaceLead(a);
    AppendHead(a, b);
    CollapseSpaceLead(a + b);
    TrimLeftSpacePrefix(a, b);
    assert TrimLeft(b) == b;
    AppendEmpty(a);
    TrimLeftSpacePrefix(a, []);
  }

  lemma CollapseAppendSpaceStep(a: string, b: string)
    requires a != [] && IsSpace(a[0]) && !AllSpace(a) && b != [] && !IsSpace(b[0])
    requires CollapseSpace(TrimLeft(a) + b) == CollapseSpace(TrimLeft(a)) + CollapseSpace(b)
    ensures CollapseSpace(a + b) == CollapseSpace(a) + CollapseSpace(b)
  {
    CollapseSpaceLead(a);
    AppendHead(a, b);
    CollapseSpaceLead(a + b);
    TrimLeftAppend(a, b);
    DropFront(" ", CollapseSpace(TrimLeft(a)), CollapseSpace(b));
  }

  lemma CollapseAppendWordStep(a: string, b: string)
    requires a != [] && !IsSpace(a[0]) && b != [] && !IsSpace(b[0])
    requires CollapseSpace(a[1..] + b) == CollapseSpace(a[1..]) + CollapseSpace(b)
    ensures CollapseSpace(a + b) == CollapseSpace(a) + CollapseSpace(b)
  {
    CollapseWordLead(a);
    AppendHead(a, b);
    CollapseWordLead(a + b);
    DropFront([a[0]], CollapseSpace(a[1..]), CollapseSpace(b));
  }

  /** The collapsed form of a block occurs in the collapsed form of any text holding that block. */
  lemma CollapseKeepsBlock(a: string, b: string, c: string)
    requires b != [] && !IsSpace(b[0]) && !IsSpace(b[|b| - 1])
    ensures Contains(CollapseSpace(a + b + c), CollapseSpace(b))
  {
    CollapseAppend(a, b + c);
    DropFront(a, b, c);
    CollapsePrefix(b, c);
    ContainsAfter(CollapseSpace(a), CollapseSpace(b + c), CollapseSpace(b));
  }

  /** Whatever follows a block that ends in a non-space, its collapsed form comes first. */
  lemma CollapsePrefix(b: string, c: string)
    requires b != [] && !IsSpace(b[0]) && !IsSpace(b[|b| - 1])
    ensures StartsWith(CollapseSpace(b + c), CollapseSpace(b))
  {
    if c == [] {
      AppendEmpty(b);
    } else if IsSpace(c[0]) {
      CollapseAppendSpaceTail(b, c);
    } else {
      CollapseAppend(b, c);
    }
  }

  lemma ContainsAfter(x: string, y: string, p: string)
    requires StartsWith(y, p)
    ensures Contains(x + y, p)
  {
    assert (x + y)[|x|..|x| + |p|] == p;
    ContainsWitness(x + y, p, |x|);
  }

  /** A text whose first character is a space collapses to something that starts with the collapsed block. */
  lemma {:induction false} CollapseAppendSpaceTail(b: string, c: string)
    requires b != [] && !IsSpace(b[|b| - 1]) && c != [] && IsSpace(c[0])
    ensures StartsWith(CollapseSpace(b + c), CollapseSpace(b))
    decreases |b|
  {
    if IsSpace(b[0]) {
      var l := TrimLeft(b);
      assert !AllSpace(b) by { assert !IsSpace(b[|b| - 1]); }
      assert l != [] && l[|l| - 1] == b[|b| - 1];
      CollapseAppendSpaceTail(l, c);
      SpaceTailSpaceStep(b, c);
    } else {
      if |b| > 1 {
        CollapseAppendSpaceTail(b[1..], c);
      }
      SpaceTailWordStep(b, c);
    }
  }

  lemma SpaceTailSpaceStep(b: string, c: string)
    requires b != [] && IsSpace(b[0]) && !AllSpace(b)
    requires StartsWith(CollapseSpace(TrimLeft(b) + c), CollapseSpace(TrimLeft(b)))
    ensures StartsWith(CollapseSpace(b + c), CollapseSpace(b))
  {
    var l := TrimLeft(b);
    TrimLeftAppend(b, c);
    CollapseSpaceLead(b);
    AppendHead(b, c);
    CollapseSpaceLead(b + c);
    StartsWithCons(" ", CollapseSpace(l + c), CollapseSpace(l));
  }

  lemma SpaceTailWordStep(b: string, c: string)
    requires b != [] && !IsSpace(b[0])
    requires StartsWith(CollapseSpace(b[1..] + c), CollapseSpace(b[1..]))
    ensures StartsWith(CollapseSpace(b + c), CollapseSpace(b))
  {
    CollapseWordLead(b);
    AppendHead(b, c);
    CollapseWordLead(b + c);
    StartsWithCons([b[0]], CollapseSpace(b[1..] + c), CollapseSpace(b[1..]));
  }

  /** A leading whitespace run collapses to one space. */
  lemma CollapseSpaceLead(s: string)
    requires s != [] && IsSpace(s[0])
    ensures CollapseSpace(s) == " " + CollapseSpace(TrimLeft(s))
  {
  }

  /** A leading non-space character is kept. */
  lemma CollapseWordLead(s: string)
    requires s != [] && !IsSpace(s[0])
    ensures CollapseSpace(s) == [s[0]] + CollapseSpace(s[1..])
  {
  }

  lemma StartsWithCons(x: string, s: string, p: string)
    requires StartsWith(s, p)
    ensures StartsWith(x + s, x + p)
  {
    assert (x + s)[..|x + p|] == x + s[..|p|];
  }

  /** A query that occurs verbatim (ignoring case) in the text matches it in phrase mode. */
  lemma VerbatimPhraseMatches(qRaw: string, text: string)
    requires ',' !in qRaw
    requires Contains(Lower(text), Lower(Trim(qRaw)))
    ensures MatchQuery(qRaw, text)
  {
    var q := Lower(Trim(qRaw));
    if q != "" {
      CommaSurvivesNormalisation(qRaw);
      var t := Lower(text);
      PhraseMode(q, t);
      var i := OccurrenceOf(t, q);
      LowerKeepsEnds(Trim(qRaw));
      CollapseKeepsBlock(t[..i], q, t[i + |q|..]);
    }
  }

  /** A non-empty query without a comma is a phrase. */
  lemma PhraseMode(q: string, t: string)
    requires q != "" && ',' !in q
    ensures MatchNormalized(q, t) == Contains(CollapseSpace(t), CollapseSpace(q))
  {
  }

  /** Where a contained block starts, and the text around it. */
  lemma OccurrenceOf(s: string, t: string) returns (i: int)
    requires Contains(s, t)
    ensures 0 <= i && i + |t| <= |s| && s == s[..i] + t + s[i + |t|..]
  {
    i :| 0 <= i <= |s| - |t| && OccursAt(s, t, i);
    assert s == s[..i] + s[i..i + |t|] + s[i + |t|..];
  }

  lemma LowerKeepsEnds(s: string)
    requires s != [] && !IsSpace(s[0]) && !IsSpace(s[|s| - 1])
    ensures !IsSpace(Lower(s)[0]) && !IsSpace(Lower(s)[|s| - 1])
  {
    assert Lower(s)[0] == LowerChar(s[0]);
    assert Lower(s)[|s| - 1] == LowerChar(s[|s| - 1]);
  }

  /** Documented behaviour: a phrase query needs the whole phrase. */
  lemma PhraseExample()
    ensures !MatchQuery("Jonh Abraham Cena", "John Cena")
  {
    var q := "Jonh Abraham Cena";
    var nq := ExampleQueryNormalised();
    NoCommaFact();
    assert !AllSpace(q) by { assert !IsSpace(q[0]); }
    PhraseQueryIff(q, "John Cena");
    LowerTextFact();
    ContainsLonger(CollapseSpace("john cena"), nq);
  }

  lemma ContainsLonger(s: string, t: string)
    requires |s| < |t|
    ensures !Contains(s, t)
  {
  }

  lemma LowerQueryFact()
    ensures Lower("Jonh Abraham Cena") == "jonh abraham cena"
  {
  }

  lemma LowerTextFact()
    ensures Lower("John Cena") == "john cena"
  {
  }

  lemma LowerHitFact()
    ensures Lower("JONH ABRAHAM CENA wins") == "jonh abraham cena wins"
  {
  }

  lemma LowerKeywordsFact()
    ensures Lower("jean,Abraham,Cena") == "jean,abraham" + [','] + "cena"
  {
  }

  lemma TrimFacts()
    ensures Trim("Jonh Abraham Cena") == "Jonh Abraham Cena"
    ensures Trim("jean,Abraham,Cena") == "jean,Abraham,Cena"
    ensures Trim("cena") == "cena"
  {
    TrimFact1();
    TrimFact2();
    TrimUnpadded("cena");
  }

  lemma TrimFact1()
    ensures Trim("Jonh Abraham Cena") == "Jonh Abraham Cena"
  {
    TrimUnpadded("Jonh Abraham Cena");
  }

  lemma TrimFact2()
    ensures Trim("jean,Abraham,Cena") == "jean,Abraham,Cena"
  {
    TrimUnpadded("jean,Abraham,Cena");
  }

  lemma CollapseFact()
    ensures CollapseSpace("jonh abraham cena") == "jonh abraham cena"
  {
    SingleSpacedFixed("jonh abraham cena");
  }

  lemma ExampleQueryNormalised() returns (nq: string)
    ensures nq == Lower(Trim("Jonh Abraham Cena")) == "jonh abraham cena"
    ensures CollapseSpace(nq) == nq
  {
    TrimFact1();
    LowerQueryFact();
    CollapseFact();
    nq := "jonh abraham cena";
  }

  /** Documented behaviour: the phrase matches wherever it occurs, whatever the case. */
  lemma PhraseExampleHit()
    ensures MatchQuery("Jonh Abraham Cena", "JONH ABRAHAM CENA wins")
  {
    var nq := ExampleQueryNormalised();
    LowerHitFact();
    PrefixFact();
    NoCommaFact();
    VerbatimPhraseMatches("Jonh Abraham Cena", "JONH ABRAHAM CENA wins");
  }

  lemma PrefixFact()
    ensures Contains("jonh abraham cena wins", "jonh abraham cena")
  {
    ContainsWitness("jonh abraham cena wins", "jonh abraham cena", 0);
  }

  lemma NoCommaFact()
    ensures ',' !in "Jonh Abraham Cena"
    ensures ',' in "jean,Abraham,Cena"
  {
    assert "jean,Abraham,Cena"[4] == ',';
  }

  lemma SuffixFact()
    ensures Contains("john cena", "cena")
  {
    ContainsWitness("john cena", "cena", 5);
  }

  /** Documented behaviour: a comma query matches any one of its tokens. */
  lemma KeywordExample()
    ensures MatchQuery("jean,Abraham,Cena", "John Cena")
  {
    var pieces := ExamplePieces();
    NoCommaFact();
    LowerTextFact();
    CenaHit();
    CommaHit("jean,Abraham,Cena", "John Cena", |pieces| - 1);
  }

  lemma CenaHit()
    ensures KeywordHit("cena", "john cena")
  {
    TrimUnpadded("cena");
    SuffixFact();
  }

  /** A comma query matches as soon as one of its pieces hits. */
  lemma CommaHit(qRaw: string, text: string, k: int)
    requires ',' in qRaw
    requires 0 <= k < |Split(Lower(Trim(qRaw)), ',')| && KeywordHit(Split(Lower(Trim(qRaw)), ',')[k], Lower(text))
    ensures MatchQuery(qRaw, text)
  {
    CommaQueryIff(qRaw, text);
  }

  lemma ExamplePieces() returns (pieces: seq<string>)
    ensures pieces == Split(Lower(Trim("jean,Abraham,Cena")), ',')
    ensures pieces[|pieces| - 1] == "cena"
  {
    TrimFact2();
    LowerKeywordsFact();
    assert ',' !in "cena";
    SplitLast("jean,abraham", ',', "cena");
    pieces := Split("jean,abraham" + [','] + "cena", ',');
  }
}
