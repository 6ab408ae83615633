/**
 * linkedin_service/linkedin_client.py after the search results have been fetched: the
 * first-link-wins deduplication, the fuzzy date resolver `_norm`, the record mapping, and
 * `slugify`, which names the snapshot files. The clock (`datetime.utcnow()`), dateutil's general
 * parser and Unicode NFKD folding are inputs.
 */
module LinkedInClient {
  import opened Wrappers
  import opened Text
  import opened Calendar
  import opened Values
  import opened Filters

  // ---------------------------------------------------------------------------------------------
  // Deduplication by link (the `seen` loop)
  // ---------------------------------------------------------------------------------------------

  /** `p.get("link")`, the deduplication key; a post without one has key `None`. */
  function LinkOf(p: Object): Value { Get(p, "link") }

  function Links(s: seq<Object>): set<Value> { set p | p in s :: LinkOf(p) }

  /** The specification of the dedup loop: keep a post when no earlier post had its link. */
  function FirstByLink(s: seq<Object>): (r: seq<Object>)
    ensures |r| <= |s|
  {
    if s == [] then []
    else
      var init := FirstByLink(s[..|s| - 1]);
      if LinkOf(s[|s| - 1]) in Links(s[..|s| - 1]) then init else init + [s[|s| - 1]]
  }

  /** The position of the first post carrying link `v`. */
  function FirstAt(s: seq<Object>, v: Value): (i: nat)
    requires v in Links(s)
    ensures i < |s| && LinkOf(s[i]) == v
    ensures forall j :: 0 <= j < i ==> LinkOf(s[j]) != v
  {
    if LinkOf(s[0]) == v then 0
    else
      assert v in Links(s[1..]) by {
        var p :| p in s && LinkOf(p) == v;
        var k :| 0 <= k < |s| && s[k] == p;
        assert s[1..][k - 1] == p;
      }
      FirstAt(s[1..], v) + 1
  }

  /** The dedup loop of `search_posts`: a `seen` set of links and the list of kept posts. */
  method Dedup(all: seq<Object>) returns (posts: seq<Object>)
    ensures posts == FirstByLink(all)
  {
    var seen: set<Value> := {};
    posts := [];
    for i := 0 to |all|
      invariant seen == Links(all[..i])
      invariant posts == FirstByLink(all[..i])
    {
      assert all[..i + 1][..i] == all[..i];
      var url := LinkOf(all[i]);
      if url !in seen {
        seen := seen + {url};
        posts := posts + [all[i]];
      }
      assert all[..i + 1] == all[..i] + [all[i]];
    }
    assert all[..|all|] == all;
  }

  lemma LinksSnoc(s: seq<Object>, x: Object)
    ensures Links(s + [x]) == Links(s) + {LinkOf(x)}
  {
    assert forall p :: p in s + [x] <==> p in s || p == x;
  }

  lemma FirstAtPrefix(s: seq<Object>, x: Object, v: Value)
    requires v in Links(s)
    ensures v in Links(s + [x]) && FirstAt(s + [x], v) == FirstAt(s, v)
  {
    LinksSnoc(s, x);
    var i := FirstAt(s, v);
    var t := s + [x];
    assert t[i] == s[i];
    forall j | 0 <= j < i ensures LinkOf(t[j]) != v {
      assert t[j] == s[j];
    }
  }

  lemma FirstAtNew(s: seq<Object>, x: Object)
    requires LinkOf(x) !in Links(s)
    ensures LinkOf(x) in Links(s + [x]) && FirstAt(s + [x], LinkOf(x)) == |s|
  {
    LinksSnoc(s, x);
    var t := s + [x];
    forall j | 0 <= j < |s| ensures LinkOf(t[j]) != LinkOf(x) {
      assert t[j] == s[j] && s[j] in s;
    }
    assert t[|s|] == x;
  }

  /** Deduplication keeps every link and never keeps one twice. */
  lemma {:induction false} FirstByLinkLinks(s: seq<Object>)
    ensures Links(FirstByLink(s)) == Links(s)
    ensures forall j, k :: 0 <= j < k < |FirstByLink(s)| ==> LinkOf(FirstByLink(s)[j]) != LinkOf(FirstByLink(s)[k])
    decreases |s|
  {
    if s != [] {
      var init, x := s[..|s| - 1], s[|s| - 1];
      assert s == init + [x];
      FirstByLinkLinks(init);
      var acc := FirstByLink(init);
      LinksSnoc(init, x);
      if LinkOf(x) !in Links(init) {
        LinksSnoc(acc, x);
        var out := acc + [x];
        forall j | 0 <= j < |acc| ensures LinkOf(out[j]) != LinkOf(x) {
          assert out[j] == acc[j] && acc[j] in acc;
        }
      }
    }
  }

  /** Each post of `out` is the first post of `s` carrying its link, and they keep the order of `s`. */
  ghost predicate FirstsOf(s: seq<Object>, out: seq<Object>)
  {
    && (forall j :: 0 <= j < |out| ==> LinkOf(out[j]) in Links(s) && out[j] == s[FirstAt(s, LinkOf(out[j]))])
    && (forall j, k :: 0 <= j < k < |out| ==> FirstAt(s, LinkOf(out[j])) < FirstAt(s, LinkOf(out[k])))
  }

  /**
   * Each kept post is the FIRST post carrying its link, and kept posts keep their input order.
   */
  lemma FirstByLinkFirst(s: seq<Object>)
    ensures forall j :: 0 <= j < |FirstByLink(s)| ==>
      LinkOf(FirstByLink(s)[j]) in Links(s) && FirstByLink(s)[j] == s[FirstAt(s, LinkOf(FirstByLink(s)[j]))]
    ensures forall j, k :: 0 <= j < k < |FirstByLink(s)| ==>
      FirstAt(s, LinkOf(FirstByLink(s)[j])) < FirstAt(s, LinkOf(FirstByLink(s)[k]))
  {
    FirstByLinkFirsts(s);
  }

  lemma {:induction false} FirstByLinkFirsts(s: seq<Object>)
    ensures FirstsOf(s, FirstByLink(s))
    decreases |s|
  {
    if s != [] {
      var init, x := s[..|s| - 1], s[|s| - 1];
      assert s == init + [x];
      FirstByLinkFirsts(init);
      if LinkOf(x) in Links(init) {
        FirstsSnocOld(init, x, FirstByLink(init));
      } else {
        FirstsSnocNew(init, x, FirstByLink(init));
      }
    }
  }

  /** A post whose link was seen is dropped: the first posts stay first. */
  lemma FirstsSnocOld(s: seq<Object>, x: Object, out: seq<Object>)
    requires FirstsOf(s, out)
    ensures FirstsOf(s + [x], out)
  {
    forall v | v in Links(s) ensures v in Links(s + [x]) && FirstAt(s + [x], v) == FirstAt(s, v) {
      FirstAtPrefix(s, x, v);
    }
  }

  /** A post with a new link is kept, last. */
  lemma FirstsSnocNew(s: seq<Object>, x: Object, out: seq<Object>)
    requires FirstsOf(s, out) && LinkOf(x) !in Links(s)
    ensures FirstsOf(s + [x], out + [x])
  {
    var t, o := s + [x], out + [x];
    forall v | v in Links(s) ensures v in Links(t) && FirstAt(t, v) == FirstAt(s, v) {
      FirstAtPrefix(s, x, v);
    }
    FirstAtNew(s, x);
    forall j | 0 <= j < |o| ensures LinkOf(o[j]) in Links(t) && o[j] == t[FirstAt(t, LinkOf(o[j]))] {
      if j < |out| {
        assert o[j] == out[j];
      }
    }
    forall j, k | 0 <= j < k < |o| ensures FirstAt(t, LinkOf(o[j])) < FirstAt(t, LinkOf(o[k])) {
      assert o[j] == out[j];
      if k < |out| {
        assert o[k] == out[k];
      }
    }
  }

  /** A list whose links are already distinct is left as it is. */
  lemma {:induction false} DistinctLinksKept(s: seq<Object>)
    requires forall j, k :: 0 <= j < k < |s| ==> LinkOf(s[j]) != LinkOf(s[k])
    ensures FirstByLink(s) == s
    decreases |s|
  {
    if s != [] {
      var init, x := s[..|s| - 1], s[|s| - 1];
      DistinctLinksKept(init);
      forall p | p in init ensures LinkOf(p) != LinkOf(x) {
        var k :| 0 <= k < |init| && init[k] == p;
        assert s[k] == p;
      }
      assert s == init + [x];
    }
  }

  /** Deduplicating twice is deduplicating once. */
  lemma DedupIdempotent(s: seq<Object>)
    ensures FirstByLink(FirstByLink(s)) == FirstByLink(s)
  {
    FirstByLinkLinks(s);
    DistinctLinksKept(FirstByLink(s));
  }

  // ---------------------------------------------------------------------------------------------
  // The fuzzy date resolver `_norm`
  // ---------------------------------------------------------------------------------------------

  datatype Unit = Hours | Days | Weeks | Months | Years

  function UnitOf(c: char): Option<Unit>
  {
    if c == 'h' then Some(Hours) else if c == 'd' then Some(Days) else if c == 'w' then Some(Weeks)
    else if c == 'm' then Some(Months) else if c == 'y' then Some(Years) else None
  }

  /** The longest prefix of ASCII digits. */
  function DigitPrefix(s: string): (d: string)
    ensures |d| <= |s| && s[..|d|] == d
    ensures forall i :: 0 <= i < |d| ==> IsDigit(d[i])
    ensures |d| < |s| ==> !IsDigit(s[|d|])
  {
    if s == [] || !IsDigit(s[0]) then [] else [s[0]] + DigitPrefix(s[1..])
  }

  /**
   * `_REL_RX.fullmatch(raw)` on a lower-cased string: one or more digits, optional whitespace,
   * then exactly one unit letter and nothing after it.
   */
  function RelativeMatch(raw: string): (r: Option<(nat, Unit)>)
  {
    var digits := DigitPrefix(raw);
    var rest := TrimLeft(raw[|digits|..]);
    if digits == [] || |rest| != 1 || UnitOf(rest[0]).None? then None
    else Some((ParseNat(digits), UnitOf(rest[0]).value))
  }

  /** The strings the pattern accepts are exactly digits, blanks, and a unit letter. */
  lemma {:induction false} RelativeMatchAccepts(digits: string, blanks: string, c: char)
    requires digits != [] && forall i :: 0 <= i < |digits| ==> IsDigit(digits[i])
    requires AllSpace(blanks) && UnitOf(c).Some?
    ensures RelativeMatch(digits + blanks + [c]) == Some((ParseNat(digits), UnitOf(c).value))
  {
    var raw, tail := digits + blanks + [c], blanks + [c];
    DropFront(digits, blanks, [c]);
    assert raw == digits + tail && raw[|digits|..] == tail;
    UnitAfterBlanks(blanks, c);
    DigitRunStops(digits, tail);
    TrimLeftSpacePrefix(blanks, [c]);
    UnitUntrimmed(c);
    assert TrimLeft(raw[|digits|..]) == [c];
    RelativeMatchOf(raw, digits, c);
  }

  /** A unit letter is not whitespace, so stripping leaves it. */
  lemma UnitUntrimmed(c: char)
    requires UnitOf(c).Some?
    ensures TrimLeft([c]) == [c]
  {
    assert !IsSpace([c][0]);
  }

  /** Blanks then a unit letter do not start with a digit. */
  lemma UnitAfterBlanks(blanks: string, c: char)
    requires AllSpace(blanks) && UnitOf(c).Some?
    ensures !IsDigit((blanks + [c])[0])
  {
    if blanks == [] {
      assert (blanks + [c])[0] == c;
    } else {
      assert (blanks + [c])[0] == blanks[0];
    }
  }

  lemma RelativeMatchOf(raw: string, digits: string, c: char)
    requires DigitPrefix(raw) == digits && digits != []
    requires TrimLeft(raw[|digits|..]) == [c] && UnitOf(c).Some?
    ensures RelativeMatch(raw) == Some((ParseNat(digits), UnitOf(c).value))
  {
  }

  lemma {:induction false} DigitRunStops(digits: string, rest: string)
    requires forall i :: 0 <= i < |digits| ==> IsDigit(digits[i])
    requires rest == [] || !IsDigit(rest[0])
    ensures DigitPrefix(digits + rest) == digits
    decreases |digits|
  {
    if digits == [] {
      assert digits + rest == rest;
    } else {
      assert (digits + rest)[1..] == digits[1..] + rest;
      DigitRunStops(digits[1..], rest);
      assert digits == [digits[0]] + digits[1..];
    }
  }

  /** A match must end with the unit letter: `"3h ago"` is not an offset. */
  lemma TrailingTextRejected(raw: string)
    requires raw != [] && UnitOf(raw[|raw| - 1]).None?
    ensures RelativeMatch(raw) == None
  {
    var digits := DigitPrefix(raw);
    var rest := TrimLeft(raw[|digits|..]);
    if digits != [] && |rest| == 1 {
      assert rest == raw[|raw| - 1..];
      assert rest[0] == raw[|raw| - 1];
    }
  }

  /** `now - timedelta(...)` or `now - relativedelta(...)`; `None` is the exception it raises. */
  function Shift(now: DateTime, n: nat, u: Unit): (r: Option<DateTime>)
    requires ValidDateTime(now)
    ensures r.Some? ==> ValidDateTime(r.value)
  {
    match u
    case Hours => MinusSeconds(now, n * 3600)
    case Days => MinusSeconds(now, n * SecondsPerDay)
    case Weeks => MinusSeconds(now, n * 7 * SecondsPerDay)
    case Months => MinusMonths(now, n)
    case Years => MinusYears(now, n)
  }

  /** `(raw or "").strip().lower()`; a non-string truthy value has no `.strip()`. */
  function Cleaned(raw: Value): Option<string>
  {
    if !Truthy(raw) then Some("")
    else match raw
      case Str(s) => Some(Lower(Trim(s)))
      case _ => None
  }

  /** Which branch of `_norm` a cleaned string takes. */
  datatype Reading = Now | OneDayBack | Offset(n: nat, u: Unit) | Other(text: string)

  function Classify(s: string): Reading
  {
    if s == "today" || s == "aujourd'hui" then Now
    else if s == "yesterday" then OneDayBack
    else match RelativeMatch(s)
      case Some((n, u)) => Offset(n, u)
      case None => Other(s)
  }

  /**
   * The date-time a branch computes: `now`, one day back, the offset, or the general parser's
   * reading with `now` when it fails. `None` is an arithmetic error (`OverflowError` or
   * `ValueError`) that the source does not catch.
   */
  function Reckon(now: DateTime, k: Reading, parse: string -> Option<DateTime>): (r: Option<DateTime>)
    requires ValidDateTime(now)
    ensures k.Now? || k.Other? ==> r.Some?
    ensures k.Now? ==> r == Some(now)
  {
    match k
    case Now => Some(now)
    case OneDayBack => MinusSeconds(now, SecondsPerDay)
    case Offset(n, u) => Shift(now, n, u)
    case Other(t) => Some(parse(t).GetOr(now))
  }

  /**
   * `_norm` AS WRITTEN: the keywords, then the offset pattern, then the general parser (or
   * `now` when it fails). The offset subtraction sits outside the `try`, so an offset reaching
   * before year 1 raises out of `_norm`.
   */
  function ResolveAsWritten(raw: Value, now: DateTime, parse: string -> Option<DateTime>): (r: Result<DateTime, string>)
    requires ValidDateTime(now)
  {
    match Cleaned(raw)
    case None => Failure("AttributeError: object has no attribute 'strip'")
    case Some(s) =>
      match Reckon(now, Classify(s), parse)
      case None => Failure("OverflowError: date value out of range")
      case Some(t) => Success(t)
  }

  /** A digits-blanks-unit string is left alone by the cleaning step. */
  lemma OffsetCleaned(digits: string, blanks: string, c: char)
    requires digits != [] && forall i :: 0 <= i < |digits| ==> IsDigit(digits[i])
    requires AllSpace(blanks) && UnitOf(c).Some?
    ensures Cleaned(Str(digits + blanks + [c])) == Some(digits + blanks + [c])
  {
    var s := digits + blanks + [c];
    OffsetTextIsLower(digits, blanks, c);
    assert s[0] == digits[0] && s[|s| - 1] == c;
    TrimUnpadded(s);
    CleanedUnchanged(s);
  }

  /** A digits-blanks-unit string takes the offset branch. */
  lemma OffsetClassified(digits: string, blanks: string, c: char)
    requires digits != [] && forall i :: 0 <= i < |digits| ==> IsDigit(digits[i])
    requires AllSpace(blanks) && UnitOf(c).Some?
    ensures Classify(digits + blanks + [c]) == Offset(ParseNat(digits), UnitOf(c).value)
  {
    var s := digits + blanks + [c];
    assert s[0] == digits[0];
    StartsWithDigit(s);
    RelativeMatchAccepts(digits, blanks, c);
  }

  lemma CleanedUnchanged(s: string)
    requires s != "" && Trim(s) == s && Lower(s) == s
    ensures Cleaned(Str(s)) == Some(s)
  {
  }

  lemma OffsetTextIsLower(digits: string, blanks: string, c: char)
    requires forall i :: 0 <= i < |digits| ==> IsDigit(digits[i])
    requires AllSpace(blanks) && UnitOf(c).Some?
    ensures Lower(digits + blanks + [c]) == digits + blanks + [c]
  {
    var s := digits + blanks + [c];
    forall i | 0 <= i < |s| ensures Lower(s)[i] == s[i] {
      if i < |digits| { assert s[i] == digits[i]; }
      else if i < |digits| + |blanks| { assert s[i] == blanks[i - |digits|]; }
    }
  }

  /** A string starting with a digit is none of the keywords. */
  lemma StartsWithDigit(s: string)
    requires s != [] && IsDigit(s[0])
    ensures Classify(s) == match RelativeMatch(s) case Some((n, u)) => Offset(n, u) case None => Other(s)
  {
    assert s != "today" by { assert "today"[0] == 't'; }
    assert s != "aujourd'hui" by { assert "aujourd'hui"[0] == 'a'; }
    assert s != "yesterday" by { assert "yesterday"[0] == 'y'; }
  }

  /**
   * A fuzzy offset of `n` years (`c` is the year letter `y`) with `n` at least the current year
   * (`"3000y"` in 2026) leaves the calendar: `_norm` raises instead of falling back.
   */
  lemma LargeYearOffsetRaises(digits: string, blanks: string, c: char, now: DateTime, parse: string -> Option<DateTime>)
    requires ValidDateTime(now)
    requires digits != [] && forall i :: 0 <= i < |digits| ==> IsDigit(digits[i])
    requires AllSpace(blanks) && UnitOf(c) == Some(Years) && ParseNat(digits) >= now.date.year
    ensures ResolveAsWritten(Str(digits + blanks + [c]), now, parse).Failure?
  {
    YearsBeforeFirst(now, ParseNat(digits));
    OffsetMovesBack(digits, blanks, c, now, parse);
  }

  /** Going back at least as many years as the current year number leaves the calendar. */
  lemma YearsBeforeFirst(now: DateTime, n: nat)
    requires ValidDateTime(now) && n >= now.date.year
    ensures Shift(now, n, Years).None?
  {
  }

  /**
   * `_norm` as evidently intended ("falls back gracefully"): an offset the calendar cannot
   * represent falls back to `now` like an unparseable date, so the resolver never raises.
   */
  function ResolveDate(raw: Value, now: DateTime, parse: string -> Option<DateTime>): (r: DateTime)
    requires ValidDateTime(now)
    ensures ResolveAsWritten(raw, now, parse).Success? ==> r == ResolveAsWritten(raw, now, parse).value
    ensures ResolveAsWritten(raw, now, parse).Failure? ==> r == now
  {
    match Cleaned(raw)
    case None => now
    case Some(s) => Reckon(now, Classify(s), parse).GetOr(now)
  }

  /** A parser that only returns date-times the calendar can represent. */
  ghost predicate ParserValid(parse: string -> Option<DateTime>) {
    forall s :: parse(s).Some? ==> ValidDateTime(parse(s).value)
  }

  /** The corrected resolver always yields a date-time the calendar can represent. */
  lemma ResolveDateValid(raw: Value, now: DateTime, parse: string -> Option<DateTime>)
    requires ValidDateTime(now) && ParserValid(parse)
    ensures ValidDateTime(ResolveDate(raw, now, parse))
  {
    match Cleaned(raw)
    case None =>
    case Some(s) =>
      match Classify(s)
      case Other(t) => assert parse(t).Some? ==> ValidDateTime(parse(t).value);
      case _ =>
  }

  /** `today` and `aujourd'hui`, in any case and with any padding, are the current instant. */
  lemma TodayIsNow(raw: string, now: DateTime, parse: string -> Option<DateTime>)
    requires ValidDateTime(now)
    requires Lower(Trim(raw)) == "today" || Lower(Trim(raw)) == "aujourd'hui"
    ensures ResolveAsWritten(Str(raw), now, parse) == Success(now)
  {
    assert raw != "";
  }

  /** `yesterday` is exactly one day (86400 seconds) before now. */
  lemma YesterdayIsOneDayBack(raw: string, now: DateTime, parse: string -> Option<DateTime>)
    requires ValidDateTime(now) && now.date != FirstDate
    requires Lower(Trim(raw)) == "yesterday"
    ensures ResolveAsWritten(Str(raw), now, parse).Success?
    ensures var t := ResolveAsWritten(Str(raw), now, parse).value;
      ValidDateTime(t) && t.second == now.second && Ordinal(t.date) == Ordinal(now.date) - 1
  {
    assert raw != "";
    assert Classify(Lower(Trim(raw))) == OneDayBack;
    FirstDateIsFirst(now.date);
  }

  /** A whole-string offset such as `3 h` or `2d` moves back by that amount from now. */
  lemma OffsetMovesBack(digits: string, blanks: string, c: char, now: DateTime, parse: string -> Option<DateTime>)
    requires ValidDateTime(now)
    requires digits != [] && forall i :: 0 <= i < |digits| ==> IsDigit(digits[i])
    requires AllSpace(blanks) && UnitOf(c).Some?
    ensures var r := ResolveAsWritten(Str(digits + blanks + [c]), now, parse);
      (r.Success? <==> Shift(now, ParseNat(digits), UnitOf(c).value).Some?)
      && (r.Success? ==> r.value == Shift(now, ParseNat(digits), UnitOf(c).value).value)
  {
    OffsetCleaned(digits, blanks, c);
    OffsetClassified(digits, blanks, c);
    ResolvedOffset(Str(digits + blanks + [c]), ParseNat(digits), UnitOf(c).value, now, parse);
  }

  /** A value that cleans to an offset resolves to the shifted instant, or raises when there is none. */
  lemma ResolvedOffset(raw: Value, n: nat, u: Unit, now: DateTime, parse: string -> Option<DateTime>)
    requires ValidDateTime(now)
    requires Cleaned(raw).Some? && Classify(Cleaned(raw).value) == Offset(n, u)
    ensures var r := ResolveAsWritten(raw, now, parse);
      (r.Success? <==> Shift(now, n, u).Some?) && (r.Success? ==> r.value == Shift(now, n, u).value)
  {
  }

  // ---------------------------------------------------------------------------------------------
  // The result records
  // ---------------------------------------------------------------------------------------------

  /** The record `search_posts` builds for one post, its date the resolved date's `isoformat()`. */
  function PostRecord(p: Object, now: DateTime, parse: string -> Option<DateTime>): (rec: Object)
    requires ValidDateTime(now) && ParserValid(parse)
  {
    ResolveDateValid(Get(p, "date"), now, parse);
    RecordDated(p, IsoFormat(ResolveDate(Get(p, "date"), now, parse)))
  }

  /** The record's fields, its date text given. */
  function RecordDated(p: Object, date: string): (rec: Object)
  {
    map[
      "service" := Str("linkedin"),
      "source" := Or(Get(p, "source"), Str("LinkedIn")),
      "id" := Get(p, "position"),
      "title" := Or(Get(p, "title"), Str("")),
      "description" := Or(Get(p, "snippet"), Str("")),
      "url" := Get(p, "link"),
      "date" := Str(date)
    ]
  }


  /** What every record promises: the service tag, the defaults, the post's link, and an ISO date. */
  lemma PostRecordFields(p: Object, now: DateTime, parse: string -> Option<DateTime>)
    requires ValidDateTime(now) && ParserValid(parse)
    ensures var rec := PostRecord(p, now, parse);
      rec["service"] == Str("linkedin")
      && (Truthy(Get(p, "source")) ==> rec["source"] == Get(p, "source"))
      && (!Truthy(Get(p, "source")) ==> rec["source"] == Str("LinkedIn"))
      && (Truthy(Get(p, "title")) ==> rec["title"] == Get(p, "title"))
      && (!Truthy(Get(p, "title")) ==> rec["title"] == Str(""))
      && (Truthy(Get(p, "snippet")) ==> rec["description"] == Get(p, "snippet"))
      && (!Truthy(Get(p, "snippet")) ==> rec["description"] == Str(""))
      && rec["url"] == LinkOf(p) && rec["id"] == Get(p, "position")
      && rec["date"].Str? && |rec["date"].s| == 19
  {
    ResolveDateValid(Get(p, "date"), now, parse);
    RecordDatedFields(p, IsoFormat(ResolveDate(Get(p, "date"), now, parse)));
  }

  lemma RecordDatedFields(p: Object, date: string)
    ensures var rec := RecordDated(p, date);
      rec["service"] == Str("linkedin")
      && (Truthy(Get(p, "source")) ==> rec["source"] == Get(p, "source"))
      && (!Truthy(Get(p, "source")) ==> rec["source"] == Str("LinkedIn"))
      && (Truthy(Get(p, "title")) ==> rec["title"] == Get(p, "title"))
      && (!Truthy(Get(p, "title")) ==> rec["title"] == Str(""))
      && (Truthy(Get(p, "snippet")) ==> rec["description"] == Get(p, "snippet"))
      && (!Truthy(Get(p, "snippet")) ==> rec["description"] == Str(""))
      && rec["url"] == LinkOf(p) && rec["id"] == Get(p, "position")
      && rec["date"] == Str(date)
  {
  }

  /** `f` applied to each element, in order. */
  function Mapped<T, U>(xs: seq<T>, f: T -> U): (r: seq<U>)
    ensures |r| == |xs|
  {
    if xs == [] then [] else Mapped(xs[..|xs| - 1], f) + [f(xs[|xs| - 1])]
  }

  lemma {:induction false} MappedAt<T, U>(xs: seq<T>, f: T -> U, k: int)
    requires 0 <= k < |xs|
    ensures Mapped(xs, f)[k] == f(xs[k])
    decreases |xs|
  {
    var init := xs[..|xs| - 1];
    if k < |init| {
      MappedAt(init, f, k);
      assert init[k] == xs[k];
    }
  }

  /** The record of a post, for a clock reading and a parser fixed by the request. */
  function RecordOf(now: DateTime, parse: string -> Option<DateTime>): Object -> Object
    requires ValidDateTime(now) && ParserValid(parse)
  {
    p => PostRecord(p, now, parse)
  }

  /** The record of each post, in order. */
  function Records(posts: seq<Object>, now: DateTime, parse: string -> Option<DateTime>): (r: seq<Object>)
    requires ValidDateTime(now) && ParserValid(parse)
  {
    Mapped(posts, RecordOf(now, parse))
  }

  /** Record `k` is the record of post `k`. */
  lemma RecordsAt(posts: seq<Object>, now: DateTime, parse: string -> Option<DateTime>, k: int)
    requires ValidDateTime(now) && ParserValid(parse) && 0 <= k < |posts|
    ensures |Records(posts, now, parse)| == |posts|
    ensures Records(posts, now, parse)[k] == PostRecord(posts[k], now, parse)
  {
    MappedAt(posts, RecordOf(now, parse), k);
  }

  /** One more post adds its record at the end. */
  lemma RecordsStep(posts: seq<Object>, i: int, now: DateTime, parse: string -> Option<DateTime>)
    requires ValidDateTime(now) && ParserValid(parse) && 0 <= i < |posts|
    ensures Records(posts[..i + 1], now, parse) == Records(posts[..i], now, parse) + [PostRecord(posts[i], now, parse)]
  {
    assert posts[..i + 1][..i] == posts[..i];
    assert RecordOf(now, parse)(posts[i]) == PostRecord(posts[i], now, parse);
  }

  /** What `search_posts` would return with the corrected resolver: one record per first post of each link. */
  function SearchResults(fetched: seq<Object>, now: DateTime, parse: string -> Option<DateTime>): (r: seq<Object>)
    requires ValidDateTime(now) && ParserValid(parse)
  {
    Records(FirstByLink(fetched), now, parse)
  }

  /** With the corrected resolver: one record per first post of each link, in order, never more than the posts fetched. */
  lemma SearchResultsSpec(fetched: seq<Object>, now: DateTime, parse: string -> Option<DateTime>)
    requires ValidDateTime(now) && ParserValid(parse)
    ensures var r := SearchResults(fetched, now, parse);
      |r| == |FirstByLink(fetched)| <= |fetched|
      && forall i :: 0 <= i < |r| ==> r[i] == PostRecord(FirstByLink(fetched)[i], now, parse)
  {
    forall i | 0 <= i < |FirstByLink(fetched)|
      ensures SearchResults(fetched, now, parse)[i] == PostRecord(FirstByLink(fetched)[i], now, parse)
    {
      RecordsAt(FirstByLink(fetched), now, parse, i);
    }
  }

  /**
   * The record of one post AS WRITTEN: `_norm` is called with no `try` around it, so a date it
   * raises on (a truthy non-string, an offset leaving the calendar) raises out of the loop.
   */
  function PostRecordAsWritten(p: Object, now: DateTime, parse: string -> Option<DateTime>): (r: Result<Object, string>)
    requires ValidDateTime(now) && ParserValid(parse)
    ensures r.Failure? <==> ResolveAsWritten(Get(p, "date"), now, parse).Failure?
    ensures r.Failure? ==> r.error == ResolveAsWritten(Get(p, "date"), now, parse).error
    ensures r.Success? ==> r.value == PostRecord(p, now, parse)
  {
    match ResolveAsWritten(Get(p, "date"), now, parse)
    case Failure(e) => Failure(e)
    case Success(t) =>
      ResolveDateValid(Get(p, "date"), now, parse);
      Success(RecordDated(p, IsoFormat(t)))
  }

  /** The body of the `for p in posts` loop: append the post's record, or raise. */
  function RecordSteps(now: DateTime, parse: string -> Option<DateTime>): Object -> Result<Option<Object>, string>
    requires ValidDateTime(now) && ParserValid(parse)
  {
    p => match PostRecordAsWritten(p, now, parse) case Failure(e) => Failure(e) case Success(rec) => Success(Some(rec))
  }

  /** The record loop as written: the record of every post, in order, or the error of the first post `_norm` raises on. */
  function RecordsAsWritten(posts: seq<Object>, now: DateTime, parse: string -> Option<DateTime>): Result<seq<Object>, string>
    requires ValidDateTime(now) && ParserValid(parse)
  {
    Gather(posts, RecordSteps(now, parse))
  }

  /**
   * The record loop raises exactly when `_norm` raises on some post's date, with the error of the
   * first such post; when it does not raise, it returns the records of the corrected resolver.
   */
  lemma RecordsAsWrittenSpec(posts: seq<Object>, now: DateTime, parse: string -> Option<DateTime>)
    requires ValidDateTime(now) && ParserValid(parse)
    ensures RecordsAsWritten(posts, now, parse).Failure? <==>
      exists i :: 0 <= i < |posts| && ResolveAsWritten(Get(posts[i], "date"), now, parse).Failure?
    ensures RecordsAsWritten(posts, now, parse).Failure? ==>
      exists i :: 0 <= i < |posts| && ResolveAsWritten(Get(posts[i], "date"), now, parse) == Failure(RecordsAsWritten(posts, now, parse).error)
        && forall j :: 0 <= j < i ==> ResolveAsWritten(Get(posts[j], "date"), now, parse).Success?
    ensures RecordsAsWritten(posts, now, parse).Success? ==> RecordsAsWritten(posts, now, parse).value == Records(posts, now, parse)
  {
    var step := RecordSteps(now, parse);
    GatherFails(posts, step);
    forall i | 0 <= i < |posts|
      ensures step(posts[i]).Failure? <==> ResolveAsWritten(Get(posts[i], "date"), now, parse).Failure?
      ensures step(posts[i]).Failure? ==> step(posts[i]).error == ResolveAsWritten(Get(posts[i], "date"), now, parse).error
    {
    }
    if RecordsAsWritten(posts, now, parse).Success? {
      RecordsAgree(posts, now, parse);
    }
  }

  /** A record loop that does not raise returns the records of the corrected resolver. */
  lemma {:induction false} RecordsAgree(posts: seq<Object>, now: DateTime, parse: string -> Option<DateTime>)
    requires ValidDateTime(now) && ParserValid(parse) && RecordsAsWritten(posts, now, parse).Success?
    ensures RecordsAsWritten(posts, now, parse).value == Records(posts, now, parse)
    decreases |posts|
  {
    if posts != [] {
      var i := |posts| - 1;
      var init := posts[..i];
      var step := RecordSteps(now, parse);
      assert posts == init + [posts[i]];
      GatherSnoc(init, posts[i], step);
      assert Gather(init, step).Success? && step(posts[i]).Success?;
      assert step(posts[i]) == Success(Some(PostRecord(posts[i], now, parse)));
      RecordsAgree(init, now, parse);
      assert posts[..i + 1] == posts;
      RecordsStep(posts, i, now, parse);
    }
  }

  /** The `results.append` loop over the deduplicated posts. */
  method BuildRecords(posts: seq<Object>, now: DateTime, parse: string -> Option<DateTime>) returns (r: Result<seq<Object>, string>)
    requires ValidDateTime(now) && ParserValid(parse)
    ensures r == RecordsAsWritten(posts, now, parse)
  {
    r := FilterLoop(posts, RecordSteps(now, parse));
  }

  /** What `search_posts` returns for the posts the search pages yielded, or the error it raises. */
  function SearchAsWritten(fetched: seq<Object>, now: DateTime, parse: string -> Option<DateTime>): Result<seq<Object>, string>
    requires ValidDateTime(now) && ParserValid(parse)
  {
    RecordsAsWritten(FirstByLink(fetched), now, parse)
  }

  /**
   * `search_posts` raises exactly when `_norm` raises on the date of a kept post; otherwise it
   * returns one record per first post of each link, as the corrected resolver would.
   */
  lemma SearchAsWrittenSpec(fetched: seq<Object>, now: DateTime, parse: string -> Option<DateTime>)
    requires ValidDateTime(now) && ParserValid(parse)
    ensures SearchAsWritten(fetched, now, parse).Failure? <==>
      exists i :: 0 <= i < |FirstByLink(fetched)| && ResolveAsWritten(Get(FirstByLink(fetched)[i], "date"), now, parse).Failure?
    ensures SearchAsWritten(fetched, now, parse).Success? ==>
      SearchAsWritten(fetched, now, parse).value == SearchResults(fetched, now, parse)
      && |SearchAsWritten(fetched, now, parse).value| == |FirstByLink(fetched)|
  {
    RecordsAsWrittenSpec(FirstByLink(fetched), now, parse);
    SearchResultsSpec(fetched, now, parse);
  }

  /** A kept post dated `"<n>y"` with `n` at least the current year makes the whole search raise. */
  lemma LargeYearOffsetFailsSearch(fetched: seq<Object>, i: int, digits: string, now: DateTime, parse: string -> Option<DateTime>)
    requires ValidDateTime(now) && ParserValid(parse) && 0 <= i < |FirstByLink(fetched)|
    requires digits != [] && forall k :: 0 <= k < |digits| ==> IsDigit(digits[k])
    requires ParseNat(digits) >= now.date.year && Get(FirstByLink(fetched)[i], "date") == Str(digits + "y")
    ensures SearchAsWritten(fetched, now, parse).Failure?
  {
    assert digits + "" + ['y'] == digits + "y";
    LargeYearOffsetRaises(digits, "", 'y', now, parse);
    SearchAsWrittenSpec(fetched, now, parse);
  }

  /**
   * `search_posts` after pagination: `fetched` is everything the search pages returned, in
   * order; the posts are deduplicated by link, then turned into records.
   */
  method SearchPosts(fetched: seq<Object>, now: DateTime, parse: string -> Option<DateTime>) returns (r: Result<seq<Object>, string>)
    requires ValidDateTime(now) && ParserValid(parse)
    ensures r == SearchAsWritten(fetched, now, parse)
  {
    var posts := Dedup(fetched);
    r := BuildRecords(posts, now, parse);
  }

  // ---------------------------------------------------------------------------------------------
  // slugify
  // ---------------------------------------------------------------------------------------------

  /** The input with leading non-alphanumeric characters removed. */
  function SkipJunk(s: string): (r: string)
    ensures |r| <= |s| && s[|s| - |r|..] == r
    ensures r == [] || IsLowerAlnum(r[0])
  {
    if s == [] || IsLowerAlnum(s[0]) then s else SkipJunk(s[1..])
  }

  predicate SlugChar(c: char) { IsLowerAlnum(c) || c == '-' }

  /** Only slug characters, and never two dashes in a row. */
  predicate DashSeparated(s: string) {
    (forall i :: 0 <= i < |s| ==> SlugChar(s[i]))
    && (forall i :: 0 <= i < |s| - 1 && s[i] == '-' ==> s[i + 1] != '-')
  }

  /** `_slug_re.sub("-", s)`: every maximal run of characters outside `[a-z0-9]` becomes one dash. */
  function DashRuns(s: string): (r: string)
    ensures DashSeparated(r)
    ensures r == [] <==> s == []
    ensures r != [] ==> (r[0] == '-' <==> !IsLowerAlnum(s[0]))
    decreases |s|
  {
    if s == [] then []
    else if IsLowerAlnum(s[0]) then [s[0]] + DashRuns(s[1..])
    else "-" + DashRuns(SkipJunk(s))
  }

  /** `s.strip("-")`. */
  function StripDashes(s: string): (r: string)
    ensures r == [] || (r[0] != '-' && r[|r| - 1] != '-')
    ensures DashSeparated(s) ==> DashSeparated(r)
    ensures s == [] || (s[0] != '-' && s[|s| - 1] != '-') ==> r == s
    decreases |s|
  {
    if s == [] then s
    else if s[0] == '-' then StripDashes(s[1..])
    else if s[|s| - 1] == '-' then StripDashes(s[..|s| - 1])
    else s
  }

  /** A well-formed slug: non-empty, `[a-z0-9-]` only, no dash at either end, no double dash. */
  predicate IsSlug(s: string) {
    s != [] && DashSeparated(s) && s[0] != '-' && s[|s| - 1] != '-'
  }

  /**
   * `slugify(text)`: `fold` is NFKD normalisation followed by dropping non-ASCII characters.
   * An empty input, or one left without letters or digits, is `"untitled"`.
   */
  function Slugify(text: string, fold: string -> string): (r: string)
    ensures IsSlug(r)
    ensures text == "" ==> r == "untitled"
  {
    if text == "" then "untitled"
    else
      var s := StripDashes(DashRuns(Lower(fold(text))));
      if s == "" then "untitled" else s
  }

  /** Text without a single ASCII letter or digit (after folding) becomes `"untitled"`. */
  lemma NoAlnumIsUntitled(text: string, fold: string -> string)
    requires forall i :: 0 <= i < |Lower(fold(text))| ==> !IsLowerAlnum(Lower(fold(text))[i])
    ensures Slugify(text, fold) == "untitled"
  {
    var t := Lower(fold(text));
    if text != "" && t != [] {
      assert SkipJunk(t) == [] by { SkipJunkAll(t); }
      assert DashRuns(t) == "-";
    }
  }

  lemma {:induction false} SkipJunkAll(t: string)
    requires forall i :: 0 <= i < |t| ==> !IsLowerAlnum(t[i])
    ensures SkipJunk(t) == []
    decreases |t|
  {
    if t != [] {
      assert forall i :: 0 <= i < |t[1..]| ==> t[1..][i] == t[i + 1];
      SkipJunkAll(t[1..]);
    }
  }

  /** Runs in a string that is already dash-separated are left alone. */
  lemma {:induction false} DashRunsFixed(s: string)
    requires DashSeparated(s)
    ensures DashRuns(s) == s
    decreases |s|
  {
    if s != [] {
      DashSeparatedTail(s);
      DashRunsFixed(s[1..]);
      DashRunsFixedStep(s);
    }
  }

  lemma DashSeparatedTail(s: string)
    requires s != [] && DashSeparated(s)
    ensures DashSeparated(s[1..])
  {
    assert forall i :: 0 <= i < |s[1..]| ==> s[1..][i] == s[i + 1];
  }

  /** The first character of a dash-separated string is kept, given that the rest is. */
  lemma DashRunsFixedStep(s: string)
    requires s != [] && DashSeparated(s) && DashRuns(s[1..]) == s[1..]
    ensures DashRuns(s) == s
  {
    if IsLowerAlnum(s[0]) {
      WordCharKept(s);
    } else {
      assert s[0] == '-' && (|s| == 1 || s[1] != '-');
      assert s[1..] == [] || IsLowerAlnum(s[1..][0]);
      LoneDashKept(s);
    }
  }

  lemma WordCharKept(s: string)
    requires s != [] && IsLowerAlnum(s[0]) && DashRuns(s[1..]) == s[1..]
    ensures DashRuns(s) == s
  {
    assert s == [s[0]] + s[1..];
  }

  lemma LoneDashKept(s: string)
    requires s != [] && s[0] == '-' && (s[1..] == [] || IsLowerAlnum(s[1..][0])) && DashRuns(s[1..]) == s[1..]
    ensures DashRuns(s) == s
  {
    assert SkipJunk(s[1..]) == s[1..];
    assert SkipJunk(s) == s[1..];
    assert s == "-" + s[1..];
  }

  /** A slug is its own slug (when folding leaves ASCII alone): slugify is idempotent. */
  lemma SlugIsFixed(s: string, fold: string -> string)
    requires IsSlug(s) && fold(s) == s
    ensures Slugify(s, fold) == s
  {
    assert Lower(s) == s by {
      forall i | 0 <= i < |s| ensures Lower(s)[i] == s[i] { assert SlugChar(s[i]); }
    }
    DashRunsFixed(s);
  }

  /** A word of letters and digits passes through the dash substitution unchanged. */
  lemma {:induction false} WordRuns(w: string, t: string)
    requires forall i :: 0 <= i < |w| ==> IsLowerAlnum(w[i])
    ensures DashRuns(w + t) == w + DashRuns(t)
    decreases |w|
  {
    if w != [] {
      var s, d := w + t, DashRuns(t);
      assert s[0] == w[0] && s[1..] == w[1..] + t;
      WordRuns(w[1..], t);
      assert DashRuns(s) == [w[0]] + (w[1..] + d);
      assert [w[0]] + (w[1..] + d) == ([w[0]] + w[1..]) + d;
      assert [w[0]] + w[1..] == w;
    } else {
      assert w + t == t;
    }
  }

  /** A run of other characters before a word (or the end) becomes one dash. */
  lemma {:induction false} JunkRuns(j: string, t: string)
    requires j != [] && forall i :: 0 <= i < |j| ==> !IsLowerAlnum(j[i])
    requires t == [] || IsLowerAlnum(t[0])
    ensures DashRuns(j + t) == "-" + DashRuns(t)
  {
    SkipJunkPrefix(j, t);
  }

  lemma {:induction false} SkipJunkPrefix(j: string, t: string)
    requires forall i :: 0 <= i < |j| ==> !IsLowerAlnum(j[i])
    requires t == [] || IsLowerAlnum(t[0])
    ensures SkipJunk(j + t) == t
    decreases |j|
  {
    if j != [] {
      assert (j + t)[1..] == j[1..] + t;
      SkipJunkPrefix(j[1..], t);
    } else {
      assert j + t == t;
    }
  }

  lemma ExampleLowered()
    ensures Lower("Sonko, Diomaye Faye") == "sonko" + (", " + ("diomaye" + (" " + "faye")))
  {
  }

  /** Three words separated by two runs of other characters become the words joined by dashes. */
  lemma ThreeWords(a: string, j: string, b: string, k: string, c: string)
    requires forall i :: 0 <= i < |a| ==> IsLowerAlnum(a[i])
    requires forall i :: 0 <= i < |b| ==> IsLowerAlnum(b[i])
    requires forall i :: 0 <= i < |c| ==> IsLowerAlnum(c[i])
    requires b != [] && c != []
    requires j != [] && forall i :: 0 <= i < |j| ==> !IsLowerAlnum(j[i])
    requires k != [] && forall i :: 0 <= i < |k| ==> !IsLowerAlnum(k[i])
    ensures DashRuns(a + (j + (b + (k + c)))) == a + ("-" + (b + ("-" + c)))
  {
    WordRuns(c, "");
    assert c + "" == c;
    JunkRuns(k, c);
    WordRuns(b, k + c);
    JunkRuns(j, b + (k + c));
    WordRuns(a, j + (b + (k + c)));
  }

  lemma ExampleJoined()
    ensures "sonko" + ("-" + ("diomaye" + ("-" + "faye"))) == "sonko-diomaye-faye"
    ensures "sonko-diomaye-faye"[0] == 's' && "sonko-diomaye-faye"[17] == 'e'
  {
  }

  /** Once the substitution gives a slug, that slug is the result. */
  lemma SlugOfRuns(text: string, fold: string -> string, r: string)
    requires text != "" && DashRuns(Lower(fold(text))) == r
    requires r != [] && r[0] != '-' && r[|r| - 1] != '-'
    ensures Slugify(text, fold) == r
  {
  }

  /** The documented example: `"Sonko, Diomaye Faye"`, which folding leaves alone, slugs to `"sonko-diomaye-faye"`. */
  lemma SlugExample(fold: string -> string)
    requires fold("Sonko, Diomaye Faye") == "Sonko, Diomaye Faye"
    ensures Slugify("Sonko, Diomaye Faye", fold) == "sonko-diomaye-faye"
  {
    var text, r := "Sonko, Diomaye Faye", "sonko-diomaye-faye";
    ExampleLowered();
    ThreeWords("sonko", ", ", "diomaye", " ", "faye");
    ExampleJoined();
    SlugOfRuns(text, fold, r);
  }

  /** Two queries that fold to the same text up to ASCII case share one slug. */
  lemma SlugIgnoresCase(a: string, b: string, fold: string -> string)
    requires a != "" && b != "" && Lower(fold(a)) == Lower(fold(b))
    ensures Slugify(a, fold) == Slugify(b, fold)
  {
  }
}
