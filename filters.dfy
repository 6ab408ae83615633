/**
 * The pieces every `/articles` handler shares: the exclude-term list, the date window and its
 * defaults, the optional language and country filters, and the shape of the handler loop itself
 * (go through the fetched items in order, skip some, append a record for the others, or stop on
 * an exception).
 */
module Filters {
  import opened Wrappers
  import opened Text
  import opened Calendar
  import opened Values
  import opened Lang

  /** The separators of `re.split(r"[,\s]+", ...)`: commas and whitespace. */
  predicate IsTermSep(c: char) { c == ',' || IsSpace(c) }

  predicate NoSep(w: string) { forall i :: 0 <= i < |w| ==> !IsTermSep(w[i]) }

  /** The longest prefix of `s` without a separator. */
  function Word(s: string): (w: string)
    ensures |w| <= |s| && s[..|w|] == w && NoSep(w)
    ensures |w| < |s| ==> IsTermSep(s[|w|])
  {
    if s == [] || IsTermSep(s[0]) then [] else [s[0]] + Word(s[1..])
  }

  /** `[w for w in re.split(r"[,\s]+", s) if w]`. */
  function Terms(s: string): (r: seq<string>)
    ensures forall k :: 0 <= k < |r| ==> r[k] != [] && NoSep(r[k])
    decreases |s|
  {
    if s == [] then []
    else if IsTermSep(s[0]) then Terms(s[1..])
    else
      var w := Word(s);
      [w] + Terms(s[|w|..])
  }

  /** The exclude list of every handler: the `exclude` argument lower-cased, then split. */
  function ExcludeTerms(raw: string): seq<string>
  {
    Terms(Lower(raw))
  }

  /** A word without separators is its own one-term list. */
  lemma WordAlone(w: string)
    requires w != [] && NoSep(w)
    ensures Terms(w) == [w]
  {
    WordOfNoSep(w, "");
    assert w + "" == w;
    assert w[|w|..] == [];
  }

  lemma {:induction false} WordOfNoSep(w: string, rest: string)
    requires NoSep(w)
    requires rest == [] || IsTermSep(rest[0])
    ensures Word(w + rest) == w
    decreases |w|
  {
    if w != [] {
      assert (w + rest)[1..] == w[1..] + rest;
      WordOfNoSep(w[1..], rest);
      assert w == [w[0]] + w[1..];
    } else {
      assert w + rest == rest;
    }
  }

  /** The word at the front of `a` is not changed by what follows `a` after a separator. */
  lemma {:induction false} WordBeforeSep(a: string, c: char, b: string)
    requires IsTermSep(c)
    ensures Word(a + [c] + b) == Word(a)
    decreases |a|
  {
    if a == [] {
      assert (a + [c] + b)[0] == c;
    } else if !IsTermSep(a[0]) {
      assert (a + [c] + b)[1..] == a[1..] + [c] + b;
      WordBeforeSep(a[1..], c, b);
    }
  }

  /** A separator cuts the list in two: the terms before it, then the terms after it. */
  lemma {:induction false} TermsSplitAt(a: string, c: char, b: string)
    requires IsTermSep(c)
    ensures Terms(a + [c] + b) == Terms(a) + Terms(b)
    decreases |a|
  {
    var s := a + [c] + b;
    if a == [] {
      assert s == [c] + b;
      assert s[1..] == b;
    } else if IsTermSep(a[0]) {
      assert s[1..] == a[1..] + [c] + b;
      TermsSplitAt(a[1..], c, b);
    } else {
      var w := Word(s);
      WordBeforeSep(a, c, b);
      assert w == Word(a);
      assert s[|w|..] == a[|w|..] + [c] + b;
      TermsSplitAt(a[|w|..], c, b);
    }
  }

  /** Round trip: splitting words joined by commas gives the words back. */
  lemma {:induction false} TermsOfJoin(ws: seq<string>)
    requires forall k :: 0 <= k < |ws| ==> ws[k] != [] && NoSep(ws[k])
    ensures Terms(Join(ws, ",")) == ws
    decreases |ws|
  {
    if |ws| == 1 {
      WordAlone(ws[0]);
    } else if |ws| > 1 {
      TermsOfJoin(ws[1..]);
      assert Join(ws, ",") == ws[0] + [','] + Join(ws[1..], ",");
      TermsSplitAt(ws[0], ',', Join(ws[1..], ","));
      WordAlone(ws[0]);
    }
  }

  /** `any(w in text for w in ex)`; with an empty list it is false, as `ex and ...` is. */
  predicate AnyTermIn(terms: seq<string>, text: string) {
    exists k :: 0 <= k < |terms| && Contains(text, terms[k])
  }

  /** `lang_filter and lang != lang_filter` negated: an empty filter accepts anything. */
  predicate Accepts(filter: string, value: string) { filter == "" || value == filter }

  /** An inclusive window of calendar days. */
  datatype Window = Window(start: Date, end: Date)

  /** The default start of every window: `date(2023, 1, 1)`. */
  const DefaultStart: Date := Date(2023, 1, 1)

  /** `not (d < start or d > end)`. */
  predicate InWindow(d: Date, w: Window) { DateLe(w.start, d) && DateLe(d, w.end) }

  /**
   * `parser.isoparse(arg).date() if arg else default`: an absent or empty argument gives the
   * default; an argument isoparse rejects raises, which the handler does not catch.
   */
  function ResolveBound(arg: Option<string>, default: Date, isoparse: string -> Option<DateTime>): (r: Result<Date, string>)
    ensures (arg.None? || arg.value == "") ==> r == Success(default)
    ensures arg.Some? && arg.value != "" ==>
      (r.Success? <==> isoparse(arg.value).Some?) && (r.Success? ==> r.value == isoparse(arg.value).value.date)
  {
    if arg.None? || arg.value == "" then Success(default)
    else match isoparse(arg.value)
      case None => Failure("Invalid isoformat string: " + arg.value)
      case Some(t) => Success(t.date)
  }

  /** The window of a handler: `start` defaults to 2023-01-01 and `end` to today; start is parsed first. */
  function ResolveWindow(startArg: Option<string>, endArg: Option<string>, today: Date,
                         isoparse: string -> Option<DateTime>): (r: Result<Window, string>)
    ensures r.Success? <==> ResolveBound(startArg, DefaultStart, isoparse).Success? && ResolveBound(endArg, today, isoparse).Success?
    ensures r.Success? ==> r.value.start == ResolveBound(startArg, DefaultStart, isoparse).value
    ensures r.Success? ==> r.value.end == ResolveBound(endArg, today, isoparse).value
    ensures ResolveBound(startArg, DefaultStart, isoparse).Failure? ==> r == Failure(ResolveBound(startArg, DefaultStart, isoparse).error)
  {
    match ResolveBound(startArg, DefaultStart, isoparse)
    case Failure(e) => Failure(e)
    case Success(s) =>
      match ResolveBound(endArg, today, isoparse)
      case Failure(e) => Failure(e)
      case Success(e) => Success(Window(s, e))
  }

  /** With neither argument the window runs from 2023-01-01 through today. */
  lemma DefaultWindow(today: Date, isoparse: string -> Option<DateTime>)
    ensures ResolveWindow(None, None, today, isoparse) == Success(Window(DefaultStart, today))
  {
  }

  /** The records appended by one loop iteration: none, or one. */
  function Kept<U>(o: Option<U>): seq<U>
  {
    if o.Some? then [o.value] else []
  }

  /**
   * The handler loop as a function: every item in order gives a failure (an exception that
   * leaves the loop), nothing (`continue`), or one record (`append`).
   */
  function Gather<T, U, E>(s: seq<T>, step: T -> Result<Option<U>, E>): Result<seq<U>, E>
  {
    if s == [] then Success([])
    else match Gather(s[..|s| - 1], step)
      case Failure(e) => Failure(e)
      case Success(acc) =>
        match step(s[|s| - 1])
        case Failure(e) => Failure(e)
        case Success(o) => Success(acc + Kept(o))
  }

  /** Adding one item at the end of the input is one more loop iteration. */
  lemma GatherSnoc<T, U, E>(s: seq<T>, x: T, step: T -> Result<Option<U>, E>)
    ensures Gather(s + [x], step) ==
      match Gather(s, step)
      case Failure(e) => Failure(e)
      case Success(acc) => (match step(x) case Failure(e) => Failure(e) case Success(o) => Success(acc + Kept(o)))
  {
    assert (s + [x])[..|s + [x]| - 1] == s;
  }

  /** The positions of the items whose step gives a record, in increasing order. */
  ghost function KeptAt<T, U, E>(s: seq<T>, step: T -> Result<Option<U>, E>): (idx: seq<nat>)
    ensures forall j :: 0 <= j < |idx| ==> idx[j] < |s|
  {
    if s == [] then []
    else
      var last := step(s[|s| - 1]);
      KeptAt(s[..|s| - 1], step) + (if last.Success? && last.value.Some? then [|s| - 1] else [])
  }

  /**
   * What the loop promises when it finishes: no item raised, the output is exactly the records
   * of the kept items in input order (so an order-preserving image of a subsequence), and every
   * item not among them was skipped.
   */
  ghost predicate Selects<T, U, E>(s: seq<T>, step: T -> Result<Option<U>, E>, out: seq<U>)
  {
    && (forall i :: 0 <= i < |s| ==> step(s[i]).Success?)
    && |KeptAt(s, step)| == |out| <= |s|
    && (forall j, k :: 0 <= j < k < |out| ==> KeptAt(s, step)[j] < KeptAt(s, step)[k])
    && (forall j {:trigger out[j]} :: 0 <= j < |out| ==> step(s[KeptAt(s, step)[j]]) == Success(Some(out[j])))
    && (forall i :: 0 <= i < |s| && step(s[i]).value.Some? ==> i in KeptAt(s, step))
  }

  lemma GatherSelects<T, U, E>(s: seq<T>, step: T -> Result<Option<U>, E>, out: seq<U>)
    requires Gather(s, step) == Success(out)
    ensures forall i :: 0 <= i < |s| ==> step(s[i]).Success?
    ensures |KeptAt(s, step)| == |out| <= |s|
    ensures forall j, k :: 0 <= j < k < |out| ==> KeptAt(s, step)[j] < KeptAt(s, step)[k]
    ensures forall j {:trigger out[j]} :: 0 <= j < |out| ==> step(s[KeptAt(s, step)[j]]) == Success(Some(out[j]))
    ensures forall i :: 0 <= i < |s| && step(s[i]).value.Some? ==> i in KeptAt(s, step)
  {
    GatherSelected(s, step, out);
  }

  lemma {:induction false} GatherSelected<T, U, E>(s: seq<T>, step: T -> Result<Option<U>, E>, out: seq<U>)
    requires Gather(s, step) == Success(out)
    ensures Selects(s, step, out)
    decreases |s|
  {
    if s != [] {
      var init := s[..|s| - 1];
      var acc := Gather(init, step).value;
      GatherSelected(init, step, acc);
      if step(s[|s| - 1]).value.Some? {
        SelectsKept(s, step, acc, out);
      } else {
        SelectsSkipped(s, step, acc, out);
      }
    }
  }

  /** The last item emitted a record: it is appended, and its position is kept. */
  lemma SelectsKept<T, U, E>(s: seq<T>, step: T -> Result<Option<U>, E>, acc: seq<U>, out: seq<U>)
    requires s != [] && Selects(s[..|s| - 1], step, acc)
    requires step(s[|s| - 1]).Success? && step(s[|s| - 1]).value.Some?
    requires out == acc + [step(s[|s| - 1]).value.value]
    ensures Selects(s, step, out)
  {
    var init := s[..|s| - 1];
    var idx0, idx := KeptAt(init, step), KeptAt(s, step);
    assert idx == idx0 + [|s| - 1];
    forall i | 0 <= i < |s| ensures step(s[i]).Success? {
      if i < |init| { assert s[i] == init[i]; }
    }
    forall j, k | 0 <= j < k < |out| ensures idx[j] < idx[k] {
      if k < |acc| { assert idx[j] == idx0[j] && idx[k] == idx0[k]; }
    }
    forall j | 0 <= j < |out| ensures step(s[idx[j]]) == Success(Some(out[j])) {
      if j < |acc| { assert idx[j] == idx0[j] && out[j] == acc[j] && s[idx0[j]] == init[idx0[j]]; }
    }
    forall i | 0 <= i < |s| && step(s[i]).value.Some? ensures i in idx {
      if i < |init| { assert s[i] == init[i] && i in idx0; }
    }
  }

  /** The last item emitted nothing: output and kept positions stay as they were. */
  lemma SelectsSkipped<T, U, E>(s: seq<T>, step: T -> Result<Option<U>, E>, acc: seq<U>, out: seq<U>)
    requires s != [] && Selects(s[..|s| - 1], step, acc)
    requires step(s[|s| - 1]).Success? && step(s[|s| - 1]).value.None? && out == acc
    ensures Selects(s, step, out)
  {
    var init := s[..|s| - 1];
    var idx := KeptAt(init, step);
    assert KeptAt(s, step) == idx;
    forall i | 0 <= i < |s| ensures step(s[i]).Success? {
      if i < |init| { assert s[i] == init[i]; }
    }
    forall j | 0 <= j < |out| ensures step(s[idx[j]]) == Success(Some(out[j])) {
      assert s[idx[j]] == init[idx[j]];
    }
    forall i | 0 <= i < |s| && step(s[i]).value.Some? ensures i in idx {
      assert i < |init| && s[i] == init[i];
    }
  }

  /** The loop stops at the first item that raises, and its error is the loop's. */
  lemma {:induction false} GatherFails<T, U, E>(s: seq<T>, step: T -> Result<Option<U>, E>)
    ensures Gather(s, step).Failure? <==> exists i :: 0 <= i < |s| && step(s[i]).Failure?
    ensures Gather(s, step).Failure? ==>
      exists i :: 0 <= i < |s| && step(s[i]) == Failure(Gather(s, step).error) && (forall j :: 0 <= j < i ==> step(s[j]).Success?)
    decreases |s|
  {
    if s != [] {
      var init := s[..|s| - 1];
      GatherFails(init, step);
      forall i | 0 <= i < |init| ensures s[i] == init[i] { }
      if Gather(init, step).Failure? {
        var i :| 0 <= i < |init| && step(init[i]) == Failure(Gather(init, step).error) && (forall j :: 0 <= j < i ==> step(init[j]).Success?);
        assert step(s[i]) == Failure(Gather(s, step).error);
      } else {
        assert forall i :: 0 <= i < |init| ==> step(s[i]).Success?;
      }
    }
  }

  /** The loop appends at most one record per item. */
  lemma {:induction false} GatherShorter<T, U, E>(s: seq<T>, step: T -> Result<Option<U>, E>, out: seq<U>)
    requires Gather(s, step) == Success(out)
    ensures |out| <= |s|
    decreases |s|
  {
    if s != [] {
      GatherShorter(s[..|s| - 1], step, Gather(s[..|s| - 1], step).value);
    }
  }

  /** Once a prefix of the input has raised, the whole loop has raised with that error. */
  lemma {:induction false} GatherFailureSticks<T, U, E>(s: seq<T>, step: T -> Result<Option<U>, E>, k: nat)
    requires k <= |s| && Gather(s[..k], step).Failure?
    ensures Gather(s, step) == Gather(s[..k], step)
    decreases |s|
  {
    if k == |s| {
      assert s[..k] == s;
    } else {
      var init := s[..|s| - 1];
      assert init[..k] == s[..k];
      GatherFailureSticks(init, step, k);
    }
  }

  /** Every item whose step gives a record contributes that record to the output. */
  lemma GatherKeeps<T, U, E>(s: seq<T>, step: T -> Result<Option<U>, E>, out: seq<U>, i: int)
    requires Gather(s, step) == Success(out) && 0 <= i < |s|
    requires step(s[i]).Success? && step(s[i]).value.Some?
    ensures step(s[i]).value.value in out
  {
    GatherSelects(s, step, out);
    var j :| 0 <= j < |KeptAt(s, step)| && KeptAt(s, step)[j] == i;
    assert step(s[i]) == Success(Some(out[j]));
  }

  /**
   * The `for` loop every handler runs: each item raises, is skipped with `continue`, or
   * appends one record; an exception leaves the loop and the handler.
   */
  method FilterLoop<T, U, E>(items: seq<T>, step: T -> Result<Option<U>, E>) returns (r: Result<seq<U>, E>)
    ensures r == Gather(items, step)
  {
    var out: seq<U> := [];
    for i := 0 to |items|
      invariant Gather(items[..i], step) == Success(out)
    {
      assert items[..i + 1] == items[..i] + [items[i]];
      GatherSnoc(items[..i], items[i], step);
      match step(items[i])
      case Failure(e) =>
        GatherFailureSticks(items, step, i + 1);
        return Failure(e);
      case Success(o) =>
        out := out + Kept(o);
    }
    assert items[..|items|] == items;
    return Success(out);
  }

  /** The query-string arguments the handlers read; a missing argument is `""` or `None`. */
  datatype Args = Args(q: string, exclude: string, lang: string, country: string, n: Option<string>,
                       start: Option<string>, end: Option<string>)

  /** The message of the `ValueError` that `int()` raises on a string it cannot read. */
  const NotAnInt := "ValueError: invalid literal for int() with base 10"

  /**
   * `int(request.args.get('n', default))`: the default when `n` is absent, the number `int()`
   * reads otherwise, and `ValueError` when it reads none.
   */
  function CountArg(n: Option<string>, default: int): (r: Result<int, string>)
    ensures n.None? ==> r == Success(default)
  {
    match n
    case None => Success(default)
    case Some(s) =>
      match IntOf(s)
      case None => Failure(NotAnInt)
      case Some(v) => Success(v)
  }

  /** A count written by `str()`, padded or not, reads back as that count. */
  lemma CountArgReads(pre: string, v: int, post: string, default: int)
    requires AllSpace(pre) && AllSpace(post)
    ensures CountArg(Some(pre + IntToString(v) + post), default) == Success(v)
  {
    IntOfIgnoresPadding(pre, IntToString(v), post);
    IntOfToString(v);
  }

  /** A count holding a character that is no digit, sign, underscore or whitespace raises, as `n=abc` does. */
  lemma CountArgRejects(s: string, c: char, default: int)
    requires c in s && !IsDigit(c) && !IsSpace(c) && c != '+' && c != '-' && c != '_'
    ensures CountArg(Some(s), default) == Failure(NotAnInt)
  {
    IntOfRejects(s, c);
  }

  /** What one handler filters with, once its arguments are read. */
  datatype Criteria = Criteria(q: string, ex: seq<string>, lang: string, country: string, window: Window)

  /**
   * The foreign code the handlers call: `dateutil.parser.isoparse`, langdetect's candidate
   * list for a text (`None` when it raises), and tldextract's public suffix of a URL.
   */
  datatype Oracles = Oracles(isoparse: string -> Option<Instant>, detect: string -> Option<seq<Candidate>>, suffixOf: string -> string)

  /** `detect_language(text)` with the default threshold. */
  function LanguageOf(text: string, o: Oracles): string
  {
    DetectLanguage(o.detect(text), DefaultThreshold)
  }

  /**
   * `extract_country(url)` on a field value: a falsy value has no country; a string goes to the
   * suffix lookup; any other value makes the lookup raise.
   */
  function CountryOf(url: Value, o: Oracles): (r: Result<string, string>)
    ensures !Truthy(url) ==> r == Success("")
    ensures url.Str? ==> r == Success(ExtractCountry(Some(url.s), o.suffixOf))
    ensures r.Failure? <==> Truthy(url) && !url.Str?
  {
    if !Truthy(url) then Success("")
    else match url
      case Str(s) => Success(ExtractCountry(Some(s), o.suffixOf))
      case _ => Failure("TypeError: url is not a string")
  }

  /** `parser.isoparse(v)` inside `try`: a missing or non-string value fails like a bad string. */
  function ParseStamp(v: Value, o: Oracles): (r: Option<Instant>)
    ensures !v.Str? ==> r.None?
    ensures v.Str? ==> r == o.isoparse(v.s)
  {
    match v
    case Str(s) => o.isoparse(s)
    case _ => None
  }

  /** Every record in the output comes from some input item whose step produced it. */
  lemma GatherMember<T, U, E>(s: seq<T>, step: T -> Result<Option<U>, E>, out: seq<U>, j: int)
    requires Gather(s, step) == Success(out) && 0 <= j < |out|
    ensures exists i :: 0 <= i < |s| && step(s[i]) == Success(Some(out[j]))
  {
    var i := GatherSource(s, step, out, j);
  }

  /** The item whose step emitted output record `j`. */
  lemma GatherSource<T, U, E>(s: seq<T>, step: T -> Result<Option<U>, E>, out: seq<U>, j: int) returns (i: int)
    requires Gather(s, step) == Success(out) && 0 <= j < |out|
    ensures 0 <= i < |s| && step(s[i]) == Success(Some(out[j]))
  {
    GatherSelects(s, step, out);
    i := KeptAt(s, step)[j];
  }
}
