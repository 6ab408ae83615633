/**
 * Character and string helpers shared by every component: ASCII lower-casing, whitespace,
 * strip/trim, substring search, splitting and joining, decimal rendering of integers.
 */
module Text {
  import opened Wrappers

  /**
   * The ASCII whitespace of JavaScript's `trim()` and of the regular expressions' `\s`. Python's
   * `str.strip()`, `str.split()` and `\s` also count the separators U+001C to U+001F.
   */
  predicate IsSpace(c: char) {
    c == ' ' || c == '\t' || c == '\n' || c == '\r' || c == '\U{000B}' || c == '\U{000C}'
  }

  predicate IsUpper(c: char) { 'A' <= c <= 'Z' }
  predicate IsLowerAlnum(c: char) { 'a' <= c <= 'z' || '0' <= c <= '9' }
  predicate IsDigit(c: char) { '0' <= c <= '9' }

  function LowerChar(c: char): (r: char)
    ensures IsUpper(c) ==> 'a' <= r <= 'z' && r as int == c as int + 32
    ensures !IsUpper(c) ==> r == c
  {
    if IsUpper(c) then (c as int + 32) as char else c
  }

  /** `str.lower()` / `toLowerCase()` on ASCII letters. */
  function Lower(s: string): (r: string)
    ensures |r| == |s|
    ensures forall i :: 0 <= i < |s| ==> r[i] == LowerChar(s[i])
  {
    seq(|s|, i requires 0 <= i < |s| => LowerChar(s[i]))
  }

  lemma LowerIdempotent(s: string)
    ensures Lower(Lower(s)) == Lower(s)
  {
  }

  lemma LowerAppend(a: string, b: string)
    ensures Lower(a + b) == Lower(a) + Lower(b)
  {
  }

  predicate AllSpace(s: string) { forall i :: 0 <= i < |s| ==> IsSpace(s[i]) }

  function TrimLeft(s: string): (r: string)
    ensures |r| <= |s| && s[|s| - |r|..] == r
    ensures r == [] || !IsSpace(r[0])
    ensures AllSpace(s[..|s| - |r|])
  {
    if |s| > 0 && IsSpace(s[0]) then TrimLeft(s[1..]) else s
  }

  function TrimRight(s: string): (r: string)
    ensures |r| <= |s| && s[..|r|] == r
    ensures r == [] || !IsSpace(r[|r| - 1])
    ensures AllSpace(s[|r|..])
  {
    if |s| > 0 && IsSpace(s[|s| - 1]) then
      var r := TrimRight(s[..|s| - 1]);
      assert s[|r|..] == s[..|s| - 1][|r|..] + [s[|s| - 1]];
      r
    else s
  }

  /** Python's `str.strip()` and JavaScript's `trim()`. */
  function Trim(s: string): (r: string)
    ensures r == [] || (!IsSpace(r[0]) && !IsSpace(r[|r| - 1]))
    ensures r == [] <==> AllSpace(s)
  {
    TrimEmptyIffAllSpace(s);
    TrimRight(TrimLeft(s))
  }

  /** A string with no padding is its own trim. */
  lemma TrimUnpadded(s: string)
    requires s == [] || (!IsSpace(s[0]) && !IsSpace(s[|s| - 1]))
    ensures Trim(s) == s
  {
    assert TrimLeft(s) == s;
  }

  lemma TrimEmptyIffAllSpace(s: string)
    ensures TrimRight(TrimLeft(s)) == [] <==> AllSpace(s)
  {
    var l := TrimLeft(s);
    var n := |s| - |l|;
    assert s[n..] == l;
    if TrimRight(l) == [] {
      assert l[0..] == l;
      forall i | 0 <= i < |s| ensures IsSpace(s[i]) {
        if i < n {
          assert s[..n][i] == s[i];
        } else {
          assert l[i - n] == s[i];
        }
      }
    }
    if l != [] {
      assert l[0] == s[n];
    }
  }

  lemma {:induction false} TrimLeftSpacePrefix(pre: string, x: string)
    requires AllSpace(pre)
    ensures TrimLeft(pre + x) == TrimLeft(x)
    decreases |pre|
  {
    if pre != [] {
      assert (pre + x)[1..] == pre[1..] + x;
      TrimLeftSpacePrefix(pre[1..], x);
    } else {
      assert pre + x == x;
    }
  }

  lemma {:induction false} TrimRightSpaceSuffix(x: string, post: string)
    requires AllSpace(post)
    ensures TrimRight(x + post) == TrimRight(x)
    decreases |post|
  {
    if post != [] {
      var n := |post| - 1;
      assert (x + post)[..|x + post| - 1] == x + post[..n];
      TrimRightSpaceSuffix(x, post[..n]);
    } else {
      assert x + post == x;
    }
  }

  lemma {:induction false} TrimLeftAppend(x: string, post: string)
    requires !AllSpace(x)
    ensures TrimLeft(x + post) == TrimLeft(x) + post
    decreases |x|
  {
    if IsSpace(x[0]) {
      assert (x + post)[1..] == x[1..] + post;
      assert !AllSpace(x[1..]) by {
        var i :| 0 <= i < |x| && !IsSpace(x[i]);
        assert x[1..][i - 1] == x[i];
      }
      TrimLeftAppend(x[1..], post);
    }
  }

  /** Whitespace around a string never changes what `strip()` keeps. */
  lemma TrimIgnoresPadding(pre: string, x: string, post: string)
    requires AllSpace(pre) && AllSpace(post)
    ensures Trim(pre + x + post) == Trim(x)
  {
    assert pre + x + post == pre + (x + post);
    TrimLeftSpacePrefix(pre, x + post);
    if AllSpace(x) {
      assert AllSpace(x + post);
      TrimEmptyIffAllSpace(x + post);
      TrimEmptyIffAllSpace(x);
    } else {
      TrimLeftAppend(x, post);
      TrimRightSpaceSuffix(TrimLeft(x), post);
    }
  }

  lemma {:induction false} TrimLeftLower(s: string)
    ensures TrimLeft(Lower(s)) == Lower(TrimLeft(s))
    decreases |s|
  {
    if |s| > 0 {
      var l := Lower(s);
      assert l[0] == LowerChar(s[0]);
      if IsSpace(s[0]) {
        assert IsSpace(l[0]);
        assert l[1..] == Lower(s[1..]);
        TrimLeftLower(s[1..]);
      } else {
        assert !IsSpace(l[0]);
      }
    }
  }

  lemma {:induction false} TrimRightLower(s: string)
    ensures TrimRight(Lower(s)) == Lower(TrimRight(s))
    decreases |s|
  {
    if |s| > 0 {
      if IsSpace(s[|s| - 1]) {
        TrimRightLowerSpace(s);
        TrimRightLower(s[..|s| - 1]);
      } else {
        TrimRightLowerKeep(s);
      }
    }
  }

  lemma TrimRightLowerSpace(s: string)
    requires |s| > 0 && IsSpace(s[|s| - 1])
    ensures TrimRight(Lower(s)) == TrimRight(Lower(s[..|s| - 1]))
    ensures TrimRight(s) == TrimRight(s[..|s| - 1])
  {
    var l := Lower(s);
    assert IsSpace(l[|l| - 1]);
    LowerPrefix(s, |s| - 1);
  }

  lemma TrimRightLowerKeep(s: string)
    requires |s| > 0 && !IsSpace(s[|s| - 1])
    ensures TrimRight(Lower(s)) == Lower(s) && TrimRight(s) == s
  {
    var l := Lower(s);
    assert !IsSpace(l[|l| - 1]);
  }

  lemma LowerPrefix(s: string, n: nat)
    requires n <= |s|
    ensures Lower(s)[..n] == Lower(s[..n])
  {
  }

  /** Lower-casing and stripping commute: whitespace is unaffected by `lower()`. */
  lemma TrimLower(s: string)
    ensures Trim(Lower(s)) == Lower(Trim(s))
  {
    TrimLeftLower(s);
    TrimRightLower(TrimLeft(s));
  }

  predicate StartsWith(s: string, p: string) { |p| <= |s| && s[..|p|] == p }

  /** `t in s` for Python strings, `s.includes(t)` in JavaScript: t occurs in s as a contiguous block. */
  predicate Contains(s: string, t: string) {
    exists i :: 0 <= i <= |s| - |t| && OccursAt(s, t, i)
  }

  /** t occurs in s starting at index i. */
  predicate OccursAt(s: string, t: string, i: int) {
    0 <= i && i + |t| <= |s| && s[i..i + |t|] == t
  }

  /** The index of the leftmost occurrence of t in s (`str.find`, `indexOf`). */
  function Find(s: string, t: string): (r: Option<nat>)
    ensures r.Some? ==> OccursAt(s, t, r.value)
    ensures r.Some? ==> forall j :: 0 <= j < r.value ==> !OccursAt(s, t, j)
    ensures r.None? <==> !Contains(s, t)
    decreases |s|
  {
    if |t| > |s| then None
    else if s[..|t|] == t then Some(0)
    else
      assert !OccursAt(s, t, 0);
      var rest := Find(s[1..], t);
      ShiftOccurs(s, t);
      if rest.None? then None else Some(rest.value + 1)
  }

  /** Occurrences of t in s at positions >= 1 are the occurrences in s[1..], shifted by one. */
  lemma ShiftOccurs(s: string, t: string)
    requires |s| > 0
    ensures forall i :: 1 <= i ==> (OccursAt(s, t, i) <==> OccursAt(s[1..], t, i - 1))
  {
    forall i | 1 <= i
      ensures OccursAt(s, t, i) <==> OccursAt(s[1..], t, i - 1)
    {
      if i + |t| <= |s| {
        var a, b := s[i..i + |t|], s[1..][i - 1..i - 1 + |t|];
        forall k | 0 <= k < |a| ensures a[k] == b[k] {}
        assert a == b;
      }
    }
  }

  /** Executable form of Contains, used where a concrete string is evaluated. */
  lemma ContainsByFind(s: string, t: string)
    ensures Contains(s, t) <==> Find(s, t).Some?
  {
  }

  lemma ContainsWitness(s: string, t: string, i: int)
    requires OccursAt(s, t, i)
    ensures Contains(s, t)
  {
  }

  lemma ContainsEmpty(s: string)
    ensures Contains(s, "")
  {
    ContainsWitness(s, "", 0);
  }

  /** Python's `s.split(c)`: the pieces between occurrences of c, always at least one. */
  function Split(s: string, c: char): (r: seq<string>)
    ensures |r| >= 1
    ensures forall k :: 0 <= k < |r| ==> c !in r[k]
    decreases |s|
  {
    if c !in s then [s]
    else
      var i := IndexOfChar(s, c);
      [s[..i]] + Split(s[i + 1..], c)
  }

  function IndexOfChar(s: string, c: char): (i: nat)
    requires c in s
    ensures i < |s| && s[i] == c && c !in s[..i]
  {
    if s[0] == c then 0 else IndexOfChar(s[1..], c) + 1
  }

  function Join(parts: seq<string>, sep: string): (r: string)
  {
    if |parts| == 0 then ""
    else if |parts| == 1 then parts[0]
    else parts[0] + sep + Join(parts[1..], sep)
  }

  /** Splitting on a character and joining with it gives the string back. */
  lemma {:induction false} JoinSplit(s: string, c: char)
    ensures Join(Split(s, c), [c]) == s
    decreases |s|
  {
    if c in s {
      var i := IndexOfChar(s, c);
      var tail := Split(s[i + 1..], c);
      JoinSplit(s[i + 1..], c);
      var parts := [s[..i]] + tail;
      assert Split(s, c) == parts;
      assert |parts| > 1 && parts[0] == s[..i] && parts[1..] == tail;
      assert Join(parts, [c]) == s[..i] + [c] + Join(tail, [c]);
      assert s == s[..i] + [c] + s[i + 1..];
    }
  }

  /** The last element and the rest of a sequence with one more element in front. */
  lemma ConsInitLast<T>(x: T, q: seq<T>)
    requires |q| >= 1
    ensures var p := [x] + q; p[..|p| - 1] == [x] + q[..|q| - 1] && p[|p| - 1] == q[|q| - 1]
  {
  }

  /** A sequence is its prefix followed by the rest. */
  lemma TakeDrop<T>(s: seq<T>, k: int)
    requires 0 <= k <= |s|
    ensures s[..k] + s[k..] == s
  {
  }

  /** Appending keeps every element and puts the new one last. */
  lemma Snoc<T>(s: seq<T>, x: T)
    ensures |s + [x]| == |s| + 1 && (s + [x])[|s|] == x
    ensures forall k :: 0 <= k < |s| ==> (s + [x])[k] == s[k]
  {
  }

  /** Dropping the first part of a three-part concatenation leaves the other two. */
  lemma DropFront<T>(a: seq<T>, b: seq<T>, c: seq<T>)
    ensures a + b + c == a + (b + c) && (a + b + c)[|a|..] == b + c
  {
  }

  /** The first element of a concatenation, and what follows it. */
  lemma AppendHead<T>(a: seq<T>, b: seq<T>)
    requires a != []
    ensures (a + b)[0] == a[0] && (a + b)[1..] == a[1..] + b
  {
  }

  /** All but the last element of a concatenation with a non-empty second part, and that element. */
  lemma InitOfAppend<T>(x: seq<T>, q: seq<T>)
    requires q != []
    ensures (x + q)[..|x + q| - 1] == x + q[..|q| - 1] && (x + q)[|x + q| - 1] == q[|q| - 1]
  {
  }

  lemma AppendEmpty<T>(s: seq<T>)
    ensures s + [] == s && [] + s == s
  {
  }

  lemma ConsAssoc<T>(x: T, a: seq<T>, b: seq<T>)
    ensures [x] + (a + b) == ([x] + a) + b
  {
  }

  /** Concatenation of a sequence of strings. */
  function Concat(parts: seq<string>): (r: string)
  {
    if parts == [] then "" else parts[0] + Concat(parts[1..])
  }

  lemma {:induction false} ConcatAppend(a: seq<string>, b: seq<string>)
    ensures Concat(a + b) == Concat(a) + Concat(b)
    decreases |a|
  {
    if a != [] {
      assert (a + b)[1..] == a[1..] + b;
      ConcatAppend(a[1..], b);
    } else {
      assert a + b == b;
    }
  }

  /** `re.sub(r"\s+", " ", s)`: every maximal run of whitespace becomes one space. */
  function CollapseSpace(s: string): (r: string)
    ensures |r| <= |s|
    decreases |s|
  {
    if s == [] then ""
    else if IsSpace(s[0]) then
      var rest := TrimLeft(s);
      " " + CollapseSpace(rest)
    else [s[0]] + CollapseSpace(s[1..])
  }

  /** Whitespace only as single spaces, each followed by a non-space character. */
  predicate SingleSpaced(s: string) {
    forall i | 0 <= i < |s| && IsSpace(s[i]) :: s[i] == ' ' && i + 1 < |s| && !IsSpace(s[i + 1])
  }

  /** Collapsing whitespace leaves an already single-spaced string unchanged. */
  lemma {:induction false} SingleSpacedFixed(s: string)
    requires SingleSpaced(s)
    ensures CollapseSpace(s) == s
    decreases |s|
  {
    if s != [] {
      SingleSpacedTail(s);
      SingleSpacedFixed(s[1..]);
      if IsSpace(s[0]) {
        SingleSpacedLead(s);
        assert CollapseSpace(s) == " " + s[1..];
      } else {
        assert CollapseSpace(s) == [s[0]] + s[1..];
      }
      HeadTail(s);
    }
  }

  lemma SingleSpacedTail(s: string)
    requires SingleSpaced(s) && s != []
    ensures SingleSpaced(s[1..])
  {
    forall i | 0 <= i < |s[1..]| && IsSpace(s[1..][i])
      ensures s[1..][i] == ' ' && i + 1 < |s[1..]| && !IsSpace(s[1..][i + 1])
    {
      assert s[1..][i] == s[i + 1];
    }
  }

  /** A single-spaced string that starts with whitespace starts with one space and then a word. */
  lemma SingleSpacedLead(s: string)
    requires SingleSpaced(s) && s != [] && IsSpace(s[0])
    ensures [s[0]] == " " && TrimLeft(s) == s[1..]
  {
    assert s[0] == ' ' && |s| > 1 && !IsSpace(s[1]);
    assert s[1..][0] == s[1];
  }

  lemma HeadTail<T>(s: seq<T>)
    requires s != []
    ensures [s[0]] + s[1..] == s
  {
  }

  /** The last piece of a split is what follows the last separator. */
  lemma {:induction false} SplitLast(a: string, c: char, b: string)
    requires c !in b
    ensures var r := Split(a + [c] + b, c); r[|r| - 1] == b
    decreases |a|
  {
    if c in a {
      var j := IndexOfChar(a, c);
      var x, y := a[..j], a[j + 1..];
      var t := Split(y + [c] + b, c);
      AroundFirst(a, c, b);
      SplitCons(x, c, y + [c] + b);
      assert Split(a + [c] + b, c) == [x] + t;
      SplitLast(y, c, b);
      LastOfCons(x, t);
    } else {
      SplitTwo(a, c, b);
    }
  }

  /** With one separator, the split has two pieces. */
  lemma SplitTwo(a: string, c: char, b: string)
    requires c !in a && c !in b
    ensures Split(a + [c] + b, c) == [a, b]
  {
    SplitCons(a, c, b);
    assert Split(b, c) == [b];
  }

  lemma LastOfCons<T>(x: T, t: seq<T>)
    requires t != []
    ensures |[x] + t| == |t| + 1 && ([x] + t)[|t|] == t[|t| - 1]
  {
  }

  /** `a + [c] + b` regrouped around the first `c` of `a`. */
  lemma AroundFirst(a: string, c: char, b: string)
    requires c in a
    ensures var j := IndexOfChar(a, c); a + [c] + b == a[..j] + [c] + (a[j + 1..] + [c] + b)
  {
    var j := IndexOfChar(a, c);
    assert a == a[..j] + [c] + a[j + 1..];
  }

  /** The decimal digits of a natural number. */
  function NatToString(n: nat): (r: string)
    ensures |r| >= 1
    ensures forall i :: 0 <= i < |r| ==> IsDigit(r[i])
    decreases n
  {
    if n < 10 then [DigitChar(n)] else NatToString(n / 10) + [DigitChar(n % 10)]
  }

  function DigitChar(d: nat): (c: char)
    requires d < 10
    ensures IsDigit(c)
  {
    ('0' as int + d) as char
  }

  /** Python's `str(n)` / `f"{n}"` for an integer. */
  function IntToString(n: int): (r: string)
    ensures |r| >= 1
  {
    if n < 0 then "-" + NatToString(-n) else NatToString(n)
  }

  /** JavaScript's `s.replace(t, u)` with a string pattern: only the leftmost occurrence is replaced. */
  function ReplaceFirst(s: string, t: string, u: string): (r: string)
    ensures !Contains(s, t) ==> r == s
    ensures Contains(s, t) ==> exists i :: OccursAt(s, t, i) && r == s[..i] + u + s[i + |t|..]
  {
    match Find(s, t)
    case None => s
    case Some(i) => s[..i] + u + s[i + |t|..]
  }

  /**
   * `s.split(sep)` with a non-empty string separator, in Python and JavaScript alike: the pieces
   * between the leftmost non-overlapping occurrences of `sep`.
   */
  function SplitOn(s: string, sep: string): (r: seq<string>)
    requires sep != []
    ensures |r| >= 1 && !Contains(r[|r| - 1], sep)
    decreases |s|
  {
    match Find(s, sep)
    case None => [s]
    case Some(i) => [s[..i]] + SplitOn(s[i + |sep|..], sep)
  }

  /** Text appended after an occurrence does not move the leftmost occurrence. */
  lemma {:induction false} FindExtend(s: string, c: string, t: string)
    requires Find(s, t).Some?
    ensures Find(s + c, t) == Find(s, t)
    decreases |s|
  {
    assert (s + c)[..|t|] == s[..|t|];
    if s[..|t|] != t {
      assert (s + c)[1..] == s[1..] + c;
      FindExtend(s[1..], c, t);
    }
  }

  /**
   * Appending `c` to `s` leaves every piece but the last as it was, and only the last, unfinished
   * piece is split again together with `c`.
   */
  ghost predicate AppendSplits(s: string, c: string, sep: string)
    requires sep != []
  {
    var p := SplitOn(s, sep);
    SplitOn(s + c, sep) == p[..|p| - 1] + SplitOn(p[|p| - 1] + c, sep)
  }

  /**
   * Splitting incrementally: the complete pieces of `s` stay complete when text is appended,
   * and only the last, unfinished piece is split again with the new text.
   */
  lemma {:induction false} SplitOnAppend(s: string, c: string, sep: string)
    requires sep != []
    ensures AppendSplits(s, c, sep)
    decreases |s|, 1
  {
    var f := Find(s, sep);
    if f.Some? {
      SplitOnAppendStep(s, c, sep, f.value);
    } else {
      SplitOnAppendNone(s, c, sep);
    }
  }

  /** Without a separator, the string is its only piece. */
  lemma SplitOnAppendNone(s: string, c: string, sep: string)
    requires sep != [] && Find(s, sep).None?
    ensures AppendSplits(s, c, sep)
  {
    assert SplitOn(s, sep) == [s];
  }

  /** The step of `SplitOnAppend` past the leftmost separator. */
  lemma {:induction false} SplitOnAppendStep(s: string, c: string, sep: string, i: nat)
    requires sep != [] && Find(s, sep) == Some(i)
    ensures AppendSplits(s, c, sep)
    decreases |s|, 0
  {
    var rest := s[i + |sep|..];
    SplitOnAppend(rest, c, sep);
    SplitOnConsAppend(s, c, sep, i);
    SplitOnAppendJoin(s, c, sep, i);
  }

  /** The pieces of `s + c` and of `s` combined, once the step past the first separator is known. */
  lemma SplitOnAppendJoin(s: string, c: string, sep: string, i: nat)
    requires sep != [] && Find(s, sep) == Some(i)
    requires AppendSplits(s[i + |sep|..], c, sep)
    requires SplitOn(s + c, sep) == [s[..i]] + SplitOn(s[i + |sep|..] + c, sep)
    ensures AppendSplits(s, c, sep)
  {
    var q := SplitOn(s[i + |sep|..], sep);
    SplitOnCons(s, sep, i, q);
    ConsLast(s[..i], q, q[..|q| - 1] + SplitOn(q[|q| - 1] + c, sep), SplitOn(q[|q| - 1] + c, sep));
  }

  /** Putting an element in front of a sequence whose last element is replaced by a tail. */
  lemma ConsLast<T>(x: T, q: seq<T>, r: seq<T>, tail: seq<T>)
    requires |q| >= 1 && r == q[..|q| - 1] + tail
    ensures var p := [x] + q; [x] + r == p[..|p| - 1] + tail && p[|p| - 1] == q[|q| - 1]
  {
    assert ([x] + q)[..|q|] == [x] + q[..|q| - 1];
  }

  /** Appending text after the leftmost separator keeps the first piece. */
  lemma SplitOnConsAppend(s: string, c: string, sep: string, i: nat)
    requires sep != [] && Find(s, sep) == Some(i)
    ensures SplitOn(s + c, sep) == [s[..i]] + SplitOn(s[i + |sep|..] + c, sep)
  {
    FindExtend(s, c, sep);
    assert (s + c)[..i] == s[..i];
    assert (s + c)[i + |sep|..] == s[i + |sep|..] + c;
    SplitOnCons(s + c, sep, i, SplitOn(s[i + |sep|..] + c, sep));
  }

  /** Unfolding one step of `SplitOn` past its leftmost separator. */
  lemma SplitOnCons(s: string, sep: string, i: nat, tail: seq<string>)
    requires sep != [] && Find(s, sep) == Some(i) && tail == SplitOn(s[i + |sep|..], sep)
    ensures SplitOn(s, sep) == [s[..i]] + tail
  {
  }

  /**
   * A piece followed by the separator is split off as it is when no occurrence of the
   * separator starts inside it (the piece and the separator less its last character hold none).
   */
  lemma SplitOnFirst(p: string, sep: string, rest: string)
    requires sep != [] && !Contains(p + sep[..|sep| - 1], sep)
    ensures SplitOn(p + sep + rest, sep) == [p] + SplitOn(rest, sep)
  {
    var s := p + sep + rest;
    assert s[|p|..|p| + |sep|] == sep;
    ContainsWitness(s, sep, |p|);
    var j := Find(s, sep).value;
    if j < |p| {
      var q := p + sep[..|sep| - 1];
      assert s[j..j + |sep|] == q[j..j + |sep|];
      assert OccursAt(q, sep, j);
      assert false;
    }
    assert s[..|p|] == p;
    assert s[|p| + |sep|..] == rest;
  }

  /** Splitting a join gives the pieces back when no piece lets an occurrence of the separator start early. */
  lemma {:induction false} SplitOnJoin(parts: seq<string>, sep: string)
    requires sep != [] && |parts| >= 1
    requires forall k :: 0 <= k < |parts| - 1 ==> !Contains(parts[k] + sep[..|sep| - 1], sep)
    requires !Contains(parts[|parts| - 1], sep)
    ensures SplitOn(Join(parts, sep), sep) == parts
    decreases |parts|
  {
    if |parts| == 1 {
      assert Find(parts[0], sep).None?;
    } else {
      SplitOnJoin(parts[1..], sep);
      SplitOnFirst(parts[0], sep, Join(parts[1..], sep));
      assert [parts[0]] + parts[1..] == parts;
    }
  }

  /** Every line feed is followed by a character other than a line feed: no blank line inside, and no line feed at the end. */
  predicate LoneNewlines(p: string)
  {
    forall i :: 0 <= i < |p| && p[i] == '\n' ==> i + 1 < |p| && p[i + 1] != '\n'
  }

  /** Such a string, alone or followed by one line feed, holds no blank line `"\n\n"`. */
  lemma LoneNewlinesClean(p: string)
    requires LoneNewlines(p)
    ensures !Contains(p + "\n", "\n\n") && !Contains(p, "\n\n")
  {
    var q := p + "\n";
    forall j | 0 <= j && j + 2 <= |q|
      ensures !OccursAt(q, "\n\n", j)
    {
      assert q[j..j + 2][0] == q[j] && q[j..j + 2][1] == q[j + 1];
      if q[j] == '\n' {
        assert p[j] == '\n';
        assert q[j + 1] == p[j + 1];
      }
    }
    forall j | 0 <= j && j + 2 <= |p|
      ensures !OccursAt(p, "\n\n", j)
    {
      assert p[j..j + 2][0] == p[j] && p[j..j + 2][1] == p[j + 1];
    }
  }

  /** The first occurrence of `c` in `x + [c] + y` is the one after `x` when `x` holds none. */
  lemma IndexAfter(x: string, c: char, y: string)
    requires c !in x
    ensures c in x + [c] + y && IndexOfChar(x + [c] + y, c) == |x|
  {
    var s := x + [c] + y;
    assert s[|x|] == c;
  }

  /** Splitting `x + [c] + y` when `x` holds no `c` splits off `x` first. */
  lemma SplitCons(x: string, c: char, y: string)
    requires c !in x
    ensures Split(x + [c] + y, c) == [x] + Split(y, c)
  {
    var s := x + [c] + y;
    IndexAfter(x, c, y);
    assert s[..|x|] == x;
    assert s[|x| + 1..] == y;
  }

  /** Joining pieces that do not hold the character and splitting on it gives the pieces back. */
  lemma {:induction false} SplitJoin(ls: seq<string>, c: char)
    requires |ls| >= 1 && forall k :: 0 <= k < |ls| ==> c !in ls[k]
    ensures Split(Join(ls, [c]), c) == ls
    decreases |ls|
  {
    if |ls| > 1 {
      var tail := ls[1..];
      assert forall k :: 0 <= k < |tail| ==> tail[k] == ls[k + 1];
      SplitJoin(tail, c);
      var rest := Join(tail, [c]);
      assert Join(ls, [c]) == ls[0] + [c] + rest;
      SplitCons(ls[0], c, rest);
      assert [ls[0]] + tail == ls;
    }
  }

  /** Non-empty lines without line feeds, joined by line feeds, leave every line feed lone; the join starts with the first line. */
  lemma {:induction false} JoinLone(ls: seq<string>)
    requires |ls| >= 1 && forall k :: 0 <= k < |ls| ==> |ls[k]| > 0 && '\n' !in ls[k]
    ensures var j := Join(ls, "\n"); LoneNewlines(j) && ls[0] <= j
    decreases |ls|
  {
    var x := ls[0];
    if |ls| == 1 {
      forall i | 0 <= i < |x| ensures x[i] != '\n' { }
    } else {
      var y := Join(ls[1..], "\n");
      JoinLone(ls[1..]);
      var j := x + "\n" + y;
      assert Join(ls, "\n") == j;
      forall i | 0 <= i < |j| && j[i] == '\n' ensures i + 1 < |j| && j[i + 1] != '\n'
      {
        if i == |x| {
          assert j[i + 1] == y[0] == ls[1][0];
        } else if i > |x| {
          assert j[i] == y[i - |x| - 1];
          assert i + 1 < |j| && j[i + 1] == y[i - |x|];
        }
      }
    }
  }

  // ----- line splitting -----

  /** The line boundaries of Python's `str.splitlines()`. */
  predicate IsLineBreak(c: char) {
    c == '\n' || c == '\r' || c == '\U{000B}' || c == '\U{000C}' || c == '\U{001C}' || c == '\U{001D}'
    || c == '\U{001E}' || c == '\U{0085}' || c == '\U{2028}' || c == '\U{2029}'
  }

  /** The line ends of a file read in text mode with universal newlines. */
  predicate IsNewline(c: char) { c == '\n' || c == '\r' }

  /** The length of the first line: the index of the first break, or `|s|`. */
  function BreakAt(s: string, brk: char -> bool): (n: nat)
    ensures n <= |s|
    ensures forall j :: 0 <= j < n ==> !brk(s[j])
    ensures n < |s| ==> brk(s[n])
  {
    if s == [] || brk(s[0]) then 0 else 1 + BreakAt(s[1..], brk)
  }

  /** `\r\n` is one line break; every other break is one character. */
  function BreakWidth(s: string, n: nat): (w: nat)
    requires n < |s|
    ensures 1 <= w && n + w <= |s|
  {
    if s[n] == '\r' && n + 1 < |s| && s[n + 1] == '\n' then 2 else 1
  }

  /**
   * `str.splitlines()` over the breaks `brk`: the lines without their ends, with no empty line
   * after a final break; the empty string has no line.
   */
  function SplitLines(s: string, brk: char -> bool): (r: seq<string>)
    ensures s == [] <==> r == []
    ensures forall k, j :: 0 <= k < |r| && 0 <= j < |r[k]| ==> !brk(r[k][j])
    decreases |s|
  {
    if s == [] then []
    else
      var n := BreakAt(s, brk);
      if n == |s| then [s]
      else [s[..n]] + SplitLines(s[n + BreakWidth(s, n)..], brk)
  }

  predicate NoBreak(s: string, brk: char -> bool) { forall j :: 0 <= j < |s| ==> !brk(s[j]) }

  lemma BreakAtLine(a: string, t: string, brk: char -> bool)
    requires NoBreak(a, brk) && t != [] && brk(t[0])
    ensures BreakAt(a + t, brk) == |a|
    decreases |a|
  {
    if a != [] {
      assert (a + t)[1..] == a[1..] + t;
      BreakAtLine(a[1..], t, brk);
    }
  }

  /** A line ended by `\n`, `\r\n`, or a lone `\r` or other break, is the first line and is dropped with its end. */
  lemma SplitLinesCons(a: string, sep: string, t: string, brk: char -> bool)
    requires NoBreak(a, brk)
    requires (sep == "\r\n" && brk('\r'))
      || (|sep| == 1 && brk(sep[0]) && (sep[0] != '\r' || t == [] || t[0] != '\n'))
    ensures SplitLines(a + sep + t, brk) == [a] + SplitLines(t, brk)
  {
    var s := a + sep + t;
    assert s == a + (sep + t);
    BreakAtLine(a, sep + t, brk);
    SeparatorWidth(a, sep, t);
    assert s[..|a|] == a;
    assert s[|a| + |sep|..] == t;
  }

  /** The break after a line is as wide as its separator. */
  lemma SeparatorWidth(a: string, sep: string, t: string)
    requires sep == "\r\n" || (|sep| == 1 && (sep[0] != '\r' || t == [] || t[0] != '\n'))
    ensures |a| < |a + sep + t| && BreakWidth(a + sep + t, |a|) == |sep|
  {
    var s := a + sep + t;
    assert s[|a|] == sep[0];
    if sep != "\r\n" && sep[0] == '\r' && t != [] {
      assert s[|a| + 1] == t[0];
    }
    if sep == "\r\n" {
      assert s[|a| + 1] == '\n';
    }
  }

  /** Each line followed by `\n`, as `"\n".join(lines) + "\n"` writes them. */
  function Unlines(ls: seq<string>): (s: string)
    ensures ls == [] <==> s == []
  {
    if ls == [] then "" else ls[0] + "\n" + Unlines(ls[1..])
  }

  /** `splitlines()` gives back lines written one per line, whatever text follows them. */
  lemma {:induction false} SplitUnlines(ls: seq<string>, t: string, brk: char -> bool)
    requires brk('\n') && forall k :: 0 <= k < |ls| ==> NoBreak(ls[k], brk)
    ensures SplitLines(Unlines(ls) + t, brk) == ls + SplitLines(t, brk)
    decreases |ls|
  {
    if ls == [] {
      assert Unlines(ls) + t == t;
      assert ls + SplitLines(t, brk) == SplitLines(t, brk);
    } else {
      assert forall k :: 0 <= k < |ls[1..]| ==> NoBreak(ls[1..][k], brk) by {
        forall k | 0 <= k < |ls[1..]| ensures ls[1..][k] == ls[k + 1] { }
      }
      SplitUnlines(ls[1..], t, brk);
      UnlinesStep(ls, t, brk);
    }
  }

  /** The step of `SplitUnlines`: the first line is split off, the rest is as the shorter list gives. */
  lemma UnlinesStep(ls: seq<string>, t: string, brk: char -> bool)
    requires ls != [] && brk('\n') && NoBreak(ls[0], brk)
    requires SplitLines(Unlines(ls[1..]) + t, brk) == ls[1..] + SplitLines(t, brk)
    ensures SplitLines(Unlines(ls) + t, brk) == ls + SplitLines(t, brk)
  {
    var rest := Unlines(ls[1..]);
    assert Unlines(ls) == ls[0] + "\n" + rest;
    RegroupLine(ls[0], rest, t);
    SplitLinesCons(ls[0], "\n", rest + t, brk);
    ConsTail(ls, SplitLines(t, brk));
  }

  lemma RegroupLine(a: string, rest: string, t: string)
    ensures a + "\n" + rest + t == a + "\n" + (rest + t)
  {
  }

  lemma ConsTail<T>(xs: seq<T>, ys: seq<T>)
    requires xs != []
    ensures xs + ys == [xs[0]] + (xs[1..] + ys)
  {
    assert xs == [xs[0]] + xs[1..];
  }

  /** A last line without a line end is kept. */
  lemma SplitLastLine(a: string, brk: char -> bool)
    requires a != [] && NoBreak(a, brk)
    ensures SplitLines(a, brk) == [a]
  {
  }

  // ----- characters that survive stripping -----

  /** A character that is not whitespace is kept by `strip()`. */
  lemma CharSurvivesTrim(s: string, c: char)
    requires c in s && !IsSpace(c)
    ensures c in Trim(s)
  {
    CharSurvivesTrimLeft(s, c);
    CharSurvivesTrimRight(TrimLeft(s), c);
  }

  lemma CharSurvivesTrimLeft(s: string, c: char)
    requires c in s && !IsSpace(c)
    ensures c in TrimLeft(s)
  {
    var i :| 0 <= i < |s| && s[i] == c;
    var l := TrimLeft(s);
    var n := |s| - |l|;
    forall k | 0 <= k < n ensures s[k] != c {
      assert s[..n][k] == s[k];
    }
    assert s[n..] == l;
    assert l[i - n] == c;
  }

  lemma CharSurvivesTrimRight(l: string, c: char)
    requires c in l && !IsSpace(c)
    ensures c in TrimRight(l)
  {
    var j :| 0 <= j < |l| && l[j] == c;
    var r := TrimRight(l);
    forall k | |r| <= k < |l| ensures l[k] != c {
      assert l[|r|..][k - |r|] == l[k];
    }
    assert l[..|r|] == r;
    assert r[j] == c;
  }

  // ----- Python's int() -----

  /** `int(digits)` on ASCII digits. */
  function ParseNat(d: string): (n: nat)
    requires forall i :: 0 <= i < |d| ==> IsDigit(d[i])
  {
    if d == [] then 0
    else
      assert IsDigit(d[|d| - 1]);
      10 * ParseNat(d[..|d| - 1]) + (d[|d| - 1] as int - '0' as int)
  }

  /** `int()` reads back what `str()` of a natural number writes. */
  lemma {:induction false} ParseNatToString(n: nat)
    ensures var d := NatToString(n); (forall i :: 0 <= i < |d| ==> IsDigit(d[i])) && ParseNat(d) == n
    decreases n
  {
    var d := NatToString(n);
    if n < 10 {
      assert d == [DigitChar(n)];
      assert d[..0] == [];
    } else {
      ParseNatToString(n / 10);
      assert d[..|d| - 1] == NatToString(n / 10);
    }
  }

  /** The digits `int()` accepts: ASCII digits, with single underscores between two digits. */
  predicate Numeral(d: string) {
    d != [] && IsDigit(d[0])
    && forall i {:trigger d[i]} :: 0 <= i < |d| ==> IsDigit(d[i]) || (d[i] == '_' && i + 1 < |d| && IsDigit(d[i + 1]))
  }

  /** The digits of a numeral, its underscores dropped. */
  function DigitsOf(d: string): (r: string)
    ensures forall i :: 0 <= i < |r| ==> IsDigit(r[i])
    ensures (forall i :: 0 <= i < |d| ==> IsDigit(d[i])) ==> r == d
  {
    if d == [] then [] else (if IsDigit(d[0]) then [d[0]] else []) + DigitsOf(d[1..])
  }

  /**
   * Python's `int(s)` on a string: surrounding whitespace is stripped, then an optional sign and a
   * numeral are read; `None` where `int()` raises `ValueError`.
   */
  function IntOf(s: string): (r: Option<int>)
  {
    ReadInt(Trim(s))
  }

  /** An optional sign and a numeral, and nothing else. */
  function ReadInt(t: string): (r: Option<int>)
  {
    if t != [] && (t[0] == '+' || t[0] == '-') then
      if Numeral(t[1..]) then
        var m: int := ParseNat(DigitsOf(t[1..]));
        Some(if t[0] == '-' then -m else m)
      else None
    else if Numeral(t) then Some(ParseNat(DigitsOf(t)))
    else None
  }

  /** A run of ASCII digits is a numeral and reads as its value. */
  lemma DigitsNumeral(d: string)
    requires d != [] && forall i :: 0 <= i < |d| ==> IsDigit(d[i])
    ensures Numeral(d) && DigitsOf(d) == d
  {
  }

  lemma ReadNat(d: string)
    requires d != [] && forall i :: 0 <= i < |d| ==> IsDigit(d[i])
    ensures ReadInt(d) == Some(ParseNat(d))
  {
    DigitsNumeral(d);
  }

  lemma ReadNegative(d: string)
    requires d != [] && forall i :: 0 <= i < |d| ==> IsDigit(d[i])
    ensures ReadInt("-" + d) == Some(-(ParseNat(d) as int))
  {
    var t := "-" + d;
    assert t[0] == '-' && t[1..] == d;
    DigitsNumeral(d);
    assert ReadInt(t) == Some(-(ParseNat(DigitsOf(d)) as int));
  }

  /** `int(str(v)) == v`. */
  lemma IntOfToString(v: int)
    ensures IntOf(IntToString(v)) == Some(v)
  {
    var s := IntToString(v);
    var n: nat := if v < 0 then -v else v;
    var d := NatToString(n);
    ParseNatToString(n);
    if v < 0 {
      assert s == "-" + d;
      ReadNegative(d);
    } else {
      assert s == d;
      ReadNat(d);
    }
    assert s[|s| - 1] == d[|d| - 1];
    TrimUnpadded(s);
  }

  /** Whitespace around the argument does not change what `int()` reads. */
  lemma IntOfIgnoresPadding(pre: string, s: string, post: string)
    requires AllSpace(pre) && AllSpace(post)
    ensures IntOf(pre + s + post) == IntOf(s)
  {
    TrimIgnoresPadding(pre, s, post);
  }

  /** A character that is no digit, sign, underscore or whitespace makes `int()` raise. */
  lemma IntOfRejects(s: string, c: char)
    requires c in s && !IsDigit(c) && !IsSpace(c) && c != '+' && c != '-' && c != '_'
    ensures IntOf(s) == None
  {
    CharSurvivesTrim(s, c);
    var t := Trim(s);
    var i :| 0 <= i < |t| && t[i] == c;
    NotNumeral(t, i);
    if i > 0 {
      assert t[1..][i - 1] == c;
      NotNumeral(t[1..], i - 1);
    }
    ReadIntNone(t);
  }

  lemma NotNumeral(d: string, i: int)
    requires 0 <= i < |d| && !IsDigit(d[i]) && d[i] != '_'
    ensures !Numeral(d)
  {
  }

  /** No numeral, with or without a sign, reads as nothing. */
  lemma ReadIntNone(t: string)
    requires !Numeral(t)
    requires t == [] || (t[0] != '+' && t[0] != '-') || !Numeral(t[1..])
    ensures ReadInt(t) == None
  {
  }

  /** `int("1_000") == 1000`: an underscore between digits is dropped. */
  lemma UnderscoreExample()
    ensures IntOf("1_000") == Some(1000)
  {
    var s := "1_000";
    UnderscoreUnpadded();
    UnderscoreRead();
    calc {
      IntOf(s);
      ReadInt(Trim(s));
      ReadInt(s);
    }
  }

  lemma UnderscoreUnpadded()
    ensures Trim("1_000") == "1_000"
  {
    var s := "1_000";
    assert s[0] == '1' && s[|s| - 1] == '0';
    TrimUnpadded(s);
  }

  lemma UnderscoreRead()
    ensures ReadInt("1_000") == Some(1000)
  {
    UnderscoreNumeral();
    ThousandParses();
    assert "1_000"[0] == '1';
  }

  lemma UnderscoreNumeral()
    ensures Numeral("1_000") && DigitsOf("1_000") == "1000"
  {
    var s := "1_000";
    assert s[1..] == "_000" && s[2..] == "000";
  }

  lemma ThousandParses()
    ensures ParseNat("1000") == 1000
  {
    assert "1000"[..3] == "100" && "100"[..2] == "10" && "10"[..1] == "1" && "1"[..0] == "";
  }
}
