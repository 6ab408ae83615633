/**
 * The three loop shapes of the scrapers, as functions over the items in order: a loop that keeps
 * some items (`if ...: out.append(x)`), a loop that extends a list with each item's records
 * (`out += f(x)`), and the same where an item may raise and end the loop. The per-item work is
 * a parameter, so the lemmas about order and membership hold whatever it computes.
 */
module Loops {
  import opened Wrappers

  /** The records appended for one item: none, or one. */
  function AsSeq<U>(o: Option<U>): seq<U>
  {
    if o.Some? then [o.value] else []
  }

  /** The items' picks, in order, skipping the items whose pick is `None`. */
  function Picked<T, U>(s: seq<T>, pick: T -> Option<U>): (r: seq<U>)
    ensures |r| <= |s|
  {
    if s == [] then [] else Picked(s[..|s| - 1], pick) + AsSeq(pick(s[|s| - 1]))
  }

  /** One more item is one more iteration. */
  lemma PickedSnoc<T, U>(s: seq<T>, x: T, pick: T -> Option<U>)
    ensures Picked(s + [x], pick) == Picked(s, pick) + AsSeq(pick(x))
  {
    assert (s + [x])[..|s|] == s;
  }

  /** Every record is the pick of some item. */
  lemma {:induction false} PickedSound<T, U>(s: seq<T>, pick: T -> Option<U>, x: U) returns (i: int)
    requires x in Picked(s, pick)
    ensures 0 <= i < |s| && pick(s[i]) == Some(x)
  {
    var init := s[..|s| - 1];
    if x in Picked(init, pick) {
      i := PickedSound(init, pick, x);
      assert s[i] == init[i];
    } else {
      i := |s| - 1;
    }
  }

  /** Every item with a pick has it among the records. */
  lemma {:induction false} PickedComplete<T, U>(s: seq<T>, pick: T -> Option<U>, i: int)
    requires 0 <= i < |s| && pick(s[i]).Some?
    ensures pick(s[i]).value in Picked(s, pick)
  {
    var init, y := s[..|s| - 1], pick(s[i]).value;
    if i < |init| {
      assert init[i] == s[i];
      PickedComplete(init, pick, i);
      InLeft(y, Picked(init, pick), AsSeq(pick(s[|s| - 1])));
    } else {
      assert AsSeq(pick(s[|s| - 1])) == [y];
      InRight(y, Picked(init, pick), [y]);
    }
  }

  /** Each item's records, item after item. */
  function Flattened<T, U>(s: seq<T>, each: T -> seq<U>): seq<U>
  {
    if s == [] then [] else Flattened(s[..|s| - 1], each) + each(s[|s| - 1])
  }

  lemma FlattenedSnoc<T, U>(s: seq<T>, x: T, each: T -> seq<U>)
    ensures Flattened(s + [x], each) == Flattened(s, each) + each(x)
  {
    assert (s + [x])[..|s|] == s;
  }

  /** The records of two runs of items are those of each run, in order. */
  lemma {:induction false} FlattenedAppend<T, U>(a: seq<T>, b: seq<T>, each: T -> seq<U>)
    ensures Flattened(a + b, each) == Flattened(a, each) + Flattened(b, each)
    decreases |b|
  {
    if b == [] {
      NoTail(a);
    } else {
      var init, last := b[..|b| - 1], b[|b| - 1];
      FlattenedAppend(a, init, each);
      SplitLast(a, b);
      FlattenedSnoc(a + init, last, each);
      Assoc(Flattened(a, each), Flattened(init, each), each(last));
    }
  }

  /** Every record is among the records of some item. */
  lemma {:induction false} FlattenedSound<T, U>(s: seq<T>, each: T -> seq<U>, x: U) returns (k: int)
    requires x in Flattened(s, each)
    ensures 0 <= k < |s| && x in each(s[k])
  {
    var init := s[..|s| - 1];
    if x in Flattened(init, each) {
      k := FlattenedSound(init, each, x);
      assert s[k] == init[k];
    } else {
      k := |s| - 1;
    }
  }

  /** Every record of every item is emitted. */
  lemma {:induction false} FlattenedComplete<T, U>(s: seq<T>, each: T -> seq<U>, k: int, x: U)
    requires 0 <= k < |s| && x in each(s[k])
    ensures x in Flattened(s, each)
  {
    var init := s[..|s| - 1];
    if k < |init| {
      assert init[k] == s[k];
      FlattenedComplete(init, each, k, x);
      InLeft(x, Flattened(init, each), each(s[|s| - 1]));
    } else {
      InRight(x, Flattened(init, each), each(s[|s| - 1]));
    }
  }

  /** Each item's records, item after item, up to the first item that raises. */
  function Collect<T, U, E>(s: seq<T>, each: T -> Result<seq<U>, E>): Result<seq<U>, E>
  {
    if s == [] then Success([])
    else match Collect(s[..|s| - 1], each)
      case Failure(e) => Failure(e)
      case Success(acc) =>
        match each(s[|s| - 1])
        case Failure(e) => Failure(e)
        case Success(more) => Success(acc + more)
  }

  lemma CollectSnoc<T, U, E>(s: seq<T>, x: T, each: T -> Result<seq<U>, E>)
    requires Collect(s, each).Success? && each(x).Success?
    ensures Collect(s + [x], each) == Success(Collect(s, each).value + each(x).value)
  {
    assert (s + [x])[..|s|] == s;
  }

  lemma CollectLast<T, U, E>(s: seq<T>, each: T -> Result<seq<U>, E>)
    requires s != [] && Collect(s, each).Success?
    ensures Collect(s[..|s| - 1], each).Success? && each(s[|s| - 1]).Success?
    ensures Collect(s, each).value == Collect(s[..|s| - 1], each).value + each(s[|s| - 1]).value
  {
  }

  /** A run that raised stays failed, with the same error, whatever items follow. */
  lemma {:induction false} CollectFailureSticks<T, U, E>(s: seq<T>, each: T -> Result<seq<U>, E>, k: nat)
    requires k <= |s| && Collect(s[..k], each).Failure?
    ensures Collect(s, each) == Collect(s[..k], each)
    decreases |s| - k
  {
    if k < |s| {
      assert s[..k + 1][..k] == s[..k];
      CollectFailureSticks(s, each, k + 1);
    } else {
      assert s[..k] == s;
    }
  }

  /** The records of two runs that do not raise are those of each run, in order. */
  lemma {:induction false} CollectAppend<T, U, E>(a: seq<T>, b: seq<T>, each: T -> Result<seq<U>, E>)
    requires Collect(a, each).Success? && Collect(b, each).Success?
    ensures Collect(a + b, each) == Success(Collect(a, each).value + Collect(b, each).value)
    decreases |b|
  {
    if b == [] {
      NoTail(a);
      NoTail(Collect(a, each).value);
    } else {
      var init, last := b[..|b| - 1], b[|b| - 1];
      CollectLast(b, each);
      CollectAppend(a, init, each);
      SplitLast(a, b);
      CollectSnoc(a + init, last, each);
      Assoc(Collect(a, each).value, Collect(init, each).value, each(last).value);
    }
  }

  /** A non-empty second part, split at its last element. */
  lemma SplitLast<T>(a: seq<T>, b: seq<T>)
    requires b != []
    ensures a + b == (a + b[..|b| - 1]) + [b[|b| - 1]] && b[..|b| - 1] + [b[|b| - 1]] == b
  {
  }

  lemma Assoc<T>(x: seq<T>, y: seq<T>, z: seq<T>)
    ensures x + y + z == x + (y + z)
  {
  }

  lemma NoTail<T>(s: seq<T>)
    ensures s + [] == s
  {
  }

  lemma InLeft<T>(x: T, a: seq<T>, b: seq<T>)
    requires x in a
    ensures x in a + b
  {
  }

  lemma InRight<T>(x: T, a: seq<T>, b: seq<T>)
    requires x in b
    ensures x in a + b
  {
  }
}
