/** Vocabulary shared by the models: the clock unit and counting over sequences. */
module Basics {

  /** The steady clock counts nanoseconds; every time in the models is a number of its ticks. */
  const TICKS_PER_SECOND: int := 1_000_000_000

  const TWO_16: int := 0x1_0000
  const TWO_32: int := 0x1_0000_0000

  datatype Option<+T> = None | Some(value: T)

  /** How many elements of s satisfy p. */
  function Count<T>(s: seq<T>, p: T -> bool): (n: nat)
    ensures n <= |s|
  {
    if s == [] then 0 else Count(s[..|s| - 1], p) + (if p(s[|s| - 1]) then 1 else 0)
  }

  lemma CountAppend<T>(s: seq<T>, x: T, p: T -> bool)
    ensures Count(s + [x], p) == Count(s, p) + (if p(x) then 1 else 0)
  {
    assert (s + [x])[..|s|] == s;
  }

  lemma {:induction false} CountUpdate<T>(s: seq<T>, i: nat, x: T, p: T -> bool)
    requires i < |s|
    ensures Count(s[i := x], p) == Count(s, p) - (if p(s[i]) then 1 else 0) + (if p(x) then 1 else 0)
  {
    var last := |s| - 1;
    if i == last {
      assert s[i := x][..last] == s[..last];
    } else {
      CountUpdate(s[..last], i, x, p);
      assert s[i := x][..last] == s[..last][i := x];
    }
  }

  lemma {:induction false} CountFirst<T>(s: seq<T>, p: T -> bool)
    requires s != []
    ensures Count(s, p) == (if p(s[0]) then 1 else 0) + Count(s[1..], p)
  {
    var last := |s| - 1;
    if last > 0 {
      CountFirst(s[..last], p);
      assert s[1..][..last - 1] == s[..last][1..];
    }
  }

  function Sum<T>(s: seq<T>, weight: T -> nat): nat {
    if s == [] then 0 else Sum(s[..|s| - 1], weight) + weight(s[|s| - 1])
  }

  lemma SumAppend<T>(s: seq<T>, x: T, weight: T -> nat)
    ensures Sum(s + [x], weight) == Sum(s, weight) + weight(x)
  {
    assert (s + [x])[..|s|] == s;
  }

  lemma {:induction false} SumUpdate<T>(s: seq<T>, i: nat, x: T, weight: T -> nat)
    requires i < |s|
    ensures Sum(s[i := x], weight) == Sum(s, weight) - weight(s[i]) + weight(x)
  {
    var last := |s| - 1;
    if i == last {
      assert s[i := x][..last] == s[..last];
    } else {
      SumUpdate(s[..last], i, x, weight);
      assert s[i := x][..last] == s[..last][i := x];
    }
  }

  predicate Sorted(times: seq<int>) {
    forall i, j | 0 <= i < j < |times| :: times[i] <= times[j]
  }

  /** How many of the times are no earlier than start. */
  function CountSince(times: seq<int>, start: int): nat {
    if times == [] then 0
    else CountSince(times[..|times| - 1], start) + (if times[|times| - 1] >= start then 1 else 0)
  }

  lemma CountSinceSnoc(times: seq<int>, t: int, start: int)
    ensures CountSince(times + [t], start) == CountSince(times, start) + (if t >= start then 1 else 0)
  {
    assert (times + [t])[..|times|] == times;
  }

  lemma {:induction false} CountSinceEarlier(times: seq<int>, start: int, earlier: int)
    requires earlier <= start
    ensures CountSince(times, start) <= CountSince(times, earlier)
  {
    if times != [] {
      CountSinceEarlier(times[..|times| - 1], start, earlier);
    }
  }
}
