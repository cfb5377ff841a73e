/** The recursive algorithms the wrappers are applied to
    (decorators.py:109-203), as plain functions. Every decorated variant
    computes these same results. */
module Algorithms {

  /** `fib`: 1 for x <= 1, else the sum of the two previous values. */
  function Fib(x: int): (r: nat)
    decreases if x < 0 then 0 else x
  {
    if x <= 1 then 1 else Fib(x - 1) + Fib(x - 2)
  }

  lemma FibStep(x: int)
    requires x > 1
    ensures Fib(x) == Fib(x - 1) + Fib(x - 2)
  {
  }

  /** `even_t` and `odd_t` without their tracers. A negative argument never
      reaches 0, so both are defined on naturals only. */
  function Even(n: nat): (r: bool)
  {
    if n == 0 then true else Odd(n - 1)
  }

  function Odd(n: nat): (r: bool)
  {
    if n == 0 then false else Even(n - 1)
  }

  /** `even` decides parity and `odd` is its negation. */
  lemma {:induction false} EvenOddParity(n: nat)
    ensures Even(n) <==> n % 2 == 0
    ensures Odd(n) <==> !Even(n)
  {
    if n > 0 {
      EvenOddParity(n - 1);
    }
  }

  // ---------------------------------------------------------------------
  // quicksort

  /** `[x for x in s if x < p]` */
  function Below(s: seq<int>, p: int): (r: seq<int>)
    ensures |r| <= |s|
  {
    if |s| == 0 then [] else (if s[0] < p then [s[0]] else []) + Below(s[1..], p)
  }

  /** `[x for x in s if x >= p]` */
  function AtLeast(s: seq<int>, p: int): (r: seq<int>)
    ensures |r| <= |s|
  {
    if |s| == 0 then [] else (if s[0] >= p then [s[0]] else []) + AtLeast(s[1..], p)
  }

  /** The first comprehension keeps exactly the elements below the pivot,
      the second those at least the pivot. */
  lemma {:induction false} SplitBounds(s: seq<int>, p: int)
    ensures forall x :: x in Below(s, p) <==> x in s && x < p
    ensures forall x :: x in AtLeast(s, p) <==> x in s && x >= p
  {
    if |s| > 0 {
      var x, rest := s[0], s[1..];
      SplitBounds(rest, p);
      assert s == [x] + rest;
      if x < p {
        assert Below(s, p) == [x] + Below(rest, p);
        assert AtLeast(s, p) == AtLeast(rest, p);
      } else {
        assert Below(s, p) == Below(rest, p);
        assert AtLeast(s, p) == [x] + AtLeast(rest, p);
      }
    }
  }

  /** `multiset{x}` when `c` holds, the empty multiset otherwise. */
  function Single(c: bool, x: int): (r: multiset<int>)
  {
    if c then multiset{x} else multiset{}
  }

  /** One step of the first comprehension, counted as a multiset. */
  lemma BelowStep(s: seq<int>, p: int)
    requires |s| > 0
    ensures multiset(Below(s, p)) == Single(s[0] < p, s[0]) + multiset(Below(s[1..], p))
  {
    assert Below(s, p) == (if s[0] < p then [s[0]] else []) + Below(s[1..], p);
  }

  /** One step of the second comprehension, counted as a multiset. */
  lemma AtLeastStep(s: seq<int>, p: int)
    requires |s| > 0
    ensures multiset(AtLeast(s, p)) == Single(s[0] >= p, s[0]) + multiset(AtLeast(s[1..], p))
  {
    assert AtLeast(s, p) == (if s[0] >= p then [s[0]] else []) + AtLeast(s[1..], p);
  }

  lemma ConsMultiset(s: seq<int>)
    requires |s| > 0
    ensures multiset(s) == multiset{s[0]} + multiset(s[1..])
  {
    assert s == [s[0]] + s[1..];
  }

  /** The head goes to exactly one of the two sides. */
  lemma ShareOut(c: bool, x: int, b: multiset<int>, a: multiset<int>, r: multiset<int>)
    requires b + a == r
    ensures (Single(c, x) + b) + (Single(!c, x) + a) == multiset{x} + r
  {
  }

  /** The two comprehensions split `s` between them. */
  lemma {:induction false} SplitMultiset(s: seq<int>, p: int)
    ensures multiset(Below(s, p)) + multiset(AtLeast(s, p)) == multiset(s)
  {
    if |s| > 0 {
      SplitMultiset(s[1..], p);
      BelowStep(s, p);
      AtLeastStep(s, p);
      ConsMultiset(s);
      ShareOut(s[0] < p, s[0], multiset(Below(s[1..], p)), multiset(AtLeast(s[1..], p)), multiset(s[1..]));
    }
  }

  /** Every element goes to exactly one side. */
  lemma SplitLength(s: seq<int>, p: int)
    ensures |Below(s, p)| + |AtLeast(s, p)| == |s|
  {
    SplitMultiset(s, p);
    assert |multiset(Below(s, p)) + multiset(AtLeast(s, p))| == |multiset(s)|;
  }

  /** `quicksort` around the first element as pivot. */
  function Quicksort(l: seq<int>): (r: seq<int>)
    decreases |l|
  {
    if |l| <= 1 then l
    else Quicksort(Below(l[1..], l[0])) + l[0..1] + Quicksort(AtLeast(l[1..], l[0]))
  }

  predicate SortedAsc(s: seq<int>)
  {
    forall i, j :: 0 <= i < j < |s| ==> s[i] <= s[j]
  }

  lemma SortedAround(a: seq<int>, p: int, b: seq<int>)
    requires SortedAsc(a) && SortedAsc(b)
    requires forall x :: x in a ==> x < p
    requires forall x :: x in b ==> x >= p
    ensures SortedAsc(a + [p] + b)
  {
    var s := a + [p] + b;
    forall i, j | 0 <= i < j < |s|
      ensures s[i] <= s[j]
    {
      if i < |a| {
        assert s[i] in a;
        if j > |a| { assert s[j] in b; }
      } else if i > |a| {
        assert s[i] == b[i - |a| - 1] && s[j] == b[j - |a| - 1];
      } else {
        assert s[j] in b;
      }
    }
  }

  /** A permutation keeps a bound on the elements. */
  lemma PermutedBounds(s: seq<int>, t: seq<int>, p: int)
    requires multiset(t) == multiset(s)
    ensures (forall x :: x in s ==> x < p) ==> forall x :: x in t ==> x < p
    ensures (forall x :: x in s ==> x >= p) ==> forall x :: x in t ==> x >= p
  {
    assert forall x :: x in t ==> x in multiset(s);
    assert forall x :: x in multiset(s) ==> x in s;
  }

  /** One call of `quicksort` on a list of two or more elements. */
  lemma QuicksortStep(l: seq<int>)
    requires |l| > 1
    ensures Quicksort(l) == Quicksort(Below(l[1..], l[0])) + [l[0]] + Quicksort(AtLeast(l[1..], l[0]))
  {
    assert l[0..1] == [l[0]];
  }

  lemma JoinMultiset(a: seq<int>, x: int, b: seq<int>)
    ensures multiset(a + [x] + b) == multiset(a) + multiset{x} + multiset(b)
  {
  }

  /** The result of `quicksort` is sorted ascending and a permutation of its
      input. */
  lemma {:induction false} QuicksortCorrect(l: seq<int>)
    ensures SortedAsc(Quicksort(l))
    ensures multiset(Quicksort(l)) == multiset(l)
    decreases |l|
  {
    if |l| > 1 {
      var p, rest := l[0], l[1..];
      var left, right := Below(rest, p), AtLeast(rest, p);
      var ql, qr := Quicksort(left), Quicksort(right);
      QuicksortCorrect(left);
      QuicksortCorrect(right);
      QuicksortStep(l);
      SplitBounds(rest, p);
      PermutedBounds(left, ql, p);
      PermutedBounds(right, qr, p);
      SortedAround(ql, p, qr);
      SplitMultiset(rest, p);
      ConsMultiset(l);
      JoinMultiset(ql, p, qr);
    }
  }

  /** The head of a sorted sequence is its least element. */
  lemma SortedHead(s: seq<int>, x: int)
    requires SortedAsc(s) && x in s
    ensures s[0] <= x
  {
    var i :| 0 <= i < |s| && s[i] == x;
    if i > 0 {
      assert s[0] <= s[i];
    }
  }

  lemma SortedTail(s: seq<int>)
    requires SortedAsc(s) && |s| > 0
    ensures SortedAsc(s[1..])
  {
    forall i, j | 0 <= i < j < |s| - 1
      ensures s[1..][i] <= s[1..][j]
    {
      assert s[1..][i] == s[i + 1] && s[1..][j] == s[j + 1];
    }
  }

  lemma MultisetTail(s: seq<int>)
    requires |s| > 0
    ensures multiset(s[1..]) == multiset(s) - multiset{s[0]}
  {
    assert s == [s[0]] + s[1..];
  }

  /** Two sorted sequences with the same elements are equal. */
  lemma {:induction false} SortedUnique(a: seq<int>, b: seq<int>)
    requires SortedAsc(a) && SortedAsc(b)
    requires multiset(a) == multiset(b)
    ensures a == b
  {
    if |a| == 0 {
      assert |multiset(b)| == 0;
    } else {
      assert |b| > 0 by {
        assert |multiset(b)| == |multiset(a)| == |a|;
      }
      assert a[0] == b[0] by {
        assert a[0] in multiset(a);
        assert b[0] in multiset(b);
        SortedHead(b, a[0]);
        SortedHead(a, b[0]);
      }
      assert a[1..] == b[1..] by {
        SortedTail(a);
        SortedTail(b);
        MultisetTail(a);
        MultisetTail(b);
        SortedUnique(a[1..], b[1..]);
      }
      assert a == [a[0]] + a[1..];
      assert b == [b[0]] + b[1..];
    }
  }

  /** Sorting a sorted list gives it back; in particular a list of length at
      most 1 is returned as it is. */
  lemma QuicksortOfSorted(l: seq<int>)
    requires SortedAsc(l)
    ensures Quicksort(l) == l
  {
    QuicksortCorrect(l);
    SortedUnique(Quicksort(l), l);
  }

  // ---------------------------------------------------------------------
  // change

  /** Every denomination is positive; without this the search does not end. */
  predicate Positive(l: seq<int>)
  {
    forall k :: 0 <= k < |l| ==> l[k] > 0
  }

  /** The outcome of the search: the coins found, or `ChangeException`. */
  datatype ChangeResult = Found(coins: seq<int>) | Unreachable

  function Sum(s: seq<int>): (r: int)
  {
    if |s| == 0 then 0 else s[0] + Sum(s[1..])
  }

  /** `change`: try the first denomination as often as it fits; when that
      branch fails, go on without it. */
  function Change(l: seq<int>, a: int): (r: ChangeResult)
    requires Positive(l)
    decreases |l|, a
  {
    if a == 0 then Found([])
    else if |l| == 0 then Unreachable
    else if l[0] > a then Change(l[1..], a)
    else
      match Change(l, a - l[0])
      case Found(coins) => Found([l[0]] + coins)
      case Unreachable => Change(l[1..], a)
  }

  /** Amount 0 needs no coins; no denominations reach no other amount; any
      coins found add up to the amount and are all denominations of `l`. */
  lemma {:induction false} ChangeSound(l: seq<int>, a: int)
    requires Positive(l)
    ensures a == 0 ==> Change(l, a) == Found([])
    ensures a != 0 && |l| == 0 ==> Change(l, a) == Unreachable
    ensures Change(l, a).Found? ==>
              Sum(Change(l, a).coins) == a
              && forall k :: 0 <= k < |Change(l, a).coins| ==> Change(l, a).coins[k] in l
    decreases |l|, a
  {
    if a != 0 && |l| > 0 {
      if l[0] > a {
        ChangeSound(l[1..], a);
      } else {
        ChangeSound(l, a - l[0]);
        if Change(l, a - l[0]).Unreachable? {
          ChangeSound(l[1..], a);
        }
      }
    }
  }

  lemma {:induction false} SumAppend(a: seq<int>, b: seq<int>)
    ensures Sum(a + b) == Sum(a) + Sum(b)
  {
    if |a| > 0 {
      assert (a + b)[0] == a[0];
      assert (a + b)[1..] == a[1..] + b;
      SumAppend(a[1..], b);
    } else {
      assert a + b == b;
    }
  }

  lemma {:induction false} SumNonNegative(s: seq<int>)
    requires Positive(s)
    ensures Sum(s) >= 0
  {
    if |s| > 0 {
      SumNonNegative(s[1..]);
    }
  }

  /** Taking one coin out of a selection lowers its sum by that coin. */
  lemma SumRemove(s: seq<int>, k: nat)
    requires k < |s|
    ensures Sum(s[..k] + s[k + 1..]) == Sum(s) - s[k]
  {
    var pre, x, post := s[..k], s[k], s[k + 1..];
    assert s == pre + ([x] + post);
    SumAppend(pre, [x] + post);
    assert Sum([x] + post) == x + Sum(post) by {
      assert ([x] + post)[1..] == post;
    }
    SumAppend(pre, post);
  }

  /** The search is complete: when some selection of denominations of `l`,
      each usable repeatedly, adds up to `a`, the search finds one. So
      `ChangeException` escapes only when no selection exists. */
  lemma {:induction false} ChangeComplete(l: seq<int>, a: int, s: seq<int>)
    requires Positive(l)
    requires forall k :: 0 <= k < |s| ==> s[k] in l
    requires Sum(s) == a
    ensures Change(l, a).Found?
    decreases |l|, a
  {
    if a == 0 {
      return;
    }
    assert s != [] && s[0] in l;
    var p := l[0];
    assert Positive(s) by {
      forall k | 0 <= k < |s| ensures s[k] > 0 {
        var j :| 0 <= j < |l| && l[j] == s[k];
      }
    }
    if k :| 0 <= k < |s| && s[k] == p {
      // a selection using the first denomination
      var rest := s[..k] + s[k + 1..];
      SumRemove(s, k);
      assert Positive(rest);
      SumNonNegative(rest);
      assert forall j :: 0 <= j < |rest| ==> rest[j] in l by {
        forall j | 0 <= j < |rest| ensures rest[j] in l {
          if j < k { assert rest[j] == s[j]; } else { assert rest[j] == s[j + 1]; }
        }
      }
      ChangeComplete(l, a - p, rest);
    } else {
      // a selection from the other denominations only
      forall j | 0 <= j < |s| ensures s[j] in l[1..] {
        var i :| 0 <= i < |l| && l[i] == s[j];
        assert i != 0;
        assert l[1..][i - 1] == s[j];
      }
      ChangeComplete(l[1..], a, s);
    }
  }

  /** The failing branches of the search for 44 with [9, 7, 5]. */
  lemma ChangeExampleFailures()
    ensures Change([9, 7, 5], 8) == Unreachable
    ensures Change([7, 5], 3) == Unreachable
  {
    // the calls of the search, innermost first
    assert Change([], 1) == Unreachable;
    assert Change([5], 1) == Unreachable;
    assert Change([7, 5], 1) == Unreachable;
    assert Change([], 3) == Unreachable;
    assert Change([5], 3) == Unreachable;
    assert Change([], 8) == Unreachable;
    assert Change([5], 8) == Unreachable;
    assert Change([7, 5], 8) == Unreachable;
  }

  /** The amounts run by run_examples (decorators.py:101-103). */
  lemma ChangeExample()
    ensures Change([9, 7, 5], 44) == Found([9, 9, 9, 7, 5, 5])
  {
    ChangeExampleFailures();
    assert Change([5], 0) == Found([]);
    assert Change([5], 5) == Found([5]);
    assert Change([5], 10) == Found([5, 5]);
    assert Change([7, 5], 10) == Found([5, 5]);
    assert Change([7, 5], 17) == Found([7, 5, 5]);
    assert Change([9, 7, 5], 17) == Found([7, 5, 5]);
    assert Change([9, 7, 5], 26) == Found([9, 7, 5, 5]);
    assert Change([9, 7, 5], 35) == Found([9, 9, 7, 5, 5]);
  }

  /** Denominations [1, 1] do reach 5: the first one, five times. */
  lemma ChangeOneOneFive()
    ensures Change([1, 1], 5) == Found([1, 1, 1, 1, 1])
  {
    assert Change([1, 1], 1) == Found([1]);
    assert Change([1, 1], 2) == Found([1, 1]);
    assert Change([1, 1], 3) == Found([1, 1, 1]);
    assert Change([1, 1], 4) == Found([1, 1, 1, 1]);
  }
}
