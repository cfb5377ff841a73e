/** The `Vector` class of vector.py: a list of numbers stored together with
    its length. Elements are integers. */
module Vectors {
  import opened Values
  import Algorithms

  /** The message of the `Failure` raised on a length mismatch
      (vector.py:65, 88, 111, 136). */
  const LengthMessage := "Length of both arguments must be the same"

  // ---------------------------------------------------------------------
  // element-wise arithmetic

  /** The pairwise sums of two lists of equal length. */
  function Plus(a: seq<int>, b: seq<int>): (r: seq<int>)
    requires |a| == |b|
    ensures |r| == |a|
  {
    seq(|a|, i requires 0 <= i < |a| => a[i] + b[i])
  }

  /** Element-wise addition is commutative: `v + w` and `w + v` (through
      `__radd__`) have the same elements. */
  lemma PlusComm(a: seq<int>, b: seq<int>)
    requires |a| == |b|
    ensures Plus(a, b) == Plus(b, a)
  {
  }

  /** The sum of the pairwise products, element by element from the front. */
  function DotSpec(a: seq<int>, b: seq<int>): (r: int)
    requires |a| == |b|
  {
    if |a| == 0 then 0 else DotSpec(a[..|a| - 1], b[..|b| - 1]) + a[|a| - 1] * b[|b| - 1]
  }

  lemma {:induction false} DotComm(a: seq<int>, b: seq<int>)
    requires |a| == |b|
    ensures DotSpec(a, b) == DotSpec(b, a)
  {
    if |a| > 0 {
      DotComm(a[..|a| - 1], b[..|b| - 1]);
    }
  }

  /** The dot product distributes over element-wise addition. */
  lemma {:induction false} DotPlus(a: seq<int>, b: seq<int>, c: seq<int>)
    requires |a| == |b| == |c|
    ensures DotSpec(a, Plus(b, c)) == DotSpec(a, b) + DotSpec(a, c)
  {
    if |a| > 0 {
      var n := |a| - 1;
      assert Plus(b, c)[..n] == Plus(b[..n], c[..n]);
      DotPlus(a[..n], b[..n], c[..n]);
    }
  }

  /** The loop of vector.py:67-71 (and 90-94, 113-117): the `i`-th element
      of `xs` plus the `i`-th element of `ys`, appended in order. */
  method PairSums(xs: seq<int>, ys: seq<int>) returns (sums: seq<int>)
    requires |xs| == |ys|
    ensures sums == Plus(xs, ys)
  {
    sums := [];
    var i := 0;
    while i < |ys|
      invariant 0 <= i <= |ys|
      invariant sums == Plus(xs[..i], ys[..i])
    {
      sums := sums + [xs[i] + ys[i]];
      i := i + 1;
    }
    assert xs[..i] == xs && ys[..i] == ys;
  }

  /** The loop of vector.py:138-142, accumulating `sum`. */
  method DotLoop(xs: seq<int>, ys: seq<int>) returns (sum: int)
    requires |xs| == |ys|
    ensures sum == DotSpec(xs, ys)
  {
    sum := 0;
    var i := 0;
    while i < |ys|
      invariant 0 <= i <= |ys|
      invariant sum == DotSpec(xs[..i], ys[..i])
    {
      assert xs[..i + 1][..i] == xs[..i] && ys[..i + 1][..i] == ys[..i];
      sum := sum + xs[i] * ys[i];
      i := i + 1;
    }
    assert xs[..i] == xs && ys[..i] == ys;
  }

  // ---------------------------------------------------------------------
  // indexing

  /** Python's reading of index `i` into a list of length `n`: a negative
      index counts from the end; anything else outside the list is an
      IndexError, None here. */
  function NormIndex(i: int, n: nat): (r: Option<nat>)
    ensures r.Some? <==> -(n as int) <= i < n
    ensures r.Some? ==> r.value < n && (r.value == i || r.value == i + n)
  {
    if 0 <= i < n then Some(i) else if -(n as int) <= i < 0 then Some(i + n) else None
  }

  /** `s[i]`, or None when `i` is out of range. */
  function ItemAt(s: seq<int>, i: int): (r: Option<int>)
  {
    match NormIndex(i, |s|)
    case Some(k) => Some(s[k])
    case None => None
  }

  /** Python's clipping of one bound of a slice with step 1: a missing bound
      is `default`, a negative one counts from the end, and the result lies
      between 0 and `n`. */
  function ClipBound(b: Option<int>, n: nat, default: nat): (r: nat)
    requires default <= n
    ensures r <= n
    ensures b.None? ==> r == default
    ensures b.Some? && 0 <= b.value <= n ==> r == b.value
    ensures b.Some? && b.value > n ==> r == n
    ensures b.Some? && -(n as int) <= b.value < 0 ==> r == b.value + n
    ensures b.Some? && b.value < -(n as int) ==> r == 0
  {
    match b
    case None => default
    case Some(i) =>
      if i < 0 then (if i + n < 0 then 0 else i + n)
      else if i > n then n
      else i
  }

  /** The positions `lo .. hi` a slice `start:stop` covers in a list of
      length `n`; an empty range sits at `lo`. */
  function SliceRange(start: Option<int>, stop: Option<int>, n: nat): (r: (nat, nat))
    ensures r.0 <= r.1 <= n
    ensures r.0 == ClipBound(start, n, 0)
    ensures r.1 == if ClipBound(stop, n, n) < r.0 then r.0 else ClipBound(stop, n, n)
  {
    var lo := ClipBound(start, n, 0);
    var hi := ClipBound(stop, n, n);
    (lo, if hi < lo then lo else hi)
  }

  /** Python's own reading of `s[start:stop]` with step 1, stated per position:
      position `j` of a list of length `n` is in the slice when it is at or
      after the start and before the stop, a negative bound counting from the
      end and a missing one not constraining. */
  predicate InSlice(j: int, start: Option<int>, stop: Option<int>, n: nat)
  {
    && 0 <= j < n
    && (start.Some? ==> j >= (if start.value < 0 then start.value + n else start.value))
    && (stop.Some? ==> j < (if stop.value < 0 then stop.value + n else stop.value))
  }

  /** The clipped range covers exactly the positions Python's slice selects. */
  lemma SliceRangeMeaning(start: Option<int>, stop: Option<int>, n: nat, j: int)
    ensures var (lo, hi) := SliceRange(start, stop, n); lo <= j < hi <==> InSlice(j, start, stop, n)
  {
  }

  /** Bounds beyond either end clip to the whole list, and a start past the
      stop gives an empty slice. */
  lemma SliceRangeExamples(n: nat)
    requires 3 <= n <= 100
    ensures SliceRange(Some(-100), Some(100), n) == (0, n)
    ensures SliceRange(None, None, n) == (0, n)
    ensures SliceRange(Some(3), Some(1), n) == (3, 3)
    ensures SliceRange(Some(-1), None, n) == (n - 1, n)
    ensures SliceRange(None, Some(-1), n) == (0, n - 1)
  {
  }

  /** `s[lo:hi] = vals`: the covered positions replaced by `vals`. */
  function Splice(s: seq<int>, lo: nat, hi: nat, vals: seq<int>): (r: seq<int>)
    requires lo <= hi <= |s|
  {
    s[..lo] + vals + s[hi..]
  }

  /** A slice assignment keeps the length exactly when it puts back as many
      elements as it covers. */
  lemma SpliceLength(s: seq<int>, lo: nat, hi: nat, vals: seq<int>)
    requires lo <= hi <= |s|
    ensures |Splice(s, lo, hi, vals)| == |s| <==> |vals| == hi - lo
  {
  }

  /** Assigning a slice its own contents changes nothing. */
  lemma SpliceOwnSlice(s: seq<int>, lo: nat, hi: nat)
    requires lo <= hi <= |s|
    ensures Splice(s, lo, hi, s[lo..hi]) == s
  {
    assert s[..lo] + s[lo..hi] + s[hi..] == s[..hi] + s[hi..];
  }

  /** Reading back an assigned slice gives what was assigned; the elements
      outside it are as before. */
  lemma SpliceRead(s: seq<int>, lo: nat, hi: nat, vals: seq<int>)
    requires lo <= hi <= |s|
    ensures var t := Splice(s, lo, hi, vals);
      t[lo..lo + |vals|] == vals && t[..lo] == s[..lo] && t[lo + |vals|..] == s[hi..]
  {
  }

  /** After `s[i] = v` the element read at `i` is `v`, and an index that
      names another position reads what it did before. */
  lemma ItemAtUpdate(s: seq<int>, i: int, v: int, j: int)
    requires NormIndex(i, |s|).Some?
    ensures ItemAt(s[NormIndex(i, |s|).value := v], i) == Some(v)
    ensures NormIndex(j, |s|).Some? && NormIndex(j, |s|) != NormIndex(i, |s|) ==>
              ItemAt(s[NormIndex(i, |s|).value := v], j) == ItemAt(s, j)
  {
  }

  // ---------------------------------------------------------------------
  // ordering

  /** `s` in non-increasing order. */
  predicate SortedDesc(s: seq<int>)
  {
    forall i, j :: 0 <= i < j < |s| ==> s[i] >= s[j]
  }

  /** No element of `s` exceeds `b`. */
  predicate AtMost(s: seq<int>, b: int)
  {
    forall k :: 0 <= k < |s| ==> s[k] <= b
  }

  /** Inserts `x` into a descending list before the first element it is at
      least as large as. */
  function InsertDesc(x: int, t: seq<int>): (r: seq<int>)
  {
    if |t| == 0 || x >= t[0] then [x] + t else [t[0]] + InsertDesc(x, t[1..])
  }

  /** `sorted(s, reverse=True)`, as an insertion sort. */
  function SortDesc(s: seq<int>): (r: seq<int>)
  {
    if |s| == 0 then [] else InsertDesc(s[0], SortDesc(s[1..]))
  }

  lemma ConsSortedDesc(h: int, s: seq<int>)
    requires SortedDesc(s) && AtMost(s, h)
    ensures SortedDesc([h] + s)
  {
    var t := [h] + s;
    forall i, j | 0 <= i < j < |t|
      ensures t[i] >= t[j]
    {
      assert t[j] == s[j - 1];
      if i > 0 {
        assert t[i] == s[i - 1];
      }
    }
  }

  lemma {:induction false} InsertDescAtMost(x: int, t: seq<int>, b: int)
    requires AtMost(t, b) && x <= b
    ensures AtMost(InsertDesc(x, t), b)
  {
    if |t| > 0 && x < t[0] {
      assert AtMost(t[1..], b) by {
        forall k | 0 <= k < |t| - 1 ensures t[1..][k] <= b {
          assert t[1..][k] == t[k + 1];
        }
      }
      InsertDescAtMost(x, t[1..], b);
      var r := InsertDesc(x, t[1..]);
      forall k | 0 <= k < |r| + 1 ensures ([t[0]] + r)[k] <= b {
        if k > 0 {
          assert ([t[0]] + r)[k] == r[k - 1];
        }
      }
    }
  }

  lemma {:induction false} InsertDescCorrect(x: int, t: seq<int>)
    requires SortedDesc(t)
    ensures SortedDesc(InsertDesc(x, t))
    ensures multiset(InsertDesc(x, t)) == multiset{x} + multiset(t)
  {
    if |t| == 0 || x >= t[0] {
      assert AtMost(t, x) by {
        forall k | 0 <= k < |t| ensures t[k] <= x {
          if k > 0 {
            assert t[0] >= t[k];
          }
        }
      }
      ConsSortedDesc(x, t);
    } else {
      var rest := t[1..];
      assert SortedDesc(rest) by {
        forall i, j | 0 <= i < j < |rest| ensures rest[i] >= rest[j] {
          assert rest[i] == t[i + 1] && rest[j] == t[j + 1];
        }
      }
      assert AtMost(rest, t[0]) by {
        forall k | 0 <= k < |rest| ensures rest[k] <= t[0] {
          assert rest[k] == t[k + 1];
        }
      }
      InsertDescCorrect(x, rest);
      InsertDescAtMost(x, rest, t[0]);
      ConsSortedDesc(t[0], InsertDesc(x, rest));
      assert t == [t[0]] + rest;
    }
  }

  /** The descending sort orders its input and keeps its elements. */
  lemma {:induction false} SortDescCorrect(s: seq<int>)
    ensures SortedDesc(SortDesc(s))
    ensures multiset(SortDesc(s)) == multiset(s)
  {
    if |s| > 0 {
      SortDescCorrect(s[1..]);
      InsertDescCorrect(s[0], SortDesc(s[1..]));
      assert s == [s[0]] + s[1..];
    }
  }

  /** The head of a descending list is its greatest element. */
  lemma SortedDescHead(s: seq<int>, x: int)
    requires SortedDesc(s) && x in s
    ensures s[0] >= x
  {
    var i :| 0 <= i < |s| && s[i] == x;
    if i > 0 {
      assert s[0] >= s[i];
    }
  }

  lemma SortedDescTail(s: seq<int>)
    requires SortedDesc(s) && |s| > 0
    ensures SortedDesc(s[1..])
  {
    forall i, j | 0 <= i < j < |s| - 1
      ensures s[1..][i] >= s[1..][j]
    {
      assert s[1..][i] == s[i + 1] && s[1..][j] == s[j + 1];
    }
  }

  /** Two descending lists with the same elements are equal. */
  lemma {:induction false} SortedDescUnique(a: seq<int>, b: seq<int>)
    requires SortedDesc(a) && SortedDesc(b)
    requires multiset(a) == multiset(b)
    ensures a == b
  {
    if |a| == 0 {
      assert |multiset(b)| == 0;
    } else {
      assert |b| > 0 by {
        assert |multiset(b)| == |multiset(a)| == |a|;
      }
      assert a[0] == b[0] by {
        assert a[0] in multiset(a);
        assert b[0] in multiset(b);
        SortedDescHead(b, a[0]);
        SortedDescHead(a, b[0]);
      }
      assert a[1..] == b[1..] by {
        SortedDescTail(a);
        SortedDescTail(b);
        Algorithms.MultisetTail(a);
        Algorithms.MultisetTail(b);
        SortedDescUnique(a[1..], b[1..]);
      }
      assert a == [a[0]] + a[1..];
      assert b == [b[0]] + b[1..];
    }
  }

  /** The sorted copies of two lists are equal exactly when the lists hold
      the same elements, in whatever order. */
  lemma SortDescSame(a: seq<int>, b: seq<int>)
    ensures SortDesc(a) == SortDesc(b) <==> multiset(a) == multiset(b)
  {
    SortDescCorrect(a);
    SortDescCorrect(b);
    if multiset(a) == multiset(b) {
      SortedDescUnique(SortDesc(a), SortDesc(b));
    }
  }

  /** Python's `<` on lists: the first differing position decides, and a
      proper prefix is smaller. */
  function LexLess(a: seq<int>, b: seq<int>): (r: bool)
  {
    if |a| == 0 then |b| > 0
    else if |b| == 0 then false
    else if a[0] != b[0] then a[0] < b[0]
    else LexLess(a[1..], b[1..])
  }

  /** `<` on lists is a strict total order: never both ways, and one way
      between any two different lists. */
  lemma {:induction false} LexLessTrichotomy(a: seq<int>, b: seq<int>)
    ensures !(LexLess(a, b) && LexLess(b, a))
    ensures a == b ==> !LexLess(a, b)
    ensures a != b ==> LexLess(a, b) || LexLess(b, a)
  {
    if |a| > 0 && |b| > 0 && a[0] == b[0] {
      LexLessTrichotomy(a[1..], b[1..]);
      if a[1..] == b[1..] {
        assert a == [a[0]] + a[1..] && b == [b[0]] + b[1..];
      }
    }
  }

  lemma {:induction false} LexLessTrans(a: seq<int>, b: seq<int>, c: seq<int>)
    requires LexLess(a, b) && LexLess(b, c)
    ensures LexLess(a, c)
  {
    if |a| > 0 && a[0] == b[0] && b[0] == c[0] {
      LexLessTrans(a[1..], b[1..], c[1..]);
    }
  }

  // ---------------------------------------------------------------------
  // the class

  /** The right operand of `+`, `+=`, `dot`, `==` and `!=`: another Vector
      or a plain sequence. */
  datatype Operand = Vec(v: Vector) | Plain(items: seq<int>)

  /** `len(other)` */
  function OperandLen(o: Operand): (r: nat)
    reads if o.Vec? then {o.v} else {}
  {
    match o
    case Vec(v) => v.length
    case Plain(items) => |items|
  }

  /** The elements `for x in other` visits. */
  function Elements(o: Operand): (r: seq<int>)
    reads if o.Vec? then {o.v} else {}
  {
    match o
    case Vec(v) => v.vecList
    case Plain(items) => items
  }

  ghost predicate OperandValid(o: Operand)
    reads if o.Vec? then {o.v} else {}
  {
    o.Vec? ==> o.v.Valid()
  }

  class Vector {
    var length: nat
    var vecList: seq<int>

    /** The stored length is the length of the list. */
    ghost predicate Valid()
      reads this
    {
      length == |vecList|
    }

    /** `Vector(n)` for `n >= 0`: `n` zeros, built by the loop of
        vector.py:27-28. */
    constructor OfLength(n: nat)
      ensures Valid() && length == n
      ensures vecList == seq(n, _ => 0)
    {
      var l: seq<int> := [];
      for i := 0 to n
        invariant l == seq(i, _ => 0)
      {
        l := l + [0];
      }
      length := n;
      vecList := l;
    }

    /** `Vector(seq)`: a copy of the sequence (vector.py:33-34). */
    constructor OfSeq(s: seq<int>)
      ensures Valid() && length == |s| && vecList == s
    {
      length := |s|;
      vecList := s;
    }

    /** `Vector(arg)` for an integer `arg`: ValueError when negative
        (vector.py:23-30). */
    static method New(n: int) returns (r: Result<Vector>)
      ensures r.Err? <==> n < 0
      ensures r.Err? ==> r.error == ValueError("Vector length cannot be negative")
      ensures r.Ok? ==> fresh(r.value) && r.value.Valid() && r.value.vecList == seq(n, _ => 0)
    {
      if n >= 0 {
        var v := new Vector.OfLength(n);
        r := Ok(v);
      } else {
        r := Err(ValueError("Vector length cannot be negative"));
      }
    }

    /** `len(v)`: the stored length, which is the number of elements. */
    function Len(): (r: nat)
      requires Valid()
      reads this
      ensures r == |vecList|
    {
      length
    }

    /** `v + other` (vector.py:64-72): a new Vector of the pairwise sums, or
        `Failure` when the lengths differ; neither operand changes. */
    method Add(other: Operand) returns (r: Result<Vector>)
      requires Valid() && OperandValid(other)
      ensures r.Err? <==> length != OperandLen(other)
      ensures r.Err? ==> r.error == Failure(LengthMessage)
      ensures r.Ok? ==> fresh(r.value) && r.value.Valid() && r.value.vecList == Plus(vecList, Elements(other))
    {
      if length != OperandLen(other) {
        return Err(Failure(LengthMessage));
      }
      var sums := PairSums(vecList, Elements(other));
      var v := new Vector.OfSeq(sums);
      r := Ok(v);
    }

    /** `other + v` for a non-Vector `other` (vector.py:87-95): the same
        sums, `self`'s element first. */
    method RAdd(other: Operand) returns (r: Result<Vector>)
      requires Valid() && OperandValid(other)
      ensures r.Err? <==> length != OperandLen(other)
      ensures r.Err? ==> r.error == Failure(LengthMessage)
      ensures r.Ok? ==> fresh(r.value) && r.value.Valid() && r.value.vecList == Plus(vecList, Elements(other))
    {
      if length != OperandLen(other) {
        return Err(Failure(LengthMessage));
      }
      var sums := PairSums(vecList, Elements(other));
      var v := new Vector.OfSeq(sums);
      r := Ok(v);
    }

    /** `v += other` (vector.py:110-119): the list is replaced by the
        pairwise sums and `self` is returned; on a length mismatch
        `Failure` is raised and nothing changes. `other` may be `v`
        itself. */
    method IAdd(other: Operand) returns (r: Result<Vector>)
      requires Valid() && OperandValid(other)
      modifies this
      ensures Valid() && length == old(length)
      ensures old(length != OperandLen(other)) ==> r == Err(Failure(LengthMessage)) && vecList == old(vecList)
      ensures old(length == OperandLen(other)) ==> r == Ok(this) && vecList == Plus(old(vecList), old(Elements(other)))
    {
      if length != OperandLen(other) {
        return Err(Failure(LengthMessage));
      }
      var sums := PairSums(vecList, Elements(other));
      vecList := sums;
      r := Ok(this);
    }

    /** `v.dot(other)` (vector.py:135-143): the sum of the pairwise
        products, or `Failure` when the lengths differ. */
    method Dot(other: Operand) returns (r: Result<int>)
      requires Valid() && OperandValid(other)
      ensures r.Err? <==> length != OperandLen(other)
      ensures r.Err? ==> r.error == Failure(LengthMessage)
      ensures r.Ok? ==> r.value == DotSpec(vecList, Elements(other))
    {
      if length != OperandLen(other) {
        return Err(Failure(LengthMessage));
      }
      var sum := DotLoop(vecList, Elements(other));
      r := Ok(sum);
    }

    /** `v[i]` (vector.py:159-164): the element, counting from the end for a
        negative index; None (after the message) when out of range. */
    method GetItem(i: int) returns (r: Option<int>)
      requires Valid()
      ensures r == ItemAt(vecList, i)
      ensures r.Some? <==> -(length as int) <= i < length
    {
      var k := NormIndex(i, |vecList|);
      if k.Some? {
        r := Some(vecList[k.value]);
      } else {
        r := None;
      }
    }

    /** `v[start:stop]` */
    method GetSlice(start: Option<int>, stop: Option<int>) returns (r: seq<int>)
      requires Valid()
      ensures var (lo, hi) := SliceRange(start, stop, |vecList|); r == vecList[lo..hi]
      ensures var lo := ClipBound(start, |vecList|, 0);
              && (forall k :: 0 <= k < |r| ==> InSlice(lo + k, start, stop, |vecList|) && r[k] == vecList[lo + k])
              && (forall j :: InSlice(j, start, stop, |vecList|) ==> lo <= j < lo + |r|)
    {
      var (lo, hi) := SliceRange(start, stop, |vecList|);
      r := vecList[lo..hi];
      forall j
        ensures lo <= j < hi <==> InSlice(j, start, stop, |vecList|)
      {
        SliceRangeMeaning(start, stop, |vecList|, j);
      }
    }

    /** `v[i] = value` (vector.py:182-194): an in-range assignment changes
        that element only and returns `self`; an out-of-range one changes
        nothing and returns None. An index assignment never changes the
        length, so it never raises ValueError. */
    method SetItem(i: int, value: int) returns (r: Option<Vector>)
      requires Valid()
      modifies this
      ensures Valid() && length == old(length)
      ensures match NormIndex(i, old(|vecList|))
              case Some(k) => vecList == old(vecList)[k := value] && r == Some(this)
              case None => vecList == old(vecList) && r == None
    {
      var k := NormIndex(i, |vecList|);
      if k.None? {
        return None;
      }
      var tempList := vecList[k.value := value];
      vecList := tempList;
      r := Some(this);
    }

    /** `v[start:stop] = values` (vector.py:182-194): the covered elements
        are replaced and `self` returned when that keeps the length;
        otherwise ValueError is raised and nothing changes. */
    method SetSlice(start: Option<int>, stop: Option<int>, values: seq<int>) returns (r: Result<Vector>)
      requires Valid()
      modifies this
      ensures Valid() && length == old(length)
      ensures var (lo, hi) := SliceRange(start, stop, old(|vecList|));
        if |values| == hi - lo
        then vecList == Splice(old(vecList), lo, hi, values) && r == Ok(this)
        else vecList == old(vecList) && r == Err(ValueError("Cannot change length of Vector"))
    {
      var (lo, hi) := SliceRange(start, stop, |vecList|);
      var tempList := Splice(vecList, lo, hi, values);
      SpliceLength(vecList, lo, hi, values);
      if |tempList| != |vecList| {
        r := Err(ValueError("Cannot change length of Vector"));
      } else {
        vecList := tempList;
        r := Ok(this);
      }
    }

    /** `v == other` (vector.py:209-211): the same elements in the same
        order; never equal to a non-Vector. */
    function Eq(other: Operand): (r: bool)
      reads this, if other.Vec? then {other.v} else {}
    {
      match other
      case Vec(w) => vecList == w.vecList
      case Plain(_) => false
    }

    /** `v != other` (vector.py:227-229). */
    function Ne(other: Operand): (r: bool)
      reads this, if other.Vec? then {other.v} else {}
    {
      match other
      case Vec(w) => vecList != w.vecList
      case Plain(_) => true
    }

    /** `v > w` (vector.py:241-247): the descending-sorted copies compared
        as lists. */
    function Gt(w: Vector): (r: bool)
      reads this, w
    {
      LexLess(SortDesc(w.vecList), SortDesc(vecList))
    }

    /** `v < w` (vector.py:261-267). */
    function Lt(w: Vector): (r: bool)
      reads this, w
    {
      LexLess(SortDesc(vecList), SortDesc(w.vecList))
    }

    /** `v >= w` (vector.py:284-292): equal sorted copies, or `v > w`. */
    function Ge(w: Vector): (r: bool)
      reads this, w
    {
      if SortDesc(vecList) == SortDesc(w.vecList) then true else Gt(w)
    }

    /** `v <= w` (vector.py:309-317): equal sorted copies, or `v < w`. */
    function Le(w: Vector): (r: bool)
      reads this, w
    {
      if SortDesc(vecList) == SortDesc(w.vecList) then true else Lt(w)
    }
  }

  // ---------------------------------------------------------------------
  // properties of the comparisons

  /** `!=` is the exact negation of `==`, against Vectors and others. */
  lemma NeIsNotEq(v: Vector, o: Operand)
    ensures v.Ne(o) == !v.Eq(o)
  {
  }

  /** `v > w` exactly when `w < v`. */
  lemma GtIsFlippedLt(v: Vector, w: Vector)
    ensures v.Gt(w) <==> w.Lt(v)
  {
  }

  /** The ordering sees only which elements a Vector holds: permuting the
      elements of either side changes no comparison. */
  lemma OrderIgnoresPermutation(v: Vector, v2: Vector, w: Vector)
    requires multiset(v.vecList) == multiset(v2.vecList)
    ensures v.Gt(w) == v2.Gt(w) && v.Lt(w) == v2.Lt(w)
    ensures v.Ge(w) == v2.Ge(w) && v.Le(w) == v2.Le(w)
    ensures w.Gt(v) == w.Gt(v2) && w.Lt(v) == w.Lt(v2)
  {
    SortDescSame(v.vecList, v2.vecList);
  }

  /** Exactly one of `v < w`, "same elements", `v > w` holds. */
  lemma OrderTrichotomy(v: Vector, w: Vector)
    ensures !(v.Lt(w) && v.Gt(w))
    ensures multiset(v.vecList) == multiset(w.vecList) ==> !v.Lt(w) && !v.Gt(w)
    ensures multiset(v.vecList) != multiset(w.vecList) ==> v.Lt(w) || v.Gt(w)
  {
    SortDescSame(v.vecList, w.vecList);
    LexLessTrichotomy(SortDesc(v.vecList), SortDesc(w.vecList));
  }

  /** `v >= w` is `not (v < w)`, and `v <= w` is `not (v > w)`. */
  lemma GeIsNotLt(v: Vector, w: Vector)
    ensures v.Ge(w) <==> !v.Lt(w)
    ensures v.Le(w) <==> !v.Gt(w)
  {
    LexLessTrichotomy(SortDesc(v.vecList), SortDesc(w.vecList));
  }

  /** `v >= w` and `v <= w` both hold exactly when the two hold the same
      elements, in whatever order; equal Vectors are such a pair. */
  lemma GeAndLeIsSameElements(v: Vector, w: Vector)
    ensures v.Ge(w) && v.Le(w) <==> multiset(v.vecList) == multiset(w.vecList)
    ensures v.Eq(Vec(w)) ==> v.Ge(w) && v.Le(w)
  {
    SortDescSame(v.vecList, w.vecList);
    LexLessTrichotomy(SortDesc(v.vecList), SortDesc(w.vecList));
  }

  /** `>` is transitive. */
  lemma GtTrans(u: Vector, v: Vector, w: Vector)
    requires u.Gt(v) && v.Gt(w)
    ensures u.Gt(w)
  {
    LexLessTrans(SortDesc(w.vecList), SortDesc(v.vecList), SortDesc(u.vecList));
  }
}
