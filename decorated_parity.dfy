/** `even_t` and `odd_t` (decorators.py:140-152): two traced functions that
    call each other, so their lines nest alternately. */
module ParityVariants {
  import opened Values
  import opened Tracing
  import opened Algorithms

  function ParityName(even: bool): (r: string)
  {
    if even then "even_t" else "odd_t"
  }

  /** The answer of `even_t(n)` (when `even`) or `odd_t(n)`. */
  function Parity(n: nat, even: bool): (r: bool)
  {
    if even then Even(n) else Odd(n)
  }

  /** The trace `even_t(n)` (when `even`) or `odd_t(n)` prints when entered
      at `depth`. */
  function ParityTrace(depth: nat, n: nat, even: bool): (r: seq<Line>)
    decreases n, 1
  {
    [EntryAt(depth, ParityName(even), [IntV(n)])]
    + ParityCalls(depth + 1, n, even)
    + [ReturnAt(depth, BoolV(Parity(n, even)))]
  }

  /** What the call `even_t(n)` (when `even`) or `odd_t(n)` makes prints,
      one level down. */
  function ParityCalls(depth: nat, n: nat, even: bool): (r: seq<Line>)
    decreases n, 0
  {
    if n == 0 then [] else ParityTrace(depth, n - 1, !even)
  }

  /** One step down the chain leaves the answer as it was. */
  lemma ParityStep(n: nat, even: bool)
    requires n > 0
    ensures Parity(n - 1, !even) == Parity(n, even)
  {
    EvenOddParity(n);
    EvenOddParity(n - 1);
  }

  /** Whether the `k`-th call down a chain started by `even_t` (when
      `even`) or `odd_t` is a call of `even_t`. */
  function CallsEven(even: bool, k: nat): (r: bool)
  {
    if k % 2 == 0 then even else !even
  }

  /** The entry lines of a chain of `n + 1` calls started at `depth`: the
      two functions alternate and the argument counts down to 0. */
  function Entries(depth: nat, n: nat, even: bool): (r: seq<Line>)
    ensures |r| == n + 1
  {
    seq(n + 1, k requires 0 <= k <= n => EntryAt(depth + k, ParityName(CallsEven(even, k)), [IntV(n - k)]))
  }

  /** The return lines of a chain of `n + 1` calls, innermost first, each
      printing `v`. */
  function Returns(depth: nat, n: nat, v: Value): (r: seq<Line>)
    ensures |r| == n + 1
  {
    seq(n + 1, k requires 0 <= k <= n => ReturnAt(depth + n - k, v))
  }

  lemma EntriesCons(depth: nat, n: nat, even: bool)
    requires n > 0
    ensures Entries(depth, n, even) == [EntryAt(depth, ParityName(even), [IntV(n)])] + Entries(depth + 1, n - 1, !even)
  {
    var a, b := Entries(depth, n, even), Entries(depth + 1, n - 1, !even);
    forall k | 1 <= k <= n
      ensures a[k] == b[k - 1]
    {
      assert CallsEven(!even, k - 1) == CallsEven(even, k);
    }
    assert a == [a[0]] + b;
  }

  lemma ReturnsSnoc(depth: nat, n: nat, v: Value)
    requires n > 0
    ensures Returns(depth, n, v) == Returns(depth + 1, n - 1, v) + [ReturnAt(depth, v)]
  {
    var a, b := Returns(depth, n, v), Returns(depth + 1, n - 1, v);
    assert forall k :: 0 <= k < n ==> a[k] == b[k];
    assert a == b + [a[n]];
  }

  /** What `even_t(n)` (when `even`) or `odd_t(n)` prints: `n + 1` nested
      entry lines, alternating between the two functions with the argument
      counting down to 0, then `n + 1` return lines, each printing the answer
      of the outermost call. */
  lemma {:induction false} ParityTraceChain(depth: nat, n: nat, even: bool)
    ensures ParityTrace(depth, n, even) == Entries(depth, n, even) + Returns(depth, n, BoolV(Parity(n, even)))
    decreases n
  {
    var v := BoolV(Parity(n, even));
    var entry, ret := EntryAt(depth, ParityName(even), [IntV(n)]), ReturnAt(depth, v);
    if n == 0 {
      assert Entries(depth, 0, even) == [entry];
      assert Returns(depth, 0, v) == [ret];
    } else {
      var es, rs := Entries(depth + 1, n - 1, !even), Returns(depth + 1, n - 1, v);
      assert ParityTrace(depth, n, even) == [entry] + (es + rs) + [ret] by {
        ParityTraceChain(depth + 1, n - 1, !even);
        ParityStep(n, even);
      }
      assert Entries(depth, n, even) == [entry] + es by {
        EntriesCons(depth, n, even);
      }
      assert Returns(depth, n, v) == rs + [ret] by {
        ReturnsSnoc(depth, n, v);
      }
      Regroup(entry, es, rs, ret);
    }
  }

  /** `even_t` (decorators.py:140-145). */
  method EvenT(st: TraceState, n: nat) returns (r: bool)
    requires st.Valid()
    modifies st
    ensures st.Valid() && st.depth == old(st.depth)
    ensures r == Even(n)
    ensures st.lines == old(st.lines) + ParityTrace(old(st.depth), n, true)
    decreases n
  {
    ghost var d, lines0 := st.depth, st.lines;
    var key := [IntV(n)];
    Enter(st, "even_t", key);
    if n == 0 {
      r := true;
      assert st.lines == st.lines + ParityCalls(d + 1, n, true);
    } else {
      r := OddT(st, n - 1);
    }
    ExitOk(st, BoolV(r));
    Bracket(lines0, EntryAt(d, "even_t", key), ParityCalls(d + 1, n, true), ReturnAt(d, BoolV(r)));
  }

  /** `odd_t` (decorators.py:147-152). */
  method OddT(st: TraceState, n: nat) returns (r: bool)
    requires st.Valid()
    modifies st
    ensures st.Valid() && st.depth == old(st.depth)
    ensures r == Odd(n)
    ensures st.lines == old(st.lines) + ParityTrace(old(st.depth), n, false)
    decreases n
  {
    ghost var d, lines0 := st.depth, st.lines;
    var key := [IntV(n)];
    Enter(st, "odd_t", key);
    if n == 0 {
      r := false;
      assert st.lines == st.lines + ParityCalls(d + 1, n, false);
    } else {
      r := EvenT(st, n - 1);
    }
    ExitOk(st, BoolV(r));
    Bracket(lines0, EntryAt(d, "odd_t", key), ParityCalls(d + 1, n, false), ReturnAt(d, BoolV(r)));
  }
}
