/** The four decorated Fibonacci functions of decorators.py:109-138. The
    recursive calls in each body go through the decorated name, so every
    wrapper sees the inner calls too; the stacking order decides what each
    wrapper sees. */
module FibVariants {
  import opened Values
  import opened Tracing
  import opened Memoization
  import opened Algorithms
  import opened Profiling

  /** A cache entry that holds `fib` of its one integer argument. */
  predicate FibEntry(e: Entry)
  {
    |e.0| == 1 && e.0[0].IntV? && e.1 == Val(IntV(Fib(e.0[0].i)))
  }

  /** The trace `fib_t(x)` prints when entered at `depth`. */
  function FibTrace(depth: nat, x: int): (r: seq<Line>)
    decreases if x < 0 then 0 else x, 1
  {
    [EntryAt(depth, "fib_t", [IntV(x)])] + FibCalls(depth + 1, x) + [ReturnAt(depth, IntV(Fib(x)))]
  }

  /** What the recursive calls of `fib_t(x)` print, one level down. */
  function FibCalls(depth: nat, x: int): (r: seq<Line>)
    decreases if x < 0 then 0 else x, 0
  {
    if x <= 1 then [] else FibTrace(depth, x - 1) + FibTrace(depth, x - 2)
  }

  /** Tracing the plain recursion prints two lines per call: the trace grows
      with `fib` itself. */
  lemma {:induction false} FibTraceLength(depth: nat, x: int)
    ensures |FibTrace(depth, x)| == 4 * Fib(x) - 2
    decreases if x < 0 then 0 else x
  {
    if x > 1 {
      FibTraceLength(depth + 1, x - 1);
      FibTraceLength(depth + 1, x - 2);
    }
  }

  /** What `fib_t(x)` prints is one frame: the calls it makes print deeper. */
  lemma {:induction false} FibTraceFrame(depth: nat, x: int)
    ensures Frame(FibTrace(depth, x), depth, "fib_t", [IntV(x)], IntV(Fib(x)))
    decreases if x < 0 then 0 else x
  {
    if x > 1 {
      FibTraceFrame(depth + 1, x - 1);
      FibTraceFrame(depth + 1, x - 2);
      FrameDeeper(FibTrace(depth + 1, x - 1), depth, "fib_t", [IntV(x - 1)], IntV(Fib(x - 1)));
      FrameDeeper(FibTrace(depth + 1, x - 2), depth, "fib_t", [IntV(x - 2)], IntV(Fib(x - 2)));
      DeeperAppend(FibTrace(depth + 1, x - 1), FibTrace(depth + 1, x - 2), depth);
    }
    MakeFrame(FibCalls(depth + 1, x), depth, "fib_t", [IntV(x)], IntV(Fib(x)));
  }

  /** `fib_t`: traced only (decorators.py:109-114). The tracer around the
      body. */
  method FibT(st: TraceState, x: int) returns (r: int)
    requires st.Valid()
    modifies st
    ensures st.Valid()
    ensures r == Fib(x)
    ensures st.depth == old(st.depth)
    ensures st.lines == old(st.lines) + FibTrace(old(st.depth), x)
    decreases if x < 0 then 0 else x, 1
  {
    ghost var d, lines0 := st.depth, st.lines;
    var key := [IntV(x)];
    Enter(st, "fib_t", key);
    r := FibTBody(st, x);
    ExitOk(st, IntV(r));
    Bracket(lines0, EntryAt(d, "fib_t", key), FibCalls(d + 1, x), ReturnAt(d, IntV(r)));
  }

  /** The body of `fib_t`, its two recursive calls going through the
      tracer. */
  method FibTBody(st: TraceState, x: int) returns (r: int)
    requires st.Valid()
    modifies st
    ensures st.Valid()
    ensures r == Fib(x)
    ensures st.depth == old(st.depth)
    ensures st.lines == old(st.lines) + FibCalls(old(st.depth), x)
    decreases if x < 0 then 0 else x, 0
  {
    if x <= 1 {
      r := 1;
    } else {
      ghost var lines0 := st.lines;
      var a := FibT(st, x - 1);
      var b := FibT(st, x - 2);
      r := a + b;
      AppendAssoc(lines0, FibTrace(st.depth, x - 1), FibTrace(st.depth, x - 2));
    }
  }

  // Each stacked variant is split along its wrappers: one method per layer,
  // the innermost being the body of `fib`, whose recursive calls go back to
  // the outermost layer.

  /** `fib_mt`: the tracer outside the memoizer (decorators.py:116-122).
      Every call is traced, including those the cache answers; on a hit the
      call prints exactly its entry and return lines. */
  method FibMT(st: TraceState, table: MemoTable, x: int) returns (r: int)
    requires st.Valid() && AllEntries(table.d, "fib_mt", FibEntry)
    modifies st, table
    ensures r == Fib(x)
    ensures AllEntries(table.d, "fib_mt", FibEntry) && Grows(old(table.d), table.d, "fib_mt")
    ensures Lookup(table.d["fib_mt"], [IntV(x)]) == Some(Val(IntV(r)))
    ensures st.Valid() && st.depth == old(st.depth)
    ensures old(st.lines) <= st.lines
    ensures Frame(st.lines[|old(st.lines)|..], old(st.depth), "fib_mt", [IntV(x)], IntV(r))
    ensures Lookup(PartitionOf(old(table.d), "fib_mt"), [IntV(x)]).Some? ==>
              && table.d == old(table.d)
              && st.lines == old(st.lines) + [EntryAt(old(st.depth), "fib_mt", [IntV(x)]),
                                              ReturnAt(old(st.depth), IntV(r))]
    decreases if x < 0 then 0 else x, 2
  {
    ghost var d, lines0 := st.depth, st.lines;
    var key := [IntV(x)];
    Enter(st, "fib_mt", key);
    ghost var lines1 := st.lines;
    r := FibMTMemo(st, table, x);
    ghost var inner := st.lines[|lines1|..];
    PrefixSplit(lines1, st.lines);
    ExitOk(st, IntV(r));
    CloseFrame(lines0, inner, d, "fib_mt", key, IntV(r));
  }

  /** The memoizer inside `fib_mt`: a hit prints nothing; anything printed
      comes from calls one level deeper. */
  method FibMTMemo(st: TraceState, table: MemoTable, x: int) returns (r: int)
    requires st.Valid() && st.depth > 0 && AllEntries(table.d, "fib_mt", FibEntry)
    modifies st, table
    ensures r == Fib(x)
    ensures AllEntries(table.d, "fib_mt", FibEntry) && Grows(old(table.d), table.d, "fib_mt")
    ensures Lookup(table.d["fib_mt"], [IntV(x)]) == Some(Val(IntV(r)))
    ensures st.Valid() && st.depth == old(st.depth)
    ensures old(st.lines) <= st.lines && Deeper(st.lines[|old(st.lines)|..], st.depth - 1)
    ensures Lookup(PartitionOf(old(table.d), "fib_mt"), [IntV(x)]).Some? ==>
              table.d == old(table.d) && st.lines == old(st.lines)
    decreases if x < 0 then 0 else x, 1
  {
    var key := [IntV(x)];
    var hit := RecallChecked(table, "fib_mt", key, FibEntry);
    if hit.Some? {
      r := hit.value.v.i;
    } else {
      ghost var d1 := table.d;
      r := FibMTBody(st, table, x);
      ghost var d2 := table.d;
      GrowsTrans(old(table.d), d1, d2, "fib_mt");
      assert FibEntry((key, Val(IntV(r))));
      StoreChecked(table, "fib_mt", key, Val(IntV(r)), FibEntry);
      GrowsTrans(old(table.d), d2, table.d, "fib_mt");
    }
  }

  /** The body of `fib_mt`, entered one level deeper than its caller. */
  method FibMTBody(st: TraceState, table: MemoTable, x: int) returns (r: int)
    requires st.Valid() && st.depth > 0 && "fib_mt" in table.d
             && AllEntries(table.d, "fib_mt", FibEntry)
    modifies st, table
    ensures r == Fib(x)
    ensures AllEntries(table.d, "fib_mt", FibEntry) && Grows(old(table.d), table.d, "fib_mt")
    ensures st.Valid() && st.depth == old(st.depth)
    ensures old(st.lines) <= st.lines && Deeper(st.lines[|old(st.lines)|..], st.depth - 1)
    decreases if x < 0 then 0 else x, 0
  {
    ghost var d := st.depth - 1;
    if x <= 1 {
      r := 1;
      assert Grows(old(table.d), table.d, "fib_mt");
      assert st.lines[|old(st.lines)|..] == [];
    } else {
      var a := FibMT(st, table, x - 1);
      ghost var d1, lines1 := table.d, st.lines;
      var b := FibMT(st, table, x - 2);
      GrowsTrans(old(table.d), d1, table.d, "fib_mt");
      r := a + b;
      FibStep(x);
      assert Deeper(st.lines[|old(st.lines)|..], d) by {
        FrameDeeper(lines1[|old(st.lines)|..], d, "fib_mt", [IntV(x - 1)], IntV(a));
        FrameDeeper(st.lines[|lines1|..], d, "fib_mt", [IntV(x - 2)], IntV(b));
        DeeperSpan(old(st.lines), lines1, st.lines, d);
      }
    }
  }

  /** `fib_tm`: the memoizer outside the tracer (decorators.py:124-130). A
      call the cache answers never reaches the tracer and prints nothing. */
  method FibTM(st: TraceState, table: MemoTable, x: int) returns (r: int)
    requires st.Valid() && AllEntries(table.d, "fib_tm", FibEntry)
    modifies st, table
    ensures r == Fib(x)
    ensures AllEntries(table.d, "fib_tm", FibEntry) && Grows(old(table.d), table.d, "fib_tm")
    ensures Lookup(table.d["fib_tm"], [IntV(x)]) == Some(Val(IntV(r)))
    ensures st.Valid() && st.depth == old(st.depth)
    ensures old(st.lines) <= st.lines
    ensures Lookup(PartitionOf(old(table.d), "fib_tm"), [IntV(x)]).Some? ==>
              table.d == old(table.d) && st.lines == old(st.lines)
    ensures Lookup(PartitionOf(old(table.d), "fib_tm"), [IntV(x)]).None? ==>
              Frame(st.lines[|old(st.lines)|..], old(st.depth), "fib_tm", [IntV(x)], IntV(r))
    decreases if x < 0 then 0 else x, 2
  {
    var key := [IntV(x)];
    var hit := RecallChecked(table, "fib_tm", key, FibEntry);
    if hit.Some? {
      r := hit.value.v.i;
    } else {
      ghost var d1 := table.d;
      r := FibTMTraced(st, table, x);
      ghost var d2 := table.d;
      GrowsTrans(old(table.d), d1, d2, "fib_tm");
      assert FibEntry((key, Val(IntV(r))));
      StoreChecked(table, "fib_tm", key, Val(IntV(r)), FibEntry);
      GrowsTrans(old(table.d), d2, table.d, "fib_tm");
    }
  }

  /** The tracer inside `fib_tm`: reached only on a miss. */
  method FibTMTraced(st: TraceState, table: MemoTable, x: int) returns (r: int)
    requires st.Valid() && "fib_tm" in table.d && AllEntries(table.d, "fib_tm", FibEntry)
    modifies st, table
    ensures r == Fib(x)
    ensures AllEntries(table.d, "fib_tm", FibEntry) && Grows(old(table.d), table.d, "fib_tm")
    ensures st.Valid() && st.depth == old(st.depth)
    ensures old(st.lines) <= st.lines
    ensures Frame(st.lines[|old(st.lines)|..], old(st.depth), "fib_tm", [IntV(x)], IntV(r))
    decreases if x < 0 then 0 else x, 1
  {
    ghost var d, lines0 := st.depth, st.lines;
    var key := [IntV(x)];
    Enter(st, "fib_tm", key);
    ghost var lines1 := st.lines;
    r := FibTMBody(st, table, x);
    ghost var inner := st.lines[|lines1|..];
    PrefixSplit(lines1, st.lines);
    ExitOk(st, IntV(r));
    CloseFrame(lines0, inner, d, "fib_tm", key, IntV(r));
  }

  /** The body of `fib_tm`, entered one level deeper than its tracer. */
  method FibTMBody(st: TraceState, table: MemoTable, x: int) returns (r: int)
    requires st.Valid() && st.depth > 0 && "fib_tm" in table.d
             && AllEntries(table.d, "fib_tm", FibEntry)
    modifies st, table
    ensures r == Fib(x)
    ensures AllEntries(table.d, "fib_tm", FibEntry) && Grows(old(table.d), table.d, "fib_tm")
    ensures st.Valid() && st.depth == old(st.depth)
    ensures old(st.lines) <= st.lines && Deeper(st.lines[|old(st.lines)|..], st.depth - 1)
    decreases if x < 0 then 0 else x, 0
  {
    ghost var d := st.depth - 1;
    if x <= 1 {
      r := 1;
      assert Grows(old(table.d), table.d, "fib_tm");
      assert st.lines[|old(st.lines)|..] == [];
    } else {
      var a := FibTM(st, table, x - 1);
      ghost var d1, lines1 := table.d, st.lines;
      var b := FibTM(st, table, x - 2);
      GrowsTrans(old(table.d), d1, table.d, "fib_tm");
      r := a + b;
      FibStep(x);
      assert Deeper(st.lines[|old(st.lines)|..], d) by {
        SilentOrFrameDeeper(lines1[|old(st.lines)|..], d, "fib_tm", [IntV(x - 1)], IntV(a));
        SilentOrFrameDeeper(st.lines[|lines1|..], d, "fib_tm", [IntV(x - 2)], IntV(b));
        DeeperSpan(old(st.lines), lines1, st.lines, d);
      }
    }
  }

  // fib_mp's counter: how many calls a run makes depends on what the cache
  // already holds; from a cache that holds none of the arguments the run
  // reaches, it is 2x - 1 for x >= 1.

  /** The argument `y` is answered by fib_mp's partition of the cache. */
  ghost predicate Cached(d: map<string, seq<Entry>>, y: int)
  {
    Lookup(PartitionOf(d, "fib_mp"), [IntV(y)]).Some?
  }

  /** No argument up to `x` is cached. */
  ghost predicate NoneCachedUpTo(d: map<string, seq<Entry>>, x: int)
  {
    forall y :: y <= x ==> !Cached(d, y)
  }

  /** Every argument from 0 to `x` is cached. */
  ghost predicate AllCachedUpTo(d: map<string, seq<Entry>>, x: int)
  {
    forall y :: 0 <= y <= x ==> Cached(d, y)
  }

  /** The only arguments cached in `d1` and not in `d0` lie in `0 .. x - 1`,
      and there are none unless `x >= 2`: those the recursion of `fib(x)`
      reaches. */
  ghost predicate AddsBelow(d0: map<string, seq<Entry>>, d1: map<string, seq<Entry>>, x: int)
  {
    forall y :: Cached(d1, y) && !Cached(d0, y) ==> x >= 2 && 0 <= y < x
  }

  /** `AddsBelow`, and `x` itself. */
  ghost predicate AddsOnly(d0: map<string, seq<Entry>>, d1: map<string, seq<Entry>>, x: int)
  {
    forall y :: Cached(d1, y) && !Cached(d0, y) ==> y == x || (x >= 2 && 0 <= y < x)
  }

  /** The number of calls `fib_mp(x)` makes, itself included, when none of
      the arguments up to `x` is cached. */
  function FibMPCalls(x: int): (r: nat)
  {
    if x <= 1 then 1 else 2 * x - 1
  }

  lemma GrowsCached(d0: map<string, seq<Entry>>, d1: map<string, seq<Entry>>)
    requires Grows(d0, d1, "fib_mp")
    ensures forall y :: Cached(d0, y) ==> Cached(d1, y)
  {
    forall y | Cached(d0, y)
      ensures Cached(d1, y)
    {
      GrowsKeeps(d0, d1, "fib_mp", [IntV(y)]);
    }
  }

  /** Storing the entry for `x` caches `x` and no other argument. */
  lemma StoreCaches(d0: map<string, seq<Entry>>, d1: map<string, seq<Entry>>, x: int, o: Outcome)
    requires "fib_mp" in d0 && d1 == d0["fib_mp" := d0["fib_mp"] + [([IntV(x)], o)]]
    ensures forall y :: Cached(d1, y) <==> Cached(d0, y) || y == x
  {
    forall y
      ensures Cached(d1, y) <==> Cached(d0, y) || y == x
    {
      LookupAppend(d0["fib_mp"], ([IntV(x)], o), [IntV(y)]);
      assert [IntV(x)] == [IntV(y)] <==> x == y;
    }
  }

  /** After `fib_mp(x - 1)` from a cache holding none of `0 .. x`, the second
      inner call `fib_mp(x - 2)` is a hit, except for `x == 2`, where it is
      a miss on a still uncached argument. */
  lemma SecondCallCached(d0: map<string, seq<Entry>>, d1: map<string, seq<Entry>>, x: int)
    requires x >= 2 && NoneCachedUpTo(d0, x) && AddsOnly(d0, d1, x - 1)
    requires x - 1 >= 2 ==> AllCachedUpTo(d1, x - 1)
    ensures x >= 3 ==> Cached(d1, x - 2)
    ensures x == 2 ==> NoneCachedUpTo(d1, x - 2)
  {
    if x == 2 {
      forall y | y <= 0
        ensures !Cached(d1, y)
      {
        assert !Cached(d0, y);
      }
    }
  }

  /** The count of `fib_mp(x)`'s body from a cache holding none of `0 .. x`,
      given what its two inner calls promise. */
  lemma BodyCount(d0: map<string, seq<Entry>>, d1: map<string, seq<Entry>>, d2: map<string, seq<Entry>>,
                  x: int, c0: int, c1: int, c2: int)
    requires x >= 2 && NoneCachedUpTo(d0, x) && AddsOnly(d0, d1, x - 1)
    requires NoneCachedUpTo(d0, x - 1) ==>
               c1 == c0 + FibMPCalls(x - 1) && (x - 1 >= 2 ==> AllCachedUpTo(d1, x - 1))
    requires Cached(d1, x - 2) ==> c2 == c1 + 1
    requires NoneCachedUpTo(d1, x - 2) ==> c2 == c1 + FibMPCalls(x - 2)
    requires Cached(d1, x - 1) && Cached(d2, x - 2)
    requires forall y :: Cached(d1, y) ==> Cached(d2, y)
    ensures c2 == c0 + FibMPCalls(x) - 1 && AllCachedUpTo(d2, x - 1)
  {
    assert NoneCachedUpTo(d0, x - 1);
    SecondCallCached(d0, d1, x);
  }

  /** The two inner calls of `fib_mp(x)` add only arguments below `x`. */
  lemma AddsTwo(d0: map<string, seq<Entry>>, d1: map<string, seq<Entry>>, d2: map<string, seq<Entry>>, x: int)
    requires x >= 2 && AddsOnly(d0, d1, x - 1) && AddsOnly(d1, d2, x - 2)
    requires forall y :: Cached(d0, y) ==> Cached(d1, y)
    ensures AddsBelow(d0, d2, x)
  {
  }

  /** `fib_mp`: the call counter outside the memoizer (decorators.py:132-138).
      `counter` is that of fib_mp's `profiled` wrapper; the inner calls go
      through it too, so it counts every call, answered from the cache or
      not. */
  method FibMP(counter: Profiled, table: MemoTable, x: int) returns (r: int)
    requires AllEntries(table.d, "fib_mp", FibEntry)
    modifies counter, table
    ensures r == Fib(x)
    ensures AllEntries(table.d, "fib_mp", FibEntry) && Grows(old(table.d), table.d, "fib_mp")
    ensures Lookup(table.d["fib_mp"], [IntV(x)]) == Some(Val(IntV(r)))
    ensures AddsOnly(old(table.d), table.d, x)
    ensures counter.count > old(counter.count)
    ensures Lookup(PartitionOf(old(table.d), "fib_mp"), [IntV(x)]).Some? ==>
              table.d == old(table.d) && counter.count == old(counter.count) + 1
    ensures NoneCachedUpTo(old(table.d), x) ==>
              && counter.count == old(counter.count) + FibMPCalls(x)
              && (x >= 2 ==> AllCachedUpTo(table.d, x))
    decreases if x < 0 then 0 else x, 2
  {
    counter.count := counter.count + 1;
    r := FibMPMemo(counter, table, x);
  }

  /** The memoizer inside `fib_mp`: a hit makes no further call. */
  method FibMPMemo(counter: Profiled, table: MemoTable, x: int) returns (r: int)
    requires AllEntries(table.d, "fib_mp", FibEntry)
    modifies counter, table
    ensures r == Fib(x)
    ensures AllEntries(table.d, "fib_mp", FibEntry) && Grows(old(table.d), table.d, "fib_mp")
    ensures Lookup(table.d["fib_mp"], [IntV(x)]) == Some(Val(IntV(r)))
    ensures AddsOnly(old(table.d), table.d, x)
    ensures counter.count >= old(counter.count)
    ensures Lookup(PartitionOf(old(table.d), "fib_mp"), [IntV(x)]).Some? ==>
              table.d == old(table.d) && counter.count == old(counter.count)
    ensures NoneCachedUpTo(old(table.d), x) ==>
              && counter.count == old(counter.count) + FibMPCalls(x) - 1
              && (x >= 2 ==> AllCachedUpTo(table.d, x))
    decreases if x < 0 then 0 else x, 1
  {
    var key := [IntV(x)];
    var hit := RecallChecked(table, "fib_mp", key, FibEntry);
    if hit.Some? {
      r := hit.value.v.i;
      assert Cached(old(table.d), x);
    } else {
      ghost var d1, c1 := table.d, counter.count;
      r := FibMPBody(counter, table, x);
      ghost var c2 := counter.count;
      ghost var d2 := table.d;
      GrowsTrans(old(table.d), d1, d2, "fib_mp");
      assert FibEntry((key, Val(IntV(r))));
      StoreChecked(table, "fib_mp", key, Val(IntV(r)), FibEntry);
      GrowsTrans(old(table.d), d2, table.d, "fib_mp");
      StoreCaches(d2, table.d, x, Val(IntV(r)));
      assert forall y :: Cached(d1, y) == Cached(old(table.d), y);
      assert AddsOnly(old(table.d), table.d, x);
      if NoneCachedUpTo(old(table.d), x) {
        assert NoneCachedUpTo(d1, x);
        assert c2 == c1 + FibMPCalls(x) - 1;
        if x >= 2 {
          GrowsCached(d2, table.d);
        }
      }
    }
  }

  /** The body of `fib_mp`. */
  method FibMPBody(counter: Profiled, table: MemoTable, x: int) returns (r: int)
    requires "fib_mp" in table.d && AllEntries(table.d, "fib_mp", FibEntry)
    modifies counter, table
    ensures r == Fib(x)
    ensures AllEntries(table.d, "fib_mp", FibEntry) && Grows(old(table.d), table.d, "fib_mp")
    ensures AddsBelow(old(table.d), table.d, x)
    ensures counter.count >= old(counter.count)
    ensures NoneCachedUpTo(old(table.d), x) ==>
              && counter.count == old(counter.count) + FibMPCalls(x) - 1
              && (x >= 2 ==> AllCachedUpTo(table.d, x - 1))
    decreases if x < 0 then 0 else x, 0
  {
    if x <= 1 {
      r := 1;
      assert Grows(old(table.d), table.d, "fib_mp");
    } else {
      ghost var d0, c0 := table.d, counter.count;
      var a := FibMP(counter, table, x - 1);
      ghost var d1, c1 := table.d, counter.count;
      var b := FibMP(counter, table, x - 2);
      GrowsTrans(old(table.d), d1, table.d, "fib_mp");
      FibStep(x);
      r := a + b;
      GrowsCached(d0, d1);
      AddsTwo(d0, d1, table.d, x);
      if NoneCachedUpTo(d0, x) {
        GrowsCached(d1, table.d);
        BodyCount(d0, d1, table.d, x, c0, c1, counter.count);
      }
    }
  }
}
