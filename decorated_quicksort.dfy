/** `quicksort_t` and `quicksort_mt` (decorators.py:154-171). The argument
    is a Python list of integers, passed as the single value `IntsV(l)`. */
module QuicksortVariants {
  import opened Values
  import opened Tracing
  import opened Memoization
  import opened Algorithms

  /** The trace `quicksort_t(l)` prints when entered at `depth`. */
  function QuicksortTrace(depth: nat, l: seq<int>): (r: seq<Line>)
    decreases |l|, 1
  {
    [EntryAt(depth, "quicksort_t", [IntsV(l)])]
    + QuicksortCalls(depth + 1, l)
    + [ReturnAt(depth, IntsV(Quicksort(l)))]
  }

  /** What the recursive calls of `quicksort_t(l)` print, one level down. */
  function QuicksortCalls(depth: nat, l: seq<int>): (r: seq<Line>)
    decreases |l|, 0
  {
    if |l| <= 1 then []
    else QuicksortTrace(depth, Below(l[1..], l[0])) + QuicksortTrace(depth, AtLeast(l[1..], l[0]))
  }

  /** What `quicksort_t(l)` prints is one frame: the calls it makes print
      deeper. */
  lemma {:induction false} QuicksortTraceFrame(depth: nat, l: seq<int>)
    ensures Frame(QuicksortTrace(depth, l), depth, "quicksort_t", [IntsV(l)], IntsV(Quicksort(l)))
    decreases |l|
  {
    if |l| > 1 {
      var left, right := Below(l[1..], l[0]), AtLeast(l[1..], l[0]);
      QuicksortTraceFrame(depth + 1, left);
      QuicksortTraceFrame(depth + 1, right);
      FrameDeeper(QuicksortTrace(depth + 1, left), depth, "quicksort_t", [IntsV(left)], IntsV(Quicksort(left)));
      FrameDeeper(QuicksortTrace(depth + 1, right), depth, "quicksort_t", [IntsV(right)], IntsV(Quicksort(right)));
      DeeperAppend(QuicksortTrace(depth + 1, left), QuicksortTrace(depth + 1, right), depth);
    }
    MakeFrame(QuicksortCalls(depth + 1, l), depth, "quicksort_t", [IntsV(l)], IntsV(Quicksort(l)));
  }

  /** Each call splits off its pivot, so sorting `l` makes at most
      `2 * |l| + 1` calls, two lines each. */
  lemma {:induction false} QuicksortTraceLength(depth: nat, l: seq<int>)
    ensures 2 <= |QuicksortTrace(depth, l)| <= 4 * |l| + 2
    decreases |l|
  {
    if |l| > 1 {
      var left, right := Below(l[1..], l[0]), AtLeast(l[1..], l[0]);
      QuicksortTraceLength(depth + 1, left);
      QuicksortTraceLength(depth + 1, right);
      SplitLength(l[1..], l[0]);
    }
  }

  /** `quicksort_t` (decorators.py:154-161): the tracer around the body. */
  method QuicksortT(st: TraceState, l: seq<int>) returns (r: seq<int>)
    requires st.Valid()
    modifies st
    ensures st.Valid() && st.depth == old(st.depth)
    ensures r == Quicksort(l)
    ensures |l| <= 1 ==> r == l
    ensures SortedAsc(r) && multiset(r) == multiset(l)
    ensures st.lines == old(st.lines) + QuicksortTrace(old(st.depth), l)
    decreases |l|, 1
  {
    ghost var d, lines0 := st.depth, st.lines;
    var key := [IntsV(l)];
    Enter(st, "quicksort_t", key);
    r := QuicksortTBody(st, l);
    ExitOk(st, IntsV(r));
    Bracket(lines0, EntryAt(d, "quicksort_t", key), QuicksortCalls(d + 1, l), ReturnAt(d, IntsV(r)));
    QuicksortCorrect(l);
  }

  /** The body of `quicksort_t`: split around the first element and sort
      both sides through the tracer. */
  method QuicksortTBody(st: TraceState, l: seq<int>) returns (r: seq<int>)
    requires st.Valid()
    modifies st
    ensures st.Valid() && st.depth == old(st.depth)
    ensures r == Quicksort(l)
    ensures st.lines == old(st.lines) + QuicksortCalls(old(st.depth), l)
    decreases |l|, 0
  {
    if |l| <= 1 {
      r := l;
    } else {
      ghost var lines0 := st.lines;
      var pivot := l[0];
      var below, atLeast := Below(l[1..], pivot), AtLeast(l[1..], pivot);
      var left := QuicksortT(st, below);
      var right := QuicksortT(st, atLeast);
      r := left + l[0..1] + right;
      AppendAssoc(lines0, QuicksortTrace(st.depth, below), QuicksortTrace(st.depth, atLeast));
    }
  }

  /** A cache entry that holds the sorted copy of its one list argument. */
  predicate QuicksortEntry(e: Entry)
  {
    && |e.0| == 1
    && AsInts(e.0[0]).Some?
    && e.1 == Val(IntsV(Quicksort(AsInts(e.0[0]).value)))
  }

  /** `quicksort_mt`: the tracer outside the memoizer (decorators.py:163-171).
      Every call is traced; a hit prints exactly its entry and return lines
      and makes no further call. */
  method QuicksortMT(st: TraceState, table: MemoTable, l: seq<int>) returns (r: seq<int>)
    requires st.Valid() && AllEntries(table.d, "quicksort_mt", QuicksortEntry)
    modifies st, table
    ensures r == Quicksort(l)
    ensures AllEntries(table.d, "quicksort_mt", QuicksortEntry) && Grows(old(table.d), table.d, "quicksort_mt")
    ensures Lookup(table.d["quicksort_mt"], [IntsV(l)]) == Some(Val(IntsV(r)))
    ensures st.Valid() && st.depth == old(st.depth)
    ensures old(st.lines) <= st.lines
    ensures Frame(st.lines[|old(st.lines)|..], old(st.depth), "quicksort_mt", [IntsV(l)], IntsV(r))
    ensures Lookup(PartitionOf(old(table.d), "quicksort_mt"), [IntsV(l)]).Some? ==>
              && table.d == old(table.d)
              && st.lines == old(st.lines) + [EntryAt(old(st.depth), "quicksort_mt", [IntsV(l)]),
                                              ReturnAt(old(st.depth), IntsV(r))]
    decreases |l|, 2
  {
    ghost var d, lines0 := st.depth, st.lines;
    var key := [IntsV(l)];
    Enter(st, "quicksort_mt", key);
    ghost var lines1 := st.lines;
    r := QuicksortMTMemo(st, table, l);
    ghost var inner := st.lines[|lines1|..];
    PrefixSplit(lines1, st.lines);
    ExitOk(st, IntsV(r));
    CloseFrame(lines0, inner, d, "quicksort_mt", key, IntsV(r));
  }

  /** The memoizer inside `quicksort_mt`. */
  method QuicksortMTMemo(st: TraceState, table: MemoTable, l: seq<int>) returns (r: seq<int>)
    requires st.Valid() && st.depth > 0 && AllEntries(table.d, "quicksort_mt", QuicksortEntry)
    modifies st, table
    ensures r == Quicksort(l)
    ensures AllEntries(table.d, "quicksort_mt", QuicksortEntry) && Grows(old(table.d), table.d, "quicksort_mt")
    ensures Lookup(table.d["quicksort_mt"], [IntsV(l)]) == Some(Val(IntsV(r)))
    ensures st.Valid() && st.depth == old(st.depth)
    ensures old(st.lines) <= st.lines && Deeper(st.lines[|old(st.lines)|..], st.depth - 1)
    ensures Lookup(PartitionOf(old(table.d), "quicksort_mt"), [IntsV(l)]).Some? ==>
              table.d == old(table.d) && st.lines == old(st.lines)
    decreases |l|, 1
  {
    var key := [IntsV(l)];
    AsIntsOfIntsV(l);
    var hit := RecallChecked(table, "quicksort_mt", key, QuicksortEntry);
    if hit.Some? {
      AsIntsOfIntsV(Quicksort(l));
      r := AsInts(hit.value.v).value;
    } else {
      ghost var d1 := table.d;
      r := QuicksortMTBody(st, table, l);
      ghost var d2 := table.d;
      GrowsTrans(old(table.d), d1, d2, "quicksort_mt");
      assert QuicksortEntry((key, Val(IntsV(r))));
      StoreChecked(table, "quicksort_mt", key, Val(IntsV(r)), QuicksortEntry);
      GrowsTrans(old(table.d), d2, table.d, "quicksort_mt");
    }
  }

  /** The body of `quicksort_mt`, entered one level deeper than its caller. */
  method QuicksortMTBody(st: TraceState, table: MemoTable, l: seq<int>) returns (r: seq<int>)
    requires st.Valid() && st.depth > 0 && "quicksort_mt" in table.d
             && AllEntries(table.d, "quicksort_mt", QuicksortEntry)
    modifies st, table
    ensures r == Quicksort(l)
    ensures AllEntries(table.d, "quicksort_mt", QuicksortEntry) && Grows(old(table.d), table.d, "quicksort_mt")
    ensures st.Valid() && st.depth == old(st.depth)
    ensures old(st.lines) <= st.lines && Deeper(st.lines[|old(st.lines)|..], st.depth - 1)
    decreases |l|, 0
  {
    ghost var d := st.depth - 1;
    if |l| <= 1 {
      r := l;
      assert Grows(old(table.d), table.d, "quicksort_mt");
      assert st.lines[|old(st.lines)|..] == [];
    } else {
      var pivot := l[0];
      var below, atLeast := Below(l[1..], pivot), AtLeast(l[1..], pivot);
      var left := QuicksortMT(st, table, below);
      ghost var d1, lines1 := table.d, st.lines;
      var right := QuicksortMT(st, table, atLeast);
      GrowsTrans(old(table.d), d1, table.d, "quicksort_mt");
      r := left + l[0..1] + right;
      FrameDeeper(lines1[|old(st.lines)|..], d, "quicksort_mt", [IntsV(below)], IntsV(left));
      FrameDeeper(st.lines[|lines1|..], d, "quicksort_mt", [IntsV(atLeast)], IntsV(right));
      DeeperSpan(old(st.lines), lines1, st.lines, d);
    }
  }
}
