/** `change_t` and `change_mt` (decorators.py:173-203). `ChangeException`
    escaping a call is modelled as the result `Unreachable`; the `try`/`except`
    around the first recursive call becomes a test of that result. */
module ChangeVariants {
  import opened Values
  import opened Tracing
  import opened Memoization
  import opened Algorithms

  /** The positional arguments of `change_t(l, a)`. */
  function ChangeKey(l: seq<int>, a: int): (r: Key)
  {
    [IntsV(l), IntV(a)]
  }

  /** How a search result leaves a wrapped call: the coins as a Python list,
      or `ChangeException` raised. */
  function ChangeOutcome(r: ChangeResult): (res: Outcome)
  {
    match r
    case Found(coins) => Val(IntsV(coins))
    case Unreachable => Raised(ChangeException)
  }

  /** Reads a search result back from a call's outcome; None for an outcome
      no search produces. */
  function ChangeFromOutcome(o: Outcome): (r: Option<ChangeResult>)
  {
    match o
    case Val(v) => if AsInts(v).Some? then Some(Found(AsInts(v).value)) else None
    case Raised(e) => if e == ChangeException then Some(Unreachable) else None
  }

  /** A cached outcome reads back as the result that produced it. */
  lemma ChangeOutcomeRoundTrip(r: ChangeResult)
    ensures ChangeFromOutcome(ChangeOutcome(r)) == Some(r)
  {
    if r.Found? {
      AsIntsOfIntsV(r.coins);
    }
  }

  /** The return line of a call with result `r`: printed only when the call
      returns, none when it raises. */
  function ReturnPart(depth: nat, r: ChangeResult): (res: seq<Line>)
  {
    if r.Found? then [ReturnAt(depth, IntsV(r.coins))] else []
  }

  /** The trace `change_t(l, a)` prints when entered at `depth`. */
  function ChangeTrace(depth: nat, l: seq<int>, a: int): (r: seq<Line>)
    requires Positive(l)
    decreases |l|, a, 1
  {
    [EntryAt(depth, "change_t", ChangeKey(l, a))] + ChangeCalls(depth + 1, l, a) + ReturnPart(depth, Change(l, a))
  }

  /** What the recursive calls of `change_t(l, a)` print, one level down:
      the call with the first denomination, and, when that one raises, the
      call without it. */
  function ChangeCalls(depth: nat, l: seq<int>, a: int): (r: seq<Line>)
    requires Positive(l)
    decreases |l|, a, 0
  {
    if a == 0 || |l| == 0 then []
    else if l[0] > a then ChangeTrace(depth, l[1..], a)
    else ChangeTrace(depth, l, a - l[0])
         + (if Change(l, a - l[0]).Found? then [] else ChangeTrace(depth, l[1..], a))
  }

  /** What `change_t(l, a)` prints is one frame, closed by a return line
      exactly when coins are found: the calls it makes print deeper. */
  lemma {:induction false} ChangeTraceFrame(depth: nat, l: seq<int>, a: int)
    requires Positive(l)
    ensures Change(l, a).Found? ==>
              Frame(ChangeTrace(depth, l, a), depth, "change_t", ChangeKey(l, a), IntsV(Change(l, a).coins))
    ensures Change(l, a).Unreachable? ==> RaisedFrame(ChangeTrace(depth, l, a), depth, "change_t", ChangeKey(l, a))
    decreases |l|, a, 0
  {
    var inner := ChangeCalls(depth + 1, l, a);
    assert Deeper(inner, depth) by {
      if a != 0 && |l| > 0 {
        if l[0] > a {
          TraceDeeper(depth, l[1..], a);
        } else {
          TraceDeeper(depth, l, a - l[0]);
          if Change(l, a - l[0]).Unreachable? {
            TraceDeeper(depth, l[1..], a);
            DeeperAppend(ChangeTrace(depth + 1, l, a - l[0]), ChangeTrace(depth + 1, l[1..], a), depth);
          } else {
            assert inner == ChangeTrace(depth + 1, l, a - l[0]);
          }
        }
      }
    }
    var entry := EntryAt(depth, "change_t", ChangeKey(l, a));
    if Change(l, a).Found? {
      MakeFrame(inner, depth, "change_t", ChangeKey(l, a), IntsV(Change(l, a).coins));
    } else {
      var t := [entry] + inner + [];
      assert t[1..] == inner;
    }
  }

  /** The trace of a call one level down lies wholly deeper than `depth`. */
  lemma {:induction false} TraceDeeper(depth: nat, l: seq<int>, a: int)
    requires Positive(l)
    ensures Deeper(ChangeTrace(depth + 1, l, a), depth)
    decreases |l|, a, 1
  {
    ChangeTraceFrame(depth + 1, l, a);
    if Change(l, a).Found? {
      FrameDeeper(ChangeTrace(depth + 1, l, a), depth, "change_t", ChangeKey(l, a), IntsV(Change(l, a).coins));
    } else {
      RaisedFrameDeeper(ChangeTrace(depth + 1, l, a), depth, "change_t", ChangeKey(l, a));
    }
  }

  /** `change_t` (decorators.py:176-189): the tracer around the body. A call
      that raises prints its entry line and no return line. */
  method ChangeT(st: TraceState, l: seq<int>, a: int) returns (r: ChangeResult)
    requires st.Valid() && Positive(l)
    modifies st
    ensures st.Valid() && st.depth == old(st.depth)
    ensures r == Change(l, a)
    ensures st.lines == old(st.lines) + ChangeTrace(old(st.depth), l, a)
    decreases |l|, a, 1
  {
    ghost var d, lines0 := st.depth, st.lines;
    var key := [IntsV(l), IntV(a)];
    Enter(st, "change_t", key);
    r := ChangeTBody(st, l, a);
    if r.Found? {
      ExitOk(st, IntsV(r.coins));
      Bracket(lines0, EntryAt(d, "change_t", key), ChangeCalls(d + 1, l, a), ReturnAt(d, IntsV(r.coins)));
    } else {
      ExitRaised(st);
      AppendAssoc(lines0, [EntryAt(d, "change_t", key)], ChangeCalls(d + 1, l, a));
    }
  }

  /** The body of `change_t`, its recursive calls going through the
      tracer. */
  method ChangeTBody(st: TraceState, l: seq<int>, a: int) returns (r: ChangeResult)
    requires st.Valid() && Positive(l)
    modifies st
    ensures st.Valid() && st.depth == old(st.depth)
    ensures r == Change(l, a)
    ensures st.lines == old(st.lines) + ChangeCalls(old(st.depth), l, a)
    decreases |l|, a, 0
  {
    if a == 0 {
      r := Found([]);
    } else if |l| == 0 {
      r := Unreachable;
    } else if l[0] > a {
      r := ChangeT(st, l[1..], a);
    } else {
      ghost var lines0 := st.lines;
      var first := ChangeT(st, l, a - l[0]);
      if first.Found? {
        r := Found([l[0]] + first.coins);
        assert ChangeCalls(st.depth, l, a) == ChangeTrace(st.depth, l, a - l[0]);
      } else {
        r := ChangeT(st, l[1..], a);
        AppendAssoc(lines0, ChangeTrace(st.depth, l, a - l[0]), ChangeTrace(st.depth, l[1..], a));
      }
    }
  }

  /** A cache entry that holds the outcome of the search for its two
      arguments. */
  predicate ChangeEntry(e: Entry)
  {
    && |e.0| == 2
    && AsInts(e.0[0]).Some? && Positive(AsInts(e.0[0]).value)
    && e.0[1].IntV?
    && e.1 == ChangeOutcome(Change(AsInts(e.0[0]).value, e.0[1].i))
  }

  /** `change_mt`: the tracer outside the memoizer (decorators.py:190-203).
      The cache keeps a raised `ChangeException` like a value and raises it
      again on a hit; a hit prints exactly the entry line, and the return
      line when the cached outcome is a value. */
  method ChangeMT(st: TraceState, table: MemoTable, l: seq<int>, a: int) returns (r: ChangeResult)
    requires st.Valid() && Positive(l) && AllEntries(table.d, "change_mt", ChangeEntry)
    modifies st, table
    ensures r == Change(l, a)
    ensures AllEntries(table.d, "change_mt", ChangeEntry) && Grows(old(table.d), table.d, "change_mt")
    ensures Lookup(table.d["change_mt"], ChangeKey(l, a)) == Some(ChangeOutcome(r))
    ensures st.Valid() && st.depth == old(st.depth)
    ensures old(st.lines) <= st.lines
    ensures r.Found? ==>
              Frame(st.lines[|old(st.lines)|..], old(st.depth), "change_mt", ChangeKey(l, a), IntsV(r.coins))
    ensures r.Unreachable? ==> RaisedFrame(st.lines[|old(st.lines)|..], old(st.depth), "change_mt", ChangeKey(l, a))
    ensures Lookup(PartitionOf(old(table.d), "change_mt"), ChangeKey(l, a)).Some? ==>
              && table.d == old(table.d)
              && st.lines == old(st.lines) + [EntryAt(old(st.depth), "change_mt", ChangeKey(l, a))]
                                           + ReturnPart(old(st.depth), r)
    decreases |l|, a, 2
  {
    ghost var d, lines0 := st.depth, st.lines;
    var key := [IntsV(l), IntV(a)];
    Enter(st, "change_mt", key);
    ghost var lines1 := st.lines;
    r := ChangeMTMemo(st, table, l, a);
    ghost var inner := st.lines[|lines1|..];
    PrefixSplit(lines1, st.lines);
    if r.Found? {
      ExitOk(st, IntsV(r.coins));
      CloseFrame(lines0, inner, d, "change_mt", key, IntsV(r.coins));
    } else {
      ExitRaised(st);
      CloseRaised(lines0, inner, d, "change_mt", key);
    }
  }

  /** The memoizer inside `change_mt`: a hit replays the cached outcome and
      prints nothing. */
  method ChangeMTMemo(st: TraceState, table: MemoTable, l: seq<int>, a: int) returns (r: ChangeResult)
    requires st.Valid() && st.depth > 0 && Positive(l) && AllEntries(table.d, "change_mt", ChangeEntry)
    modifies st, table
    ensures r == Change(l, a)
    ensures AllEntries(table.d, "change_mt", ChangeEntry) && Grows(old(table.d), table.d, "change_mt")
    ensures Lookup(table.d["change_mt"], ChangeKey(l, a)) == Some(ChangeOutcome(r))
    ensures st.Valid() && st.depth == old(st.depth)
    ensures old(st.lines) <= st.lines && Deeper(st.lines[|old(st.lines)|..], st.depth - 1)
    ensures Lookup(PartitionOf(old(table.d), "change_mt"), ChangeKey(l, a)).Some? ==>
              table.d == old(table.d) && st.lines == old(st.lines)
    decreases |l|, a, 1
  {
    var key := [IntsV(l), IntV(a)];
    AsIntsOfIntsV(l);
    var hit := RecallChecked(table, "change_mt", key, ChangeEntry);
    if hit.Some? {
      ChangeOutcomeRoundTrip(Change(l, a));
      r := ChangeFromOutcome(hit.value).value;
    } else {
      ghost var d1 := table.d;
      r := ChangeMTBody(st, table, l, a);
      ghost var d2 := table.d;
      GrowsTrans(old(table.d), d1, d2, "change_mt");
      assert ChangeEntry((key, ChangeOutcome(r)));
      StoreChecked(table, "change_mt", key, ChangeOutcome(r), ChangeEntry);
      GrowsTrans(old(table.d), d2, table.d, "change_mt");
    }
  }

  /** The body of `change_mt`, entered one level deeper than its caller. */
  method ChangeMTBody(st: TraceState, table: MemoTable, l: seq<int>, a: int) returns (r: ChangeResult)
    requires st.Valid() && st.depth > 0 && Positive(l) && "change_mt" in table.d
             && AllEntries(table.d, "change_mt", ChangeEntry)
    modifies st, table
    ensures r == Change(l, a)
    ensures AllEntries(table.d, "change_mt", ChangeEntry) && Grows(old(table.d), table.d, "change_mt")
    ensures st.Valid() && st.depth == old(st.depth)
    ensures old(st.lines) <= st.lines && Deeper(st.lines[|old(st.lines)|..], st.depth - 1)
    decreases |l|, a, 0
  {
    ghost var d := st.depth - 1;
    if a == 0 || |l| == 0 {
      r := if a == 0 then Found([]) else Unreachable;
      assert Grows(old(table.d), table.d, "change_mt");
      assert st.lines[|old(st.lines)|..] == [];
    } else if l[0] > a {
      r := ChangeMT(st, table, l[1..], a);
      SubcallDeeper(st.lines[|old(st.lines)|..], d, ChangeKey(l[1..], a), r);
    } else {
      var first := ChangeMT(st, table, l, a - l[0]);
      SubcallDeeper(st.lines[|old(st.lines)|..], d, ChangeKey(l, a - l[0]), first);
      if first.Found? {
        r := Found([l[0]] + first.coins);
      } else {
        ghost var d1, lines1 := table.d, st.lines;
        r := ChangeMT(st, table, l[1..], a);
        GrowsTrans(old(table.d), d1, table.d, "change_mt");
        SubcallDeeper(st.lines[|lines1|..], d, ChangeKey(l[1..], a), r);
        DeeperSpan(old(st.lines), lines1, st.lines, d);
      }
    }
  }

  /** What a call of `change_mt` one level down prints lies deeper than
      `depth`, whether it returned or raised. */
  lemma SubcallDeeper(t: seq<Line>, depth: nat, args: Key, r: ChangeResult)
    requires r.Found? ==> Frame(t, depth + 1, "change_mt", args, IntsV(r.coins))
    requires r.Unreachable? ==> RaisedFrame(t, depth + 1, "change_mt", args)
    ensures Deeper(t, depth)
  {
    if r.Found? {
      FrameDeeper(t, depth, "change_mt", args, IntsV(r.coins));
    } else {
      RaisedFrameDeeper(t, depth, "change_mt", args);
    }
  }
}
