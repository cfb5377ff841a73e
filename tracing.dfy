/** The call tracer `traced` (decorators.py:16-46). Printing a line is
    modelled as appending it to a log. */
module Tracing {
  import opened Values

  /** `"| "` repeated `depth` times. */
  function Indent(depth: nat): (s: string)
    ensures |s| == 2 * depth
  {
    if depth == 0 then "" else "| " + Indent(depth - 1)
  }

  /** The line printed when a call is entered at nesting `depth`. */
  function EntryLine(depth: nat, name: string, args: Key): (r: string)
  {
    Indent(depth) + ",- " + name + "(" + ReprArgs(args) + ")"
  }

  /** The line printed when a call at nesting `depth` returns `v`. */
  function ReturnLine(depth: nat, v: Value): (r: string)
  {
    Indent(depth) + "'- " + Repr(v)
  }

  /** A printed line, before it is rendered as text. */
  datatype Line = EntryAt(depth: nat, name: string, args: Key) | ReturnAt(depth: nat, result: Value)

  function Text(line: Line): (r: string)
  {
    match line
    case EntryAt(depth, name, args) => EntryLine(depth, name, args)
    case ReturnAt(depth, result) => ReturnLine(depth, result)
  }

  /** The text of a sequence of lines. */
  function Texts(lines: seq<Line>): (r: seq<string>)
    ensures |r| == |lines|
  {
    seq(|lines|, k requires 0 <= k < |lines| => Text(lines[k]))
  }

  lemma TextsAppend(a: seq<Line>, b: seq<Line>)
    ensures Texts(a + b) == Texts(a) + Texts(b)
  {
  }

  /** Every line of `t` was printed deeper than `depth`. */
  predicate Deeper(t: seq<Line>, depth: nat)
  {
    forall k :: 0 <= k < |t| ==> t[k].depth > depth
  }

  /** What one traced call at `depth` prints: its entry line first, its
      return line last, and between them only lines of the calls it made,
      which are deeper. */
  predicate Frame(t: seq<Line>, depth: nat, name: string, args: Key, result: Value)
  {
    && |t| >= 2
    && t[0] == EntryAt(depth, name, args)
    && t[|t| - 1] == ReturnAt(depth, result)
    && Deeper(t[1..|t| - 1], depth)
  }

  lemma DeeperAppend(a: seq<Line>, b: seq<Line>, depth: nat)
    requires Deeper(a, depth) && Deeper(b, depth)
    ensures Deeper(a + b, depth)
  {
    forall k | 0 <= k < |a + b|
      ensures (a + b)[k].depth > depth
    {
      if k < |a| {
        assert (a + b)[k] == a[k];
      } else {
        assert (a + b)[k] == b[k - |a|];
      }
    }
  }

  /** Two stretches of output, each deeper than `depth`, printed one after
      the other, make one such stretch. */
  lemma DeeperSpan(log0: seq<Line>, log1: seq<Line>, log2: seq<Line>, depth: nat)
    requires log0 <= log1 <= log2
    requires Deeper(log1[|log0|..], depth) && Deeper(log2[|log1|..], depth)
    ensures Deeper(log2[|log0|..], depth)
  {
    forall k | 0 <= k < |log2| - |log0|
      ensures log2[|log0|..][k].depth > depth
    {
      if |log0| + k < |log1| {
        assert log2[|log0|..][k] == log1[|log0|..][k];
      } else {
        assert log2[|log0|..][k] == log2[|log1|..][|log0| + k - |log1|];
      }
    }
  }

  /** A frame one level down lies wholly deeper than `depth`. */
  lemma FrameDeeper(t: seq<Line>, depth: nat, name: string, args: Key, result: Value)
    requires Frame(t, depth + 1, name, args, result)
    ensures Deeper(t, depth)
  {
    forall k | 0 <= k < |t|
      ensures t[k].depth > depth
    {
      if 0 < k < |t| - 1 {
        assert t[k] == t[1..|t| - 1][k - 1];
      }
    }
  }

  lemma MakeFrame(inner: seq<Line>, depth: nat, name: string, args: Key, result: Value)
    requires Deeper(inner, depth)
    ensures Frame([EntryAt(depth, name, args)] + inner + [ReturnAt(depth, result)], depth, name, args, result)
  {
    var t := [EntryAt(depth, name, args)] + inner + [ReturnAt(depth, result)];
    assert t[1..|t| - 1] == inner;
  }

  /** The lines a call printed after `log`, from its entry line through its
      return line, form its frame. */
  lemma CloseFrame(log: seq<Line>, inner: seq<Line>, depth: nat, name: string, args: Key, result: Value)
    requires Deeper(inner, depth)
    ensures var all := log + [EntryAt(depth, name, args)] + inner + [ReturnAt(depth, result)];
      log <= all && Frame(all[|log|..], depth, name, args, result)
  {
    var t := [EntryAt(depth, name, args)] + inner + [ReturnAt(depth, result)];
    MakeFrame(inner, depth, name, args, result);
    assert log + [EntryAt(depth, name, args)] + inner + [ReturnAt(depth, result)] == log + t;
    DropPrefix(log, t);
  }

  /** What one traced call at `depth` prints when it raises: its entry line,
      then only lines of the calls it made, which are deeper, and no return
      line. */
  predicate RaisedFrame(t: seq<Line>, depth: nat, name: string, args: Key)
  {
    && |t| >= 1
    && t[0] == EntryAt(depth, name, args)
    && Deeper(t[1..], depth)
  }

  lemma RaisedFrameDeeper(t: seq<Line>, depth: nat, name: string, args: Key)
    requires RaisedFrame(t, depth + 1, name, args)
    ensures Deeper(t, depth)
  {
    forall k | 0 <= k < |t|
      ensures t[k].depth > depth
    {
      if 0 < k {
        assert t[k] == t[1..][k - 1];
      }
    }
  }

  /** A call a cache answered before its tracer printed nothing; any other
      printed one frame. Either way its lines are deeper than its caller. */
  lemma SilentOrFrameDeeper(t: seq<Line>, depth: nat, name: string, args: Key, result: Value)
    requires t == [] || Frame(t, depth + 1, name, args, result)
    ensures Deeper(t, depth)
  {
    if t != [] {
      FrameDeeper(t, depth, name, args, result);
    }
  }

  /** The lines a raising call printed after `log` form its raised frame. */
  lemma CloseRaised(log: seq<Line>, inner: seq<Line>, depth: nat, name: string, args: Key)
    requires Deeper(inner, depth)
    ensures var all := log + [EntryAt(depth, name, args)] + inner;
      log <= all && RaisedFrame(all[|log|..], depth, name, args)
  {
    var t := [EntryAt(depth, name, args)] + inner;
    assert t[1..] == inner;
    AppendAssoc(log, [EntryAt(depth, name, args)], inner);
    DropPrefix(log, t);
  }

  /** The number of leading `"| "` units of a line: the nesting depth a
      reader of the trace sees. */
  function LeadingBars(line: string): (r: nat)
  {
    if |line| >= 2 && line[0] == '|' && line[1] == ' ' then 1 + LeadingBars(line[2..]) else 0
  }

  /** The marker that follows the indentation of a line. */
  function Marker(line: string): (r: string)
  {
    var d := LeadingBars(line);
    if 2 * d + 3 <= |line| then line[2 * d .. 2 * d + 3] else ""
  }

  lemma {:induction false} IndentSnoc(d: nat)
    ensures Indent(d + 1) == Indent(d) + "| "
  {
    if d > 0 {
      IndentSnoc(d - 1);
    }
  }

  lemma {:induction false} LeadingBarsIndent(d: nat, rest: string)
    requires rest == [] || rest[0] != '|'
    ensures LeadingBars(Indent(d) + rest) == d
  {
    if d > 0 {
      var tail := Indent(d - 1) + rest;
      assert Indent(d) + rest == "| " + tail;
      assert ("| " + tail)[2..] == tail;
      LeadingBarsIndent(d - 1, rest);
    } else {
      assert Indent(d) + rest == rest;
    }
  }

  /** An entry line reads back as an entry (",- ") at the depth it was
      printed at. */
  lemma EntryLineShape(depth: nat, name: string, args: Key)
    ensures LeadingBars(EntryLine(depth, name, args)) == depth
    ensures Marker(EntryLine(depth, name, args)) == ",- "
  {
    var rest := ",- " + name + "(" + ReprArgs(args) + ")";
    assert EntryLine(depth, name, args) == Indent(depth) + rest;
    LeadingBarsIndent(depth, rest);
    assert (Indent(depth) + rest)[2 * depth .. 2 * depth + 3] == rest[..3];
  }

  /** A return line reads back as a return ("'- ") at the depth it was
      printed at. */
  lemma ReturnLineShape(depth: nat, v: Value)
    ensures LeadingBars(ReturnLine(depth, v)) == depth
    ensures Marker(ReturnLine(depth, v)) == "'- "
  {
    var rest := "'- " + Repr(v);
    assert ReturnLine(depth, v) == Indent(depth) + rest;
    LeadingBarsIndent(depth, rest);
    assert (Indent(depth) + rest)[2 * depth .. 2 * depth + 3] == rest[..3];
  }

  /** Builds the entry line of decorators.py:25-31, the indentation with a
      loop. */
  method BuildEntryLine(depth: nat, name: string, args: Key) returns (line: string)
    ensures line == EntryLine(depth, name, args)
  {
    line := "";
    for x := 0 to depth
      invariant line == Indent(x)
    {
      IndentSnoc(x);
      line := line + "| ";
    }
    line := line + ",- " + name + "(";
    line := line + ReprArgs(args);
    line := line + ")";
  }

  /** Builds the return line of decorators.py:41-44. */
  method BuildReturnLine(depth: nat, v: Value) returns (line: string)
    ensures line == ReturnLine(depth, v)
  {
    line := "";
    for x := 0 to depth
      invariant line == Indent(x)
    {
      IndentSnoc(x);
      line := line + "| ";
    }
    line := line + "'- " + Repr(v);
  }

  /** The state every tracer shares: the class attribute `traced.count`
      (the nesting depth, common to all traced functions) and standard
      output, `log`. `lines` is the proof's account of what was printed. */
  class TraceState {
    var depth: nat
    var log: seq<string>
    ghost var lines: seq<Line>

    /** Standard output holds exactly the text of the lines printed. */
    ghost predicate Valid()
      reads this
    {
      log == Texts(lines)
    }

    constructor ()
      ensures Valid() && depth == 0 && log == [] && lines == []
    {
      depth := 0;
      log := [];
      lines := [];
    }
  }

  /** Printing `line`. */
  method Print(st: TraceState, text: string, ghost line: Line)
    requires st.Valid() && text == Text(line)
    modifies st
    ensures st.Valid() && st.depth == old(st.depth)
    ensures st.log == old(st.log) + [text]
    ensures st.lines == old(st.lines) + [line]
  {
    TextsAppend(st.lines, [line]);
    st.log := st.log + [text];
    st.lines := st.lines + [line];
  }

  /** Entering a traced call: print the entry line at the current depth,
      then go one level deeper (decorators.py:25-33). */
  method Enter(st: TraceState, name: string, args: Key)
    requires st.Valid()
    modifies st
    ensures st.Valid() && st.depth == old(st.depth) + 1
    ensures st.lines == old(st.lines) + [EntryAt(old(st.depth), name, args)]
  {
    var text := BuildEntryLine(st.depth, name, args);
    Print(st, text, EntryAt(st.depth, name, args));
    st.depth := st.depth + 1;
  }

  /** Leaving a traced call that returned `v`: back one level, then print
      the return line at the restored depth (decorators.py:40-45). */
  method ExitOk(st: TraceState, v: Value)
    requires st.Valid() && st.depth > 0
    modifies st
    ensures st.Valid() && st.depth == old(st.depth) - 1
    ensures st.lines == old(st.lines) + [ReturnAt(st.depth, v)]
  {
    st.depth := st.depth - 1;
    var text := BuildReturnLine(st.depth, v);
    Print(st, text, ReturnAt(st.depth, v));
  }

  /** Leaving a traced call that raised: back one level, print nothing
      (decorators.py:36-38). */
  method ExitRaised(st: TraceState)
    requires st.depth > 0
    modifies st
    ensures st.depth == old(st.depth) - 1
    ensures st.log == old(st.log) && st.lines == old(st.lines)
  {
    st.depth := st.depth - 1;
  }

  /** A tracer around `f`. `fvalue` is the instance attribute holding the
      last value `f` returned. */
  class Traced {
    const name: string
    const f: Key -> Outcome
    const st: TraceState
    var fvalue: Value

    /** Constructing a tracer resets the shared depth to 0
        (decorators.py:22). */
    constructor (name: string, f: Key -> Outcome, st: TraceState)
      modifies st
      ensures this.name == name && this.f == f && this.st == st
      ensures st.depth == 0 && st.log == old(st.log) && st.lines == old(st.lines)
      ensures fvalue == NoneV
    {
      this.name := name;
      this.f := f;
      this.st := st;
      fvalue := NoneV;
      st.depth := 0;
    }

    /** The entry line is always printed; the return line only when `f`
        returns; the depth is the same afterwards either way. */
    method Call(args: Key) returns (o: Outcome)
      requires st.Valid()
      modifies this, st
      ensures st.Valid()
      ensures o == f(args)
      ensures st.depth == old(st.depth)
      ensures st.log == old(st.log) + [EntryLine(old(st.depth), name, args)]
                        + (if o.Val? then [ReturnLine(old(st.depth), o.v)] else [])
      ensures fvalue == if o.Val? then o.v else old(fvalue)
    {
      ghost var log0 := st.log;
      Enter(st, name, args);
      TextsAppend(old(st.lines), [EntryAt(old(st.depth), name, args)]);
      o := f(args);
      if o.Val? {
        fvalue := o.v;
        ghost var lines1 := st.lines;
        ExitOk(st, fvalue);
        TextsAppend(lines1, [ReturnAt(st.depth, o.v)]);
      } else {
        ExitRaised(st);
      }
    }
  }
}
