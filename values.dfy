/** The dynamically typed values the decorated functions pass around, the
    exceptions they raise, and Python's `repr` of a value, which the tracer
    prints. */
module Values {

  datatype Option<T> = None | Some(value: T)

  /** A call that returns a value or raises an exception. */
  datatype Result<T> = Ok(value: T) | Err(error: Exc)

  /** The Python values that occur as arguments and results: None, booleans,
      integers and lists. */
  datatype Value = NoneV | BoolV(b: bool) | IntV(i: int) | ListV(items: seq<Value>)

  /** The exceptions of the core: the change search's dedicated failure, the
      length-mismatch `Failure` of misc.py, and Python's ValueError. */
  datatype Exc = ChangeException | Failure(message: string) | ValueError(message: string)

  /** What a wrapped call produced: a value, or a raised exception. The memo
      cache stores both kinds alike. */
  datatype Outcome = Val(v: Value) | Raised(e: Exc)

  /** The positional arguments of a call. */
  type Key = seq<Value>

  /** A Python list of integers. */
  function IntsV(s: seq<int>): (r: Value)
  {
    ListV(seq(|s|, k requires 0 <= k < |s| => IntV(s[k])))
  }

  /** Reads a Python list of integers back; None for any other value. */
  function AsInts(v: Value): (r: Option<seq<int>>)
    ensures r.Some? ==> v == IntsV(r.value)
  {
    match v
    case ListV(items) =>
      if forall k :: 0 <= k < |items| ==> items[k].IntV?
      then
        var s := seq(|items|, k requires 0 <= k < |items| => items[k].i);
        assert IntsV(s).items == items;
        Some(s)
      else None
    case _ => None
  }

  lemma AsIntsOfIntsV(s: seq<int>)
    ensures AsInts(IntsV(s)) == Some(s)
  {
    var items := IntsV(s).items;
    assert forall k :: 0 <= k < |items| ==> items[k] == IntV(s[k]);
    var back := seq(|items|, k requires 0 <= k < |items| => items[k].i);
    assert back == s;
  }

  /** Appending integer lists as Python lists. */
  lemma IntsVAppend(a: seq<int>, b: seq<int>)
    ensures IntsV(a + b) == ListV(IntsV(a).items + IntsV(b).items)
  {
    assert IntsV(a + b).items == IntsV(a).items + IntsV(b).items;
  }

  /** `", ".join(parts)` */
  function Join(sep: string, parts: seq<string>): (r: string)
  {
    if |parts| == 0 then ""
    else if |parts| == 1 then parts[0]
    else parts[0] + sep + Join(sep, parts[1..])
  }

  function DigitChar(d: nat): (c: char)
    requires d < 10
  {
    "0123456789"[d]
  }

  /** The decimal digits of `n`, the last of which is that of `n % 10`. */
  function NatRepr(n: nat): (r: string)
    ensures |r| >= 1 && r[|r| - 1] == DigitChar(n % 10)
  {
    if n < 10 then [DigitChar(n)] else NatRepr(n / 10) + [DigitChar(n % 10)]
  }

  /** `sys.maxint` of Python 2 on a 64-bit platform. Integers outside
      `-MaxInt - 1 .. MaxInt` are Python 2 `long`s. */
  const MaxInt: int := 0x7fff_ffff_ffff_ffff

  /** Python 2's `repr` of an integer: its decimal digits, with a leading '-'
      when negative, and the suffix 'L' of a `long` exactly when the value
      lies outside the platform's `int` range. */
  function IntRepr(i: int): (r: string)
    ensures |r| >= 1
    ensures r[|r| - 1] == 'L' <==> i > MaxInt || i < -MaxInt - 1
  {
    var digits := if i < 0 then "-" + NatRepr(-i) else NatRepr(i);
    if i > MaxInt || i < -MaxInt - 1 then digits + "L" else digits
  }

  /** Python's `repr`. */
  function Repr(v: Value): (r: string)
  {
    match v
    case NoneV => "None"
    case BoolV(b) => if b then "True" else "False"
    case IntV(i) => IntRepr(i)
    case ListV(items) => "[" + ReprArgs(items) + "]"
  }

  /** `", ".join([repr(x) for x in args])` */
  function ReprArgs(args: seq<Value>): (r: string)
  {
    Join(", ", seq(|args|, k requires 0 <= k < |args| => Repr(args[k])))
  }

  lemma AppendAssoc<T>(a: seq<T>, b: seq<T>, c: seq<T>)
    ensures a + b + c == a + (b + c)
  {
  }

  /** A sequence is its prefix followed by the rest. */
  lemma PrefixSplit<T>(a: seq<T>, b: seq<T>)
    requires a <= b
    ensures b == a + b[|a|..]
  {
  }

  lemma DropPrefix<T>(a: seq<T>, b: seq<T>)
    ensures (a + b)[|a|..] == b
  {
  }

  lemma Regroup<T>(a: T, s: seq<T>, t: seq<T>, b: T)
    ensures [a] + (s + t) + [b] == ([a] + s) + (t + [b])
  {
  }

  lemma Bracket<T>(log: seq<T>, a: T, s: seq<T>, b: T)
    ensures log + [a] + s + [b] == log + ([a] + s + [b])
  {
  }
}
