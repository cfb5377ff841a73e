/** The call counter `profiled` (decorators.py:3-14). */
module Profiling {
  import opened Values

  /** Wraps `f` and counts its calls. The counter belongs to this instance
      alone. */
  class Profiled {
    var count: nat
    const name: string
    const f: Key -> Outcome

    constructor (name: string, f: Key -> Outcome)
      ensures this.name == name && this.f == f
      ensures count == 0
    {
      this.name := name;
      this.f := f;
      count := 0;
    }

    /** Counts the call first, then delegates; a raised exception is passed
        through and still counted. */
    method Call(args: Key) returns (o: Outcome)
      modifies this
      ensures count == old(count) + 1
      ensures o == f(args)
    {
      count := count + 1;
      o := f(args);
    }

    /** The number of calls since construction or the last reset. */
    method Count() returns (n: nat)
      ensures n == count
    {
      n := count;
    }

    method Reset()
      modifies this
      ensures count == 0
    {
      count := 0;
    }
  }
}
