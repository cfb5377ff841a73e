# Call wrappers and the Vector class, modelled in Dafny

This project models two small Python modules and proves properties of them.

The first is `decorators.py`, a set of function wrappers:

- `profiled` counts calls.
- `traced` prints one nested line when a call is entered and one when it returns.
- `memoized` keeps a cache, shared by every memoizer, that maps a function's name to a list of (arguments, outcome) pairs. The list only ever grows.

The same file also holds the recursive functions those wrappers are stacked on: `fib_t`, `fib_mt`, `fib_tm`, `fib_mp`, `even_t`/`odd_t`, `quicksort_t`/`quicksort_mt` and the backtracking coin-change search `change_t`/`change_mt`.

The second is `vector.py`, a `Vector` class. It holds a list of numbers and a separately stored length. It supports:

- element-wise addition, both functional and in place;
- a dot product;
- index and slice access;
- equality;
- an ordering that compares descending-sorted copies lexicographically.

## Layout

| file | module | contents |
|---|---|---|
| `values.dfy` | `Values` | Python values (`None`, booleans, integers, lists) and their `repr`; exceptions; the `Outcome` of a call (a value, or a raised exception); `Option`/`Result`; small sequence lemmas |
| `profiling.dfy` | `Profiling` | class `Profiled`: the call counter |
| `tracing.dfy` | `Tracing` | the line formats; class `TraceState`, which holds the shared depth `traced.count` and standard output as a log of strings; the entry and exit steps of the tracer; class `Traced` |
| `memoization.dfy` | `Memoization` | class `MemoTable`, which is the class attribute `memoized.d`; first-match lookup and its loop; recall and store; class `Memoized` |
| `algorithms.dfy` | `Algorithms` | the undecorated algorithms as functions: `Fib`, `Even`/`Odd`, `Quicksort`, `Change`; their correctness lemmas |
| `decorated_fib.dfy` | `FibVariants` | `fib_t`, `fib_mt`, `fib_tm`, `fib_mp` as methods over the shared tracer state, cache and counter |
| `decorated_parity.dfy` | `ParityVariants` | `even_t`, `odd_t` |
| `decorated_quicksort.dfy` | `QuicksortVariants` | `quicksort_t`, `quicksort_mt` |
| `decorated_change.dfy` | `ChangeVariants` | `change_t`, `change_mt` |
| `vector.dfy` | `Vectors` | class `Vector`; the element-wise loops; Python indexing and slicing; the ordering |

### How the state is modelled

- The wrapped function of a stand-alone wrapper (`Profiled`, `Traced`, `Memoized`) is a parameter `f: Key -> Outcome`. A `Key` is the list of positional arguments.
- A decorated function is a chain of methods, one per wrapper layer. Its recursive calls go back to the outermost layer, just as the Python body calls the decorated name.
- Printing a line appends its text to `TraceState.log`. Beside it, the ghost sequence `TraceState.lines` records each printed line as a datatype (entry or return, with its depth). The invariant `TraceState.Valid()` ties the two together: `log == Texts(lines)`.
- Each traced function comes with a function that computes its exact trace:
  - `FibTrace`, `ParityTrace`, `QuicksortTrace` and `ChangeTrace` ("what the call prints").
  - `FibCalls`, `ParityCalls`, `QuicksortCalls` and `ChangeCalls` ("what its recursive calls print").
- Memoized variants are specified through these predicates over the log and the cache:
  - `Frame`: a call prints one entry line, then only deeper lines, then one return line.
  - `RaisedFrame`: the same for a call that raises, which prints no return line.
  - `AllEntries`: every cache entry holds the value of the plain algorithm for its key.
  - `Grows`: the cache only grows.
- `ChangeException`, which the search uses for backtracking, is the result `Unreachable` of the search.
- A memoized `change_mt` stores the exception as `Raised(ChangeException)` and raises it again on a hit.
- `Vector` elements are integers.
- The right operand of `+`, `+=`, `dot`, `==` and `!=` is an `Operand`: another Vector, or a plain sequence.
- Python's `<` on lists is `LexLess`, and `sort(reverse = True)` is `SortDesc`.

## Model

| member | source | states |
|---|---|---|
| Values.IntRepr | decorators.py:43 | Python 2's `repr` of an integer ends in `L` exactly when the value lies outside `-sys.maxint - 1 .. sys.maxint` |
| Values.Repr | decorators.py:28 | definition of `repr`: `None`, `True`/`False`, the integer's repr, and a list's bracketed joined reprs |
| Values.ReprArgs | decorators.py:28 | definition of `", ".join([repr(x) for x in args])` |
| Profiling.Profiled.constructor | decorators.py:4-7 | a new counter starts at 0 and wraps the given function |
| Profiling.Profiled.Call | decorators.py:8-10 | the counter rises by exactly one before delegating, so a call that raises is counted too; the outcome is `f`'s, unchanged |
| Profiling.Profiled.Count | decorators.py:11-12 | returns the current count |
| Profiling.Profiled.Reset | decorators.py:13-14 | sets the counter to 0 |
| Tracing.Indent | decorators.py:25-26 | `depth` copies of `"| "`, so `2 * depth` characters |
| Tracing.EntryLine | decorators.py:25-31 | definition of an entry line: indentation, `",- "`, the name and the joined reprs of the arguments |
| Tracing.ReturnLine | decorators.py:40-44 | definition of a return line: indentation, `"'- "` and the repr of the result |
| Tracing.EntryLineShape | decorators.py:25-31 | an entry line starts with exactly `depth` bar-and-space units followed by the marker `",- "` |
| Tracing.ReturnLineShape | decorators.py:41-44 | a return line starts with exactly `depth` bar-and-space units followed by the marker `"'- "` |
| Tracing.BuildEntryLine | decorators.py:25-31 | the string built by the loop is the indentation, `",- "`, the name and the `", "`-joined reprs of the arguments in parentheses |
| Tracing.BuildReturnLine | decorators.py:41-44 | the string built by the loop is the indentation, `"'- "` and the repr of the result |
| Tracing.Print | decorators.py:32 | one line is appended to standard output and nothing else changes |
| Tracing.TraceState.constructor | decorators.py:22 | the shared depth starts at 0 and nothing is printed |
| Tracing.Enter | decorators.py:25-33 | the entry line is printed at the current depth, then the depth rises by one |
| Tracing.ExitOk | decorators.py:40-45 | after a return the depth falls by one and the return line is printed at the restored depth |
| Tracing.ExitRaised | decorators.py:36-38 | after a raise the depth falls by one and nothing is printed |
| Tracing.Traced.constructor | decorators.py:18-23 | creating a tracer resets the shared depth to 0 and `fvalue` to None |
| Tracing.Traced.Call | decorators.py:24-46 | the outcome is `f`'s; the log gains the entry line, then the return line only when `f` returned; the depth is the same afterwards; `fvalue` keeps the last value returned |
| Memoization.Lookup | decorators.py:68-73 | definition: the outcome of the first entry whose key equals the arguments, None if there is none |
| Memoization.Find | decorators.py:68-73 | the scan over the partition returns the outcome of the first entry with an equal argument list, None if there is none |
| Memoization.LookupMiss | decorators.py:68-73 | the lookup misses exactly when no entry's key equals the arguments |
| Memoization.LookupFirst | decorators.py:68-72 | the first entry in insertion order with an equal key decides the answer |
| Memoization.LookupExtend | decorators.py:77-81 | appending entries never changes an answer the partition already gave |
| Memoization.LookupAppend | decorators.py:77-81 | after an entry is appended, its key is answered by it unless an earlier entry already answered; all other answers are unchanged, so a second equal call is served from the cache |
| Memoization.MemoTable.constructor | decorators.py:53 | the shared cache starts empty |
| Memoization.Memoized.constructor | decorators.py:54-57 | remembers the name, the function and the shared cache |
| Memoization.Recall | decorators.py:65-73 | a missing partition is created empty; every other partition is untouched; the answer is the first-match lookup |
| Memoization.Store | decorators.py:77 | exactly `(key, outcome)` is appended to the name's partition; all else is untouched |
| Memoization.RecallChecked | decorators.py:65-72 | on a hit the cache is unchanged and the cached outcome satisfies the cache's invariant for the key asked |
| Memoization.StoreChecked | decorators.py:77-81 | the new cache is the old one with the entry appended to that function's partition; the stored entry keeps the cache's invariant; the cache only grows; the key is answered from now on, by the stored outcome if it was a miss |
| Memoization.Memoized.Call | decorators.py:59-82 | a hit returns or re-raises the first matching cached outcome and leaves the cache as it was; a miss runs `f` once, appends `(args, outcome)` and passes the outcome on, value or exception; a cache that agrees with `f` keeps agreeing and makes the result `f`'s |
| Memoization.GrowsTrans | decorators.py:65-81 | growth of the cache composes over successive calls |
| Algorithms.Fib | decorators.py:110-114 | definition: `fib(x)` is 1 for `x <= 1`, otherwise `fib(x-1) + fib(x-2)` |
| Algorithms.Even | decorators.py:140-145 | definition: `even(0)` is True, otherwise `odd(n-1)` |
| Algorithms.Odd | decorators.py:147-152 | definition: `odd(0)` is False, otherwise `even(n-1)` |
| Algorithms.Below | decorators.py:159 | definition of `[x for x in s if x < p]`; no longer than `s` |
| Algorithms.AtLeast | decorators.py:160 | definition of `[x for x in s if x >= p]`; no longer than `s` |
| Algorithms.Quicksort | decorators.py:154-161 | definition: a list of at most one element is itself, otherwise the sorted left part, the pivot, the sorted right part |
| Algorithms.Change | decorators.py:176-188 | definition of the search: amount 0, empty list, a too large first coin, and the first coin tried before the rest |
| Algorithms.EvenOddParity | decorators.py:140-152 | for n >= 0, `even` holds exactly when n is even, and `odd` is its negation |
| Algorithms.SplitBounds | decorators.py:159-160 | the first comprehension keeps exactly the elements below the pivot, the second exactly those at least the pivot |
| Algorithms.SplitMultiset | decorators.py:159-160 | between them the two comprehensions hold every element of `l[1:]`, each once |
| Algorithms.SplitLength | decorators.py:159-160 | the two sides' lengths add up to the input's |
| Algorithms.QuicksortCorrect | decorators.py:155-161 | the result of quicksort is sorted ascending and a permutation of its input |
| Algorithms.QuicksortOfSorted | decorators.py:156-157 | a sorted list, in particular one of length at most 1, is returned unchanged |
| Algorithms.ChangeSound | decorators.py:177-188 | amount 0 gives `[]`; an empty list with a nonzero amount raises `ChangeException`; returned coins sum to the amount and are all denominations of `l` |
| Algorithms.ChangeComplete | decorators.py:177-188 | when any selection of denominations, with repetition, sums to the amount, the search returns coins: `ChangeException` escapes only when no selection exists |
| Algorithms.ChangeExampleFailures | decorators.py:101 | the branches of `change([9,7,5], 44)` that raise |
| Algorithms.ChangeExample | decorators.py:101 | `change([9,7,5], 44)` returns `[9, 9, 9, 7, 5, 5]` |
| Algorithms.ChangeOneOneFive | decorators.py:177-188 | denominations `[1, 1]` reach 5, as `[1, 1, 1, 1, 1]` |
| FibVariants.FibTraceLength | decorators.py:109-114 | tracing the plain recursion prints `4 * fib(x) - 2` lines |
| FibVariants.FibTraceFrame | decorators.py:109-114 | what `fib_t(x)` prints is one frame: entry line, deeper lines, return line with `fib(x)` |
| FibVariants.FibT | decorators.py:109-114 | `fib_t(x)` returns `fib(x)` and prints exactly `FibTrace`; the depth is restored |
| FibVariants.FibTBody | decorators.py:111-114 | the body's two recursive calls print their two traces one level down |
| FibVariants.FibMT | decorators.py:116-122 | `fib_mt(x)` returns `fib(x)` whenever every entry already in its cache partition holds the true value for its key; the cache only grows, keeps only true values and answers `x` afterwards; every call prints one frame, and a hit prints exactly its entry and return lines and leaves the cache as it was |
| FibVariants.FibMTMemo | decorators.py:116-122 | the memoizer under the tracer: a hit prints nothing and changes nothing |
| FibVariants.FibMTBody | decorators.py:118-122 | the body returns `fib(x)` and its calls print deeper than its tracer |
| FibVariants.FibTM | decorators.py:124-130 | `fib_tm(x)` returns `fib(x)`; a hit prints nothing and leaves the cache as it was; a miss prints one frame |
| FibVariants.FibTMTraced | decorators.py:124-130 | the tracer under the memoizer prints one frame |
| FibVariants.FibTMBody | decorators.py:126-130 | the body returns `fib(x)` and its calls print deeper than its tracer |
| FibVariants.FibMP | decorators.py:132-138 | `fib_mp(x)` returns `fib(x)`; the counter rises on every call; a hit raises it by exactly one and leaves the cache as it was; the run caches no argument other than `x` and those below it that the recursion reaches; from a cache holding none of the arguments up to `x`, the run makes exactly 2x - 1 calls for x >= 1 (one for x <= 1) and, for x >= 2, leaves every argument from 0 to `x` cached |
| FibVariants.FibMPMemo | decorators.py:132-138 | the memoizer under the counter: a hit makes no further call; a miss runs the body once, stores its answer, and adds one call fewer than `FibMP` |
| FibVariants.FibMPBody | decorators.py:134-138 | the body returns `fib(x)` and keeps the cache's invariant; it caches only arguments below `x`; from a cache holding none of the arguments up to `x` it makes 2x - 2 inner calls for x >= 2 and leaves `0 .. x - 1` cached |
| FibVariants.SecondCallCached | decorators.py:138 | after `fib_mp(x - 1)` from a cache holding none of `0 .. x`, the inner call `fib_mp(x - 2)` is a hit for x >= 3 and a miss for x == 2 |
| FibVariants.BodyCount | decorators.py:136-138 | the two inner calls together add 1 + FibMPCalls(x - 1) calls, which is 2x - 2, and leave `0 .. x - 1` cached |
| FibVariants.AddsTwo | decorators.py:138 | the two inner calls add only arguments below `x` to the cache |
| FibVariants.StoreCaches | decorators.py:77-81 | storing the answer for `x` caches `x` and no other argument |
| FibVariants.GrowsCached | decorators.py:65-81 | an argument the cache answers stays answered as the cache grows |
| Memoization.GrowsKeeps | decorators.py:65-81 | growth of the cache keeps every answer it already gave |
| ParityVariants.ParityStep | decorators.py:140-152 | each step down the mutual recursion keeps the answer |
| ParityVariants.ParityTraceChain | decorators.py:140-152 | `even_t(n)` prints `n + 1` nested entry lines, alternating the two names with the argument counting down to 0, then `n + 1` return lines of the answer |
| ParityVariants.EvenT | decorators.py:140-145 | `even_t(n)` returns whether n is even and prints exactly `ParityTrace` |
| ParityVariants.OddT | decorators.py:147-152 | `odd_t(n)` returns whether n is odd and prints exactly `ParityTrace` |
| QuicksortVariants.QuicksortTraceFrame | decorators.py:154-161 | what `quicksort_t(l)` prints is one frame |
| QuicksortVariants.QuicksortTraceLength | decorators.py:154-161 | sorting `l` prints between 2 and 4 times the length of `l` plus 2 lines |
| QuicksortVariants.QuicksortT | decorators.py:154-161 | `quicksort_t(l)` returns `l` itself when it has at most one element, and otherwise a sorted permutation of `l`; it prints exactly `QuicksortTrace` |
| QuicksortVariants.QuicksortTBody | decorators.py:155-161 | the body's two recursive calls print their two traces one level down |
| QuicksortVariants.QuicksortMT | decorators.py:163-171 | `quicksort_mt(l)` returns quicksort's result whenever every entry already in its cache partition holds the true result for its key; the cache only grows and answers `l` afterwards; every call prints one frame, and a hit prints exactly two lines |
| QuicksortVariants.QuicksortMTMemo | decorators.py:163-171 | the memoizer under the tracer: a hit prints nothing and changes nothing |
| QuicksortVariants.QuicksortMTBody | decorators.py:165-171 | the body returns quicksort's result and its calls print deeper than its tracer |
| ChangeVariants.ChangeOutcomeRoundTrip | decorators.py:70-72 | a cached outcome, returned list or raised `ChangeException`, reads back as the search result that produced it |
| ChangeVariants.ChangeTraceFrame | decorators.py:176-188 | what `change_t(l, a)` prints is a frame closed by a return line when coins are found, and an entry line with only deeper lines when it raises |
| ChangeVariants.TraceDeeper | decorators.py:176-188 | a recursive call's trace lies wholly deeper than its caller's |
| ChangeVariants.ChangeT | decorators.py:176-188 | `change_t(l, a)` returns the search result, `ChangeException` as `Unreachable`; it prints exactly `ChangeTrace`; the depth is restored on both paths |
| ChangeVariants.ChangeTBody | decorators.py:177-188 | the body tries the first denomination and, only when that raises, the rest; its calls print their traces one level down |
| ChangeVariants.ChangeMT | decorators.py:190-203 | `change_mt(l, a)` returns the search result whenever every entry already in its cache partition holds the true outcome for its key; the outcome, raised exceptions included, is cached; a hit prints the entry line, the return line only when the cached outcome is a value, and leaves the cache as it was |
| ChangeVariants.ChangeMTMemo | decorators.py:190-203 | the memoizer under the tracer replays a cached `ChangeException` as a raise |
| ChangeVariants.ChangeMTBody | decorators.py:192-203 | the body returns the search result and its calls print deeper than its tracer |
| Vectors.Vector.New | vector.py:23-30 | `Vector(n)` fails with ValueError "Vector length cannot be negative" exactly when `n < 0`; otherwise it has `n` zero elements and length `n` |
| Vectors.Vector.OfLength | vector.py:24-28 | the loop builds `n` zeros and sets the length to `n` |
| Vectors.Vector.OfSeq | vector.py:32-34 | `Vector(seq)` copies the sequence and its length |
| Vectors.Vector.Len | vector.py:42-44 | `len(v)` is the stored length, which equals the number of elements |
| Vectors.PairSums | vector.py:67-71 | the loop's list is the pairwise sums `xs[i] + ys[i]` |
| Vectors.Plus | vector.py:64-72 | element-wise sums, as long as the operands |
| Vectors.DotSpec | vector.py:135-143 | definition of the sum of pairwise products |
| Vectors.DotLoop | vector.py:138-142 | the loop's sum is the sum of the pairwise products |
| Vectors.Vector.Add | vector.py:64-72 | `Failure` "Length of both arguments must be the same" exactly when the lengths differ; otherwise a new Vector of the pairwise sums; neither operand changes |
| Vectors.Vector.RAdd | vector.py:87-95 | the same as `Add`, for a non-Vector left operand |
| Vectors.Vector.IAdd | vector.py:110-119 | on a length mismatch `Failure` and `self` unchanged; otherwise `self`'s elements become the pairwise sums and `self` is returned; the length never changes |
| Vectors.Vector.Dot | vector.py:135-143 | `Failure` exactly when the lengths differ, otherwise the sum of the pairwise products |
| Vectors.PlusComm | vector.py:64-95 | `v + w` and `w + v` have the same elements |
| Vectors.DotComm | vector.py:135-143 | the dot product is symmetric |
| Vectors.DotPlus | vector.py:64-72 | the dot product distributes over element-wise addition |
| Vectors.NormIndex | vector.py:160 | an index is valid exactly when `-n <= i < n`; a negative one counts from the end |
| Vectors.Vector.GetItem | vector.py:159-164 | an in-range index reads that element, counting from the end for a negative one; out of range gives None |
| Vectors.Vector.GetSlice | vector.py:159-160 | `v[start:stop]` holds, in order, exactly the elements at the positions Python's slice selects (`InSlice`), that is the clipped range `lo .. hi` |
| Vectors.ClipBound | vector.py:160 | a missing bound is the default; a bound in `0 .. n` is kept; one above `n` becomes `n`; one in `-n .. -1` counts from the end; one below `-n` becomes 0 |
| Vectors.SliceRange | vector.py:160 | the range starts at the clipped start and ends at the clipped stop, or at the start when the stop clips below it; `lo <= hi <= n` |
| Vectors.SliceRangeMeaning | vector.py:160 | a position lies in the clipped range exactly when Python's slice selects it: at or after the start and before the stop, negative bounds counting from the end |
| Vectors.SliceRangeExamples | vector.py:160 | `[-100:100]` and `[:]` cover the whole list; `[3:1]` is empty at 3; `[-1:]` is the last element; `[:-1]` all but the last |
| Vectors.Vector.SetItem | vector.py:182-194 | an in-range assignment changes that element only and returns `self`; an out-of-range one changes nothing; the length never changes |
| Vectors.Vector.SetSlice | vector.py:182-194 | a slice assignment that keeps the length replaces the covered elements; one that would change it raises ValueError "Cannot change length of Vector" and changes nothing |
| Vectors.Splice | vector.py:184-185 | definition of `s[lo:hi] = vals` on the copy: the elements before `lo`, then `vals`, then those from `hi` on |
| Vectors.SpliceLength | vector.py:184-187 | a slice assignment keeps the length exactly when it puts back as many elements as it covers |
| Vectors.SpliceOwnSlice | vector.py:184-189 | assigning a slice its own contents changes nothing |
| Vectors.SpliceRead | vector.py:184-189 | the assigned elements read back, and those outside the slice are unchanged |
| Vectors.ItemAtUpdate | vector.py:184-189 | after `v[i] = x`, `v[i]` reads `x` and every other position reads as before |
| Vectors.SortDesc | vector.py:243-246 | definition of `sort(reverse = True)` as insertion into a descending list |
| Vectors.LexLess | vector.py:247 | definition of Python's `<` on lists: a proper prefix is smaller, otherwise the first difference decides |
| Vectors.SortDescCorrect | vector.py:244 | `sort(reverse = True)` orders descending and keeps the elements |
| Vectors.SortDescSame | vector.py:243-247 | two sorted copies are equal exactly when the lists hold the same elements |
| Vectors.LexLessTrichotomy | vector.py:247 | list `<` is never both ways, never between equal lists, and always one way between different lists |
| Vectors.LexLessTrans | vector.py:247 | list `<` is transitive |
| Vectors.Vector.Eq | vector.py:196-211 | definition: the same elements in the same order against a Vector; False against a non-Vector |
| Vectors.Vector.Ne | vector.py:214-229 | definition: different element lists against a Vector; True against a non-Vector |
| Vectors.Vector.Gt | vector.py:231-247 | definition: the descending copies compare with `>` |
| Vectors.Vector.Lt | vector.py:251-267 | definition: the descending copies compare with `<` |
| Vectors.Vector.Ge | vector.py:271-292 | definition: equal descending copies, or `>` |
| Vectors.Vector.Le | vector.py:296-317 | definition: equal descending copies, or `<` |
| Vectors.NeIsNotEq | vector.py:209-229 | `!=` is the exact negation of `==`, which is False against any non-Vector |
| Vectors.GtIsFlippedLt | vector.py:241-267 | `a > b` exactly when `b < a` |
| Vectors.OrderIgnoresPermutation | vector.py:241-317 | permuting either Vector's elements changes no ordering comparison |
| Vectors.OrderTrichotomy | vector.py:241-267 | `<` and `>` never both hold; neither holds between Vectors with the same elements; one holds otherwise |
| Vectors.GeIsNotLt | vector.py:284-317 | `a >= b` is `not a < b`, and `a <= b` is `not a > b` |
| Vectors.GeAndLeIsSameElements | vector.py:284-317 | `a >= b` and `a <= b` both hold exactly when the Vectors have the same elements in some order; equal Vectors are such a pair |
| Vectors.GtTrans | vector.py:241-247 | `>` is transitive |

## Left out

- Printing to standard output is modelled as appending to a log. The error messages that `Vector` prints (vector.py:36, 162, 164, 192, 194) are not logged; the model represents them by their result (None, or unchanged state).
- The `run_examples` driver (decorators.py:86-107) is not modelled. `ChangeExample` states the result of its change-making run.
- Keyword arguments are not modelled; keys are positional arguments only. In `memoized` the tuple `args[:]` has no `append` (decorators.py:62-64), and `traced` prints no separator between the positional arguments and the keyword arguments (decorators.py:29-30).
- `traced.count()` and `traced.reset()` (decorators.py:47-50) are not modelled. `__init__` overwrites the method `count` with the integer depth, and `reset` would create an instance attribute hiding the shared depth. Only the shared depth is modelled; decorators.py:42 reads it through `self.count`.
- Binding `__name__` and the decorator syntax are not modelled. The partition name and the wrapped function are parameters.
- In Python, `isinstance(v, Exception)` tells a cached exception from a value. The model uses the `Outcome` datatype instead. The search's exception-driven backtracking becomes the `ChangeResult` datatype.
- Values.IntRepr: decides Python 2's `L` suffix by value, with the 64-bit platform's `sys.maxint`. A `long` whose value fits the platform word (such as the literal `5L`) prints without the suffix in the model, and a 32-bit platform's smaller bound is not modelled.
- Python's `True == 1` is not modelled: a boolean and an integer are different values.
- `change_t`/`change_mt` are modelled only for positive denominations. With a zero or negative denomination Python's behaviour depends on the input: `change(l, 0)` still returns `[]`, and some calls still raise `ChangeException` at decorators.py:182-183 (`change([0], -1)`, `change([-1], -2)`), but others never reach a base case. Those exceed Python's recursion limit and raise `RuntimeError`, which `except ChangeException` (decorators.py:186-187) does not catch.
- `even_t`/`odd_t` are modelled only for `n >= 0`. A negative argument never reaches 0, so Python raises `RuntimeError` once the recursion limit is exceeded.
- `quicksort_t`/`quicksort_mt` are modelled on lists of integers only. Python sorts lists of any mutually comparable values.
- Vector elements are integers. The `0.0` fill of `Vector(n)` (vector.py:28) is the integer 0, and floating point is not modelled.
- Vectors.Vector.SetSlice and Vectors.Vector.GetSlice: model slices with step 1 only. Extended slices are not modelled.
- `Vectors.Vector.SetItem` never returns the ValueError of vector.py:187. Assigning to one index cannot change the length, so that branch is unreachable there.
- The TypeError branches are not modelled: the wrong constructor argument (vector.py:35-36) and a non-integer index (vector.py:163-164, 193-194) only arise from dynamic typing.
- Comparing a Vector with a non-Vector through `super(...)` (vector.py:249, 269, 294, 319) is not modelled, because it uses Python 2's implementation-defined ordering of objects.
- `__repr__` and `__iter__` of `Vector` are not part of this model. Iteration is the element sequence `Elements`.
- misc.py is not part of this model beyond `Failure`, which is the error constructor `Failure(message)`.

## Notes on the source

- `change([1, 1], 5)` returns `[1, 1, 1, 1, 1]`: the search uses denominations with repetition (`Algorithms.ChangeOneOneFive`).
