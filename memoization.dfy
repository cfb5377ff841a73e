/** The memoizing cache `memoized` (decorators.py:52-82). */
module Memoization {
  import opened Values

  /** One cache entry: an argument list and what the call produced. */
  type Entry = (Key, Outcome)

  /** The answer a partition gives for `key`: the outcome of its first entry
      with an equal argument list, in insertion order. */
  function Lookup(p: seq<Entry>, key: Key): (r: Option<Outcome>)
  {
    if |p| == 0 then None
    else if p[0].0 == key then Some(p[0].1)
    else Lookup(p[1..], key)
  }

  /** A partition has no answer exactly when no entry's key is equal. */
  lemma {:induction false} LookupMiss(p: seq<Entry>, key: Key)
    ensures Lookup(p, key).None? <==> forall k :: 0 <= k < |p| ==> p[k].0 != key
  {
    if |p| > 0 {
      LookupMiss(p[1..], key);
      assert forall k :: 1 <= k < |p| ==> p[k] == p[1..][k - 1];
    }
  }

  /** The first entry with an equal key decides the answer. */
  lemma {:induction false} LookupFirst(p: seq<Entry>, key: Key, k: nat)
    requires k < |p| && p[k].0 == key
    requires forall j :: 0 <= j < k ==> p[j].0 != key
    ensures Lookup(p, key) == Some(p[k].1)
  {
    if k > 0 {
      assert p[1..][k - 1] == p[k];
      LookupFirst(p[1..], key, k - 1);
    }
  }

  /** Appending never changes an answer the partition already gave. */
  lemma {:induction false} LookupExtend(p: seq<Entry>, q: seq<Entry>, key: Key)
    requires Lookup(p, key).Some?
    ensures Lookup(p + q, key) == Lookup(p, key)
  {
    assert (p + q)[0] == p[0];
    if p[0].0 != key {
      assert (p + q)[1..] == p[1..] + q;
      LookupExtend(p[1..], q, key);
    }
  }

  /** Appending an entry changes no answer already given, and answers the
      entry's own key if nothing did before: a miss that is stored is
      served from the cache the next time. */
  lemma {:induction false} LookupAppend(p: seq<Entry>, e: Entry, key: Key)
    ensures Lookup(p + [e], key)
         == if Lookup(p, key).Some? then Lookup(p, key)
            else if e.0 == key then Some(e.1)
            else None
  {
    if |p| == 0 {
      assert p + [e] == [e];
    } else {
      assert (p + [e])[0] == p[0];
      assert (p + [e])[1..] == p[1..] + [e];
      LookupAppend(p[1..], e, key);
    }
  }

  /** The scan of decorators.py:68-73. */
  method Find(p: seq<Entry>, key: Key) returns (r: Option<Outcome>)
    ensures r == Lookup(p, key)
  {
    var i := 0;
    while i < |p|
      invariant 0 <= i <= |p|
      invariant Lookup(p, key) == Lookup(p[i..], key)
    {
      if p[i].0 == key {
        return Some(p[i].1);
      }
      assert p[i..][1..] == p[i + 1..];
      i := i + 1;
    }
    return None;
  }

  /** Every entry of `name`'s partition satisfies `ok`. */
  predicate AllEntries(d: map<string, seq<Entry>>, name: string, ok: Entry -> bool)
  {
    name in d ==> forall k :: 0 <= k < |d[name]| ==> ok(d[name][k])
  }

  /** An answer of a partition whose entries all satisfy `ok` satisfies `ok`
      together with the key asked for. */
  lemma {:induction false} LookupSatisfies(p: seq<Entry>, key: Key, ok: Entry -> bool)
    requires forall k :: 0 <= k < |p| ==> ok(p[k])
    ensures Lookup(p, key).Some? ==> ok((key, Lookup(p, key).value))
  {
    if |p| > 0 {
      if p[0].0 == key {
        assert p[0] == (key, p[0].1);
      } else {
        assert forall k :: 0 <= k < |p| - 1 ==> p[1..][k] == p[k + 1];
        LookupSatisfies(p[1..], key, ok);
      }
    }
  }

  /** Every entry of `name`'s partition holds what `ref` gives for its key:
      the cache agrees with the function it stands for. */
  predicate Faithful(d: map<string, seq<Entry>>, name: string, ref: Key -> Outcome)
  {
    AllEntries(d, name, (e: Entry) => e.1 == ref(e.0))
  }

  /** `name`'s current partition; an absent one reads as empty. */
  function PartitionOf(d: map<string, seq<Entry>>, name: string): (r: seq<Entry>)
  {
    if name in d then d[name] else []
  }

  /** The cache may only grow: `name`'s partition is present and extends
      what it was, every other partition is untouched. */
  ghost predicate Grows(d0: map<string, seq<Entry>>, d1: map<string, seq<Entry>>, name: string)
  {
    && d1.Keys == d0.Keys + {name}
    && (forall n :: n in d0 && n != name ==> d1[n] == d0[n])
    && PartitionOf(d0, name) <= d1[name]
  }

  lemma GrowsTrans(d0: map<string, seq<Entry>>, d1: map<string, seq<Entry>>,
                   d2: map<string, seq<Entry>>, name: string)
    requires Grows(d0, d1, name) && Grows(d1, d2, name)
    ensures Grows(d0, d2, name)
  {
  }

  /** Growth keeps every answer the cache already gave. */
  lemma GrowsKeeps(d0: map<string, seq<Entry>>, d1: map<string, seq<Entry>>, name: string, key: Key)
    requires Grows(d0, d1, name) && Lookup(PartitionOf(d0, name), key).Some?
    ensures Lookup(PartitionOf(d1, name), key) == Lookup(PartitionOf(d0, name), key)
  {
    var p := PartitionOf(d0, name);
    assert p + d1[name][|p|..] == d1[name];
    LookupExtend(p, d1[name][|p|..], key);
  }

  /** The class attribute `memoized.d`, shared by every memoizer: function
      name to its partition. */
  class MemoTable {
    var d: map<string, seq<Entry>>

    constructor ()
      ensures d == map[]
    {
      d := map[];
    }
  }

  /** Creates `name`'s partition when absent and looks `key` up in it
      (decorators.py:65-73). */
  method Recall(t: MemoTable, name: string, key: Key) returns (hit: Option<Outcome>)
    modifies t
    ensures t.d == old(t.d)[name := PartitionOf(old(t.d), name)]
    ensures hit == Lookup(t.d[name], key)
  {
    if name !in t.d {
      t.d := t.d[name := []];
    }
    hit := Find(t.d[name], key);
  }

  /** Appends `(key, o)` to `name`'s partition (decorators.py:77, 80-81). */
  method Store(t: MemoTable, name: string, key: Key, o: Outcome)
    requires name in t.d
    modifies t
    ensures t.d == old(t.d)[name := old(t.d[name]) + [(key, o)]]
  {
    t.d := t.d[name := t.d[name] + [(key, o)]];
  }

  /** `Recall` for a partition whose entries all satisfy `ok`: a hit
      satisfies `ok` for the key asked for and leaves the cache as it was. */
  method RecallChecked(t: MemoTable, name: string, key: Key, ghost ok: Entry -> bool)
    returns (hit: Option<Outcome>)
    requires AllEntries(t.d, name, ok)
    modifies t
    ensures AllEntries(t.d, name, ok) && Grows(old(t.d), t.d, name)
    ensures t.d[name] == PartitionOf(old(t.d), name)
    ensures hit == Lookup(t.d[name], key)
    ensures hit.Some? ==> ok((key, hit.value)) && t.d == old(t.d)
  {
    hit := Recall(t, name, key);
    LookupSatisfies(t.d[name], key, ok);
    if hit.Some? {
      assert name in old(t.d);
    }
  }

  /** `Store` of an entry that satisfies `ok`: the partition keeps
      satisfying `ok`, and now answers `key` with an outcome that does. */
  method StoreChecked(t: MemoTable, name: string, key: Key, o: Outcome, ghost ok: Entry -> bool)
    requires name in t.d && AllEntries(t.d, name, ok) && ok((key, o))
    modifies t
    ensures t.d == old(t.d)[name := old(t.d[name]) + [(key, o)]]
    ensures AllEntries(t.d, name, ok) && Grows(old(t.d), t.d, name)
    ensures Lookup(t.d[name], key).Some? && ok((key, Lookup(t.d[name], key).value))
    ensures Lookup(old(t.d[name]), key).None? ==> Lookup(t.d[name], key) == Some(o)
  {
    LookupSatisfies(t.d[name], key, ok);
    LookupAppend(t.d[name], (key, o), key);
    Store(t, name, key, o);
  }

  /** A memoizer around `f`, keyed in the shared table by `name`. */
  class Memoized {
    const name: string
    const f: Key -> Outcome
    const table: MemoTable

    constructor (name: string, f: Key -> Outcome, table: MemoTable)
      ensures this.name == name && this.f == f && this.table == table
    {
      this.name := name;
      this.f := f;
      this.table := table;
    }

    /** A hit replays the cached outcome, value or exception, and leaves the
        cache as it was; a miss runs `f` once and appends its outcome. */
    method Call(args: Key) returns (o: Outcome)
      modifies table
      ensures var before := PartitionOf(old(table.d), name);
        match Lookup(before, args)
        case Some(cached) => o == cached && table.d == old(table.d)[name := before]
        case None => o == f(args) && table.d == old(table.d)[name := before + [(args, o)]]
      ensures Faithful(old(table.d), name, f) ==> o == f(args) && Faithful(table.d, name, f)
    {
      var hit := Recall(table, name, args);
      if hit.Some? {
        o := hit.value;
        if Faithful(old(table.d), name, f) {
          LookupSatisfies(PartitionOf(old(table.d), name), args, (e: Entry) => e.1 == f(e.0));
        }
      } else {
        o := f(args);
        Store(table, name, args, o);
      }
    }
  }
}
