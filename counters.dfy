/**
 * A Python `defaultdict(int)` used as a counter: keys keep the order in which
 * they were first incremented, and a missing key reads as 0.
 */
module Counters {

  datatype Entry = Entry(key: string, count: nat)

  type Counter = seq<Entry>

  /** No key is listed twice. */
  predicate WellFormed(c: Counter)
    decreases |c|
  {
    c == [] || (c[0].key !in KeySet(c[1..]) && WellFormed(c[1..]))
  }

  function KeySet(c: Counter): set<string>
    decreases |c|
  {
    if c == [] then {} else {c[0].key} + KeySet(c[1..])
  }

  /** `counter[key]` on a `defaultdict(int)` */
  function Get(c: Counter, key: string): nat
    decreases |c|
  {
    if c == [] then 0 else if c[0].key == key then c[0].count else Get(c[1..], key)
  }

  /** Sum of all counts. */
  function Total(c: Counter): nat
    decreases |c|
  {
    if c == [] then 0 else c[0].count + Total(c[1..])
  }

  /** `counter[key] += 1`: a new key is appended with count 1, an existing one is incremented in place. */
  function Inc(c: Counter, key: string): (r: Counter)
    ensures KeySet(r) == KeySet(c) + {key}
    decreases |c|
  {
    if c == [] then [Entry(key, 1)]
    else if c[0].key == key then [Entry(key, c[0].count + 1)] + c[1..]
    else [c[0]] + Inc(c[1..], key)
  }

  /** Incrementing changes the given key's count by one and no other count. */
  lemma {:induction false} IncGet(c: Counter, key: string, k: string)
    ensures Get(Inc(c, key), k) == Get(c, k) + (if k == key then 1 else 0)
    decreases |c|
  {
    if c != [] && c[0].key != key && c[0].key != k {
      IncGet(c[1..], key, k);
    }
  }

  /** Every increment adds exactly one to the sum of all counts. */
  lemma {:induction false} IncTotal(c: Counter, key: string)
    ensures Total(Inc(c, key)) == Total(c) + 1
    decreases |c|
  {
    if c != [] && c[0].key != key {
      IncTotal(c[1..], key);
    }
  }

  /** Keys stay listed once; a key seen for the first time goes to the end. */
  lemma {:induction false} IncWellFormed(c: Counter, key: string)
    requires WellFormed(c)
    ensures WellFormed(Inc(c, key))
    ensures key !in KeySet(c) ==> Inc(c, key) == c + [Entry(key, 1)]
    decreases |c|
  {
    if c != [] && c[0].key != key {
      IncWellFormed(c[1..], key);
      if key !in KeySet(c) {
        assert c == [c[0]] + c[1..];
      }
    }
  }
}
