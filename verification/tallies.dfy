/** A string-keyed tally of integers with Python `defaultdict(int)`
    behaviour: reading an absent key gives 0, adding to an absent key
    inserts it, and keys stay in first-insertion order. */
module Tallies {

  datatype Entry = Entry(key: string, value: int)

  type Tally = seq<Entry>

  function Keys(t: Tally): set<string>
  {
    if t == [] then {} else {t[0].key} + Keys(t[1..])
  }

  /** No key occurs twice, as in a dictionary. */
  predicate DistinctKeys(t: Tally)
  {
    t == [] || (t[0].key !in Keys(t[1..]) && DistinctKeys(t[1..]))
  }

  /** The value stored under `k`, or 0 when there is none. */
  function Get(t: Tally, k: string): int
  {
    if t == [] then 0 else if t[0].key == k then t[0].value else Get(t[1..], k)
  }

  /** The sum of all stored values. */
  function Total(t: Tally): int
  {
    if t == [] then 0 else t[0].value + Total(t[1..])
  }

  /** `t[k] += d` on a defaultdict. */
  function Add(t: Tally, k: string, d: int): (r: Tally)
    ensures Keys(r) == Keys(t) + {k}
    ensures DistinctKeys(t) ==> DistinctKeys(r)
    ensures forall k' :: Get(r, k') == Get(t, k') + (if k' == k then d else 0)
    ensures Total(r) == Total(t) + d
    ensures k in Keys(t) ==> |r| == |t|
    ensures k !in Keys(t) ==> r == t + [Entry(k, d)]
  {
    if t == [] then [Entry(k, d)]
    else if t[0].key == k then [Entry(k, t[0].value + d)] + t[1..]
    else
      var rest := Add(t[1..], k, d);
      assert ([t[0]] + rest)[1..] == rest;
      assert k !in Keys(t) ==> [t[0]] + (t[1..] + [Entry(k, d)]) == t + [Entry(k, d)];
      [t[0]] + rest
  }

  /** With distinct keys there is one key per entry, so `len(d)` of the
      dictionary is the number of distinct keys. */
  lemma {:induction false} DistinctKeysCount(t: Tally)
    requires DistinctKeys(t)
    ensures |Keys(t)| == |t|
  {
    if t != [] {
      DistinctKeysCount(t[1..]);
    }
  }

}
