/** Appending single purchases to the store. */
module RecordStore {
  import opened Domain

  /** Appends `p` at the end of the store and hands the record back. */
  function AddPurchase(store: Store, p: Purchase): (r: (Store, Purchase))
    ensures |r.0| == |store| + 1
    ensures r.0[..|store|] == store
    ensures r.0[|store|] == p
    ensures r.1 == p
  {
    (store + [p], p)
  }

  /** The store after adding each of `ps` in turn, one request per record. */
  function AddAll(store: Store, ps: seq<Purchase>): Store
    decreases |ps|
  {
    if ps == [] then store else AddAll(AddPurchase(store, ps[0]).0, ps[1..])
  }

  /** Any run of single adds leaves exactly the added records after the old
      ones, in the order they were added: none lost, reordered or doubled. */
  lemma {:induction false} AddAllAppends(store: Store, ps: seq<Purchase>)
    ensures AddAll(store, ps) == store + ps
    decreases |ps|
  {
    if ps != [] {
      AddAllAppends(store + [ps[0]], ps[1..]);
      assert store + [ps[0]] + ps[1..] == store + ps;
    }
  }

}
