/** The purchase query: optional country, start-date and end-date filters,
    joined by AND, applied to the store in insertion order. */
module Query {
  import opened Options
  import opened Domain
  import opened Text
  import opened Seqs
  import RecordStore

  /** The query parameters. `countries` is absent when the caller gives
      none; an empty list is accepted too and behaves the same way. */
  datatype Filters = Filters(countries: Option<seq<string>>, startDate: Option<Date>, endDate: Option<Date>)

  /** Python's `if countries:` is false both for no list and for an empty one. */
  predicate CountryFilterActive(f: Filters)
  {
    f.countries.Some? && |f.countries.value| > 0
  }

  predicate IsUnfiltered(f: Filters)
  {
    !CountryFilterActive(f) && f.startDate.None? && f.endDate.None?
  }

  // The meaning of each filter, stated directly on one record.

  /** Some requested country equals the record's country up to ASCII case. */
  predicate CountryMatches(f: Filters, p: Purchase)
  {
    !CountryFilterActive(f)
    || exists i :: 0 <= i < |f.countries.value| && EqualIgnoringCase(f.countries.value[i], p.country)
  }

  predicate StartMatches(f: Filters, p: Purchase)
  {
    f.startDate.None? || OnOrBefore(f.startDate.value, p.purchaseDate)
  }

  predicate EndMatches(f: Filters, p: Purchase)
  {
    f.endDate.None? || OnOrBefore(p.purchaseDate, f.endDate.value)
  }

  /** A record is returned exactly when it passes every active filter. */
  predicate Matches(f: Filters, p: Purchase)
  {
    CountryMatches(f, p) && StartMatches(f, p) && EndMatches(f, p)
  }

  function CountryPred(f: Filters): Purchase -> bool { (p: Purchase) => CountryMatches(f, p) }
  function StartPred(f: Filters): Purchase -> bool { (p: Purchase) => StartMatches(f, p) }
  function EndPred(f: Filters): Purchase -> bool { (p: Purchase) => EndMatches(f, p) }
  function MatchPred(f: Filters): Purchase -> bool { (p: Purchase) => Matches(f, p) }

  // The filters as the service applies them.

  /** Membership of the lower-cased country in an already lower-cased list. */
  function CountryIn(lowered: seq<string>): Purchase -> bool
  {
    (p: Purchase) => Lower(p.country) in lowered
  }

  function OnOrAfterDate(d: Date): Purchase -> bool
  {
    (p: Purchase) => OnOrBefore(d, p.purchaseDate)
  }

  function OnOrBeforeDate(d: Date): Purchase -> bool
  {
    (p: Purchase) => OnOrBefore(p.purchaseDate, d)
  }

  /** The country stage: lower-case the requested list once, then keep the
      records whose lower-cased country is in it. */
  function ByCountry(s: seq<Purchase>, f: Filters): (r: seq<Purchase>)
    ensures r == Filter(s, CountryPred(f))
  {
    if CountryFilterActive(f) then
      var cs := f.countries.value;
      var lowered := seq(|cs|, i requires 0 <= i < |cs| => Lower(cs[i]));
      assert forall p :: p in s ==> CountryIn(lowered)(p) == CountryPred(f)(p) by {
        forall p | p in s
          ensures CountryIn(lowered)(p) == CountryPred(f)(p)
        {
          if Lower(p.country) in lowered {
            var i :| 0 <= i < |lowered| && lowered[i] == Lower(p.country);
            LowerEqualIff(cs[i], p.country);
          }
          if CountryMatches(f, p) {
            var i :| 0 <= i < |cs| && EqualIgnoringCase(cs[i], p.country);
            LowerEqualIff(cs[i], p.country);
            assert lowered[i] == Lower(p.country);
          }
        }
      }
      FilterCongruent(s, CountryIn(lowered), CountryPred(f));
      Filter(s, CountryIn(lowered))
    else
      FilterKeepsAll(s, CountryPred(f));
      s
  }

  /** The start-date stage: an inclusive lower bound. */
  function ByStart(s: seq<Purchase>, f: Filters): (r: seq<Purchase>)
    ensures r == Filter(s, StartPred(f))
  {
    if f.startDate.Some? then
      FilterCongruent(s, OnOrAfterDate(f.startDate.value), StartPred(f));
      Filter(s, OnOrAfterDate(f.startDate.value))
    else
      FilterKeepsAll(s, StartPred(f));
      s
  }

  /** The end-date stage: an inclusive upper bound. */
  function ByEnd(s: seq<Purchase>, f: Filters): (r: seq<Purchase>)
    ensures r == Filter(s, EndPred(f))
  {
    if f.endDate.Some? then
      FilterCongruent(s, OnOrBeforeDate(f.endDate.value), EndPred(f));
      Filter(s, OnOrBeforeDate(f.endDate.value))
    else
      FilterKeepsAll(s, EndPred(f));
      s
  }

  /** The query: the three stages in turn. The result is the store's
      matching records in store order, and nothing else; with no active
      filter it is the whole store. The store itself is a value and is
      left as it was. */
  function GetPurchases(store: Store, f: Filters): (r: seq<Purchase>)
    ensures r == Filter(store, MatchPred(f))
    ensures forall i :: 0 <= i < |r| ==> r[i] in store && Matches(f, r[i])
    ensures forall i :: 0 <= i < |store| && Matches(f, store[i]) ==> store[i] in r
    ensures IsSubsequence(r, store)
    ensures IsUnfiltered(f) ==> r == store
  {
    StagesFuse(store, f);
    var r := ByEnd(ByStart(ByCountry(store, f), f), f);
    assert forall x :: MatchPred(f)(x) == Matches(f, x);
    r
  }

  /** The three stages in turn are one filter by the conjunction. */
  lemma StagesFuse(store: Store, f: Filters)
    ensures ByEnd(ByStart(ByCountry(store, f), f), f) == Filter(store, MatchPred(f))
  {
    FilterFuse(store, CountryPred(f), StartPred(f));
    FilterFuse(store, Both(CountryPred(f), StartPred(f)), EndPred(f));
    FilterCongruent(store, Both(Both(CountryPred(f), StartPred(f)), EndPred(f)), MatchPred(f));
  }

  /** Adding a purchase and then querying gives the earlier answer, followed
      by the new record exactly when it matches. */
  lemma QueryAfterAdd(store: Store, p: Purchase, f: Filters)
    ensures GetPurchases(RecordStore.AddPurchase(store, p).0, f)
         == GetPurchases(store, f) + (if Matches(f, p) then [p] else [])
  {
    FilterAppend(store, [p], MatchPred(f));
    assert [p][1..] == [];
    assert Filter([p], MatchPred(f)) == (if Matches(f, p) then [p] else []);
  }

  /** A record added on its own comes back, field for field, at the end of
      an unfiltered query. */
  lemma AddThenFetch(store: Store, p: Purchase, f: Filters)
    requires IsUnfiltered(f)
    ensures var all := GetPurchases(RecordStore.AddPurchase(store, p).0, f);
      |all| == |store| + 1 && all[..|store|] == store && all[|store|] == p
  {
  }

  /** The whole of 2024: records dated on the first or last day are kept,
      and the day before and the day after are excluded. */
  lemma YearRangeQuery(store: Store, p: Purchase)
    requires p in store
    ensures var f := Filters(None, Some(Date(2024, 1, 1)), Some(Date(2024, 12, 31)));
      && (p.purchaseDate in {Date(2024, 1, 1), Date(2024, 12, 31)} ==> p in GetPurchases(store, f))
      && (p.purchaseDate in {Date(2023, 12, 31), Date(2025, 1, 1)} ==> p !in GetPurchases(store, f))
  {
    var f := Filters(None, Some(Date(2024, 1, 1)), Some(Date(2024, 12, 31)));
    var i :| 0 <= i < |store| && store[i] == p;
    if p.purchaseDate in {Date(2024, 1, 1), Date(2024, 12, 31)} {
      assert Matches(f, store[i]);
    }
  }

}
