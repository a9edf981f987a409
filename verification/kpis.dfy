/** The KPI report over the whole store: purchases per country and the mean
    of the per-customer spending totals. */
module Kpis {
  import opened Domain
  import opened Seqs
  import opened Tallies

  function HasCountry(c: string): Purchase -> bool { (p: Purchase) => p.country == c }
  function HasCustomer(n: string): Purchase -> bool { (p: Purchase) => p.customerName == n }

  function Countries(s: seq<Purchase>): set<string>
  {
    set p | p in s :: p.country
  }

  function CustomerNames(s: seq<Purchase>): set<string>
  {
    set p | p in s :: p.customerName
  }

  function TotalAmount(s: seq<Purchase>): int
  {
    if s == [] then 0 else s[0].amount + TotalAmount(s[1..])
  }

  /** What customer `n` spent over all of `s`. */
  function SpentBy(s: seq<Purchase>, n: string): int
  {
    TotalAmount(Filter(s, HasCustomer(n)))
  }

  lemma {:induction false} TotalAmountAppend(a: seq<Purchase>, b: seq<Purchase>)
    ensures TotalAmount(a + b) == TotalAmount(a) + TotalAmount(b)
  {
    if a == [] {
      assert a + b == b;
    } else {
      assert (a + b)[1..] == a[1..] + b;
      TotalAmountAppend(a[1..], b);
    }
  }

  /** Appending one record to `s`: the sets of countries and names gain its
      fields, and only its own country's count and customer's spending move. */
  lemma Snoc(s: seq<Purchase>, p: Purchase)
    ensures Countries(s + [p]) == Countries(s) + {p.country}
    ensures CustomerNames(s + [p]) == CustomerNames(s) + {p.customerName}
    ensures TotalAmount(s + [p]) == TotalAmount(s) + p.amount
    ensures forall c :: |Filter(s + [p], HasCountry(c))| == |Filter(s, HasCountry(c))| + (if p.country == c then 1 else 0)
    ensures forall n :: SpentBy(s + [p], n) == SpentBy(s, n) + (if p.customerName == n then p.amount else 0)
  {
    assert [p][1..] == [];
    TotalAmountAppend(s, [p]);
    forall c
      ensures |Filter(s + [p], HasCountry(c))| == |Filter(s, HasCountry(c))| + (if p.country == c then 1 else 0)
    {
      FilterAppend(s, [p], HasCountry(c));
    }
    forall n
      ensures SpentBy(s + [p], n) == SpentBy(s, n) + (if p.customerName == n then p.amount else 0)
    {
      FilterAppend(s, [p], HasCustomer(n));
      TotalAmountAppend(Filter(s, HasCustomer(n)), Filter([p], HasCustomer(n)));
    }
  }

  /** `clients_per_country`: one increment per purchase, in store order.
      Each country's count is its number of purchases (not of customers), and
      the counts add up to the size of the store. */
  function CountryCounts(store: Store): (r: Tally)
    ensures DistinctKeys(r)
    ensures Keys(r) == Countries(store)
    ensures forall c :: Get(r, c) == |Filter(store, HasCountry(c))|
    ensures Total(r) == |store|
    decreases |store|
  {
    if store == [] then []
    else
      var init := store[..|store| - 1];
      var p := store[|store| - 1];
      assert store == init + [p];
      Snoc(init, p);
      Add(CountryCounts(init), p.country, 1)
  }

  /** `clients`: each customer's purchase amounts summed, in store order.
      One entry per distinct customer name, and the totals add up to the
      store's total amount. */
  function CustomerTotals(store: Store): (r: Tally)
    ensures DistinctKeys(r)
    ensures Keys(r) == CustomerNames(store)
    ensures forall n :: Get(r, n) == SpentBy(store, n)
    ensures Total(r) == TotalAmount(store)
    decreases |store|
  {
    if store == [] then []
    else
      var init := store[..|store| - 1];
      var p := store[|store| - 1];
      assert store == init + [p];
      Snoc(init, p);
      Add(CustomerTotals(init), p.customerName, p.amount)
  }

  datatype KpiReport =
    | Error(message: string)
    | Report(meanPurchasePerClient: real, clientsPerCountry: Tally)

  /** The KPI report. An empty store gives the "no purchases available"
      message; otherwise the mean is the store's total amount shared over its
      distinct customers, and the country counts are purchase counts. */
  function CalculateKpis(store: Store): (r: KpiReport)
    ensures r.Error? <==> store == []
    ensures r.Error? ==> r.message == "no purchases available"
    ensures r.Report? ==>
      && |CustomerNames(store)| > 0
      && r.meanPurchasePerClient == TotalAmount(store) as real / |CustomerNames(store)| as real
    ensures r.Report? ==>
      && DistinctKeys(r.clientsPerCountry)
      && Keys(r.clientsPerCountry) == Countries(store)
      && (forall c :: Get(r.clientsPerCountry, c) == |Filter(store, HasCountry(c))|)
      && Total(r.clientsPerCountry) == |store|
  {
    if store == [] then Error("no purchases available")
    else
      var clients := CustomerTotals(store);
      DistinctKeysCount(clients);
      assert store[0].customerName in CustomerNames(store);
      var mean := if |clients| > 0 then Total(clients) as real / |clients| as real else 0.0;
      Report(mean, CountryCounts(store))
  }

  /** Two purchases by A in the USA (100.00 and 50.00) and one by B in France
      (200.00), on any dates. */
  predicate IsExample(a: Purchase, b: Purchase, c: Purchase)
  {
    && a.customerName == "A" && a.country == "USA" && a.amount == 10000
    && b.customerName == "A" && b.country == "USA" && b.amount == 5000
    && c.customerName == "B" && c.country == "FR" && c.amount == 20000
  }

  /** The mean per customer is (150.00 + 200.00) / 2 = 175.00, not the mean
      per purchase; the countries are counted in first-seen order. */
  lemma WorkedExample(a: Purchase, b: Purchase, c: Purchase)
    requires IsExample(a, b, c)
    ensures CalculateKpis([a, b, c]) == Report(17500.0, [Entry("USA", 2), Entry("FR", 1)])
  {
    ExampleCounts(a, b, c);
    ExampleNames(a, b, c);
    ExampleTotal(a, b, c);
  }

  lemma ExampleCounts(a: Purchase, b: Purchase, c: Purchase)
    requires IsExample(a, b, c)
    ensures CountryCounts([a, b, c]) == [Entry("USA", 2), Entry("FR", 1)]
  {
    var store := [a, b, c];
    assert store[..2] == [a, b] && [a, b][..1] == [a] && [a][..0] == [];
  }

  lemma ExampleNames(a: Purchase, b: Purchase, c: Purchase)
    requires IsExample(a, b, c)
    ensures |CustomerNames([a, b, c])| == 2
  {
    var store := [a, b, c];
    assert a in store && c in store;
    assert CustomerNames(store) == {"A", "B"};
  }

  lemma ExampleTotal(a: Purchase, b: Purchase, c: Purchase)
    requires IsExample(a, b, c)
    ensures TotalAmount([a, b, c]) == 35000
  {
    assert [a, b, c][1..] == [b, c] && [b, c][1..] == [c] && [c][1..] == [];
    assert TotalAmount([c]) == 20000;
    assert TotalAmount([b, c]) == 25000;
  }

}
