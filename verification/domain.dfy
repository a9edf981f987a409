/** The purchase record and the in-memory store that holds them. */
module Domain {

  /** A calendar date. Python compares `date` values by year, then month,
      then day, which is the order `OnOrBefore` spells out. */
  datatype Date = Date(year: int, month: int, day: int)

  predicate OnOrBefore(a: Date, b: Date)
  {
    || a.year < b.year
    || (a.year == b.year && a.month < b.month)
    || (a.year == b.year && a.month == b.month && a.day <= b.day)
  }

  /** `OnOrBefore` is a total order on dates, as date comparison is. */
  lemma OnOrBeforeIsTotalOrder(a: Date, b: Date, c: Date)
    ensures OnOrBefore(a, a)
    ensures OnOrBefore(a, b) && OnOrBefore(b, a) ==> a == b
    ensures OnOrBefore(a, b) && OnOrBefore(b, c) ==> OnOrBefore(a, c)
    ensures OnOrBefore(a, b) || OnOrBefore(b, a)
  {
  }

  /** One purchase. The amount is a whole number of cents (the service keeps
      a float; see the README), and may be zero or negative: nothing rejects
      such amounts. */
  datatype Purchase = Purchase(customerName: string, country: string, purchaseDate: Date, amount: int)

  /** The process-wide list of purchases, in insertion order. */
  type Store = seq<Purchase>

}
