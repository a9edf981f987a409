/** Bulk ingestion of a CSV upload: rows are parsed and appended one at a
    time, and the first row that fails to parse aborts the upload without
    undoing the rows already appended. */
module BulkIngest {
  import opened Options
  import opened Domain
  import RecordStore

  /** One CSV row as read under the header line: column name to cell text.
      A column the row lacks is simply not a key. */
  type Row = map<string, string>

  /** Reading a date in `YYYY-MM-DD` form and reading a number; both are
      library routines outside this model and may reject their input. */
  datatype FieldParsers = FieldParsers(date: string -> Option<Date>, amount: string -> Option<int>)

  predicate HasColumns(row: Row)
  {
    && "customer_name" in row
    && "country" in row
    && "purchase_date" in row
    && "amount" in row
  }

  /** Builds a purchase from the four named columns; fails when a column is
      missing or the date or amount text is rejected. */
  function ParseRow(row: Row, parsers: FieldParsers): (r: Option<Purchase>)
    ensures r.Some? <==>
      HasColumns(row) && parsers.date(row["purchase_date"]).Some? && parsers.amount(row["amount"]).Some?
    ensures r.Some? ==>
      && r.value.customerName == row["customer_name"]
      && r.value.country == row["country"]
      && parsers.date(row["purchase_date"]) == Some(r.value.purchaseDate)
      && parsers.amount(row["amount"]) == Some(r.value.amount)
  {
    if !HasColumns(row) then None
    else match (parsers.date(row["purchase_date"]), parsers.amount(row["amount"]))
      case (Some(d), Some(a)) => Some(Purchase(row["customer_name"], row["country"], d, a))
      case _ => None
  }

  /** The purchases of the longest run of rows, from the first, that all
      parse: these are what an upload commits. */
  function ParsedPrefix(rows: seq<Row>, parsers: FieldParsers): (r: seq<Purchase>)
    ensures |r| <= |rows|
    ensures forall i :: 0 <= i < |r| ==> ParseRow(rows[i], parsers) == Some(r[i])
    ensures |r| < |rows| ==> ParseRow(rows[|r|], parsers).None?
  {
    if rows == [] then []
    else match ParseRow(rows[0], parsers)
      case None => []
      case Some(p) => [p] + ParsedPrefix(rows[1..], parsers)
  }

  datatype BulkOutcome =
    | Added(count: nat)          // every row was appended
    | InvalidFileFormat          // the upload is not declared as `text/csv`
    | RowError(row: Row)         // this row failed; the rows before it stay appended

  /** Processes an upload against `store` and returns the store afterwards
      together with the reply. */
  method AddBulkPurchases(store: Store, contentType: string, rows: seq<Row>, parsers: FieldParsers)
    returns (stored: Store, outcome: BulkOutcome)
    ensures contentType != "text/csv" ==> stored == store && outcome == InvalidFileFormat
    ensures contentType == "text/csv" ==>
      var committed := ParsedPrefix(rows, parsers);
      && stored == store + committed
      && stored == RecordStore.AddAll(store, committed)
      && (|committed| == |rows| ==> outcome == Added(|rows|))
      && (|committed| < |rows| ==> outcome == RowError(rows[|committed|]))
  {
    if contentType != "text/csv" {
      return store, InvalidFileFormat;
    }
    ghost var committed := ParsedPrefix(rows, parsers);
    stored := store;
    var added: seq<Purchase> := [];
    var i := 0;
    while i < |rows|
      invariant 0 <= i <= |committed|
      invariant added == committed[..i]
      invariant stored == store + added
    {
      match ParseRow(rows[i], parsers) {
        case None =>
          assert i == |committed|;
          assert added == committed;
          RecordStore.AddAllAppends(store, committed);
          return stored, RowError(rows[i]);
        case Some(p) =>
          assert i < |committed| && committed[i] == p;
          assert committed[..i + 1] == committed[..i] + [p];
          stored := stored + [p];
          added := added + [p];
          i := i + 1;
      }
    }
    assert added == committed;
    RecordStore.AddAllAppends(store, committed);
    outcome := Added(|added|);
  }

  /** Once row `k` fails, nothing after it matters: any upload that agrees
      on rows 0..k commits the same purchases and fails on the same row. */
  lemma {:induction false} RowsAfterFailureIgnored(rows: seq<Row>, other: seq<Row>, parsers: FieldParsers)
    requires |ParsedPrefix(rows, parsers)| < |rows|
    requires |ParsedPrefix(rows, parsers)| < |other|
    requires rows[..|ParsedPrefix(rows, parsers)| + 1] == other[..|ParsedPrefix(rows, parsers)| + 1]
    ensures ParsedPrefix(other, parsers) == ParsedPrefix(rows, parsers)
    ensures other[|ParsedPrefix(other, parsers)|] == rows[|ParsedPrefix(rows, parsers)|]
  {
    var k := |ParsedPrefix(rows, parsers)|;
    assert rows[0] == other[0] by { assert rows[..k + 1][0] == other[..k + 1][0]; }
    if k > 0 {
      assert rows[1..][..k] == other[1..][..k] by {
        assert rows[1..][..k] == rows[..k + 1][1..];
        assert other[1..][..k] == other[..k + 1][1..];
      }
      RowsAfterFailureIgnored(rows[1..], other[1..], parsers);
    }
  }

}
