# Customer purchases service — verified model

A Dafny model of the record-keeping core of the "Customer Purchases API"
(`fastapi/main.py`): an in-memory, append-only list of purchases with four
operations.

- **Single add** (`add_purchase`): appends one purchase and returns it.
- **Bulk upload** (`add_bulk_purchases`): rejects anything not declared
  `text/csv`, then parses and appends the CSV rows one at a time; the first
  row that fails aborts the upload, and the rows appended before it stay in
  the store. On success it reports how many were added.
- **Query** (`get_purchases`): optional country list (matched ignoring case),
  inclusive start date and inclusive end date, joined by AND, in store order.
- **KPIs** (`calculate_kpis`): over the whole store, the number of purchases
  per country and the mean of the per-customer spending totals; an empty store
  gives the message "no purchases available".

The store is a value (`seq<Purchase>`): an operation that changes it takes
the old store and returns the new one. Python dictionaries built by the KPI
loop are insertion-ordered association lists (`Tallies.Tally`), with
`defaultdict` semantics. Amounts are whole cents (`int`). Dates are
(year, month, day) triples ordered as Python orders `date` values.

Files: `options.dfy` (Option), `text.dfy` (ASCII lower-casing and case-insensitive equality), `seqs.dfy`
(order-preserving filter and its laws), `domain.dfy` (Date, Purchase,
Store), `store.dfy` (single add), `query.dfy` (query), `bulk.dfy` (bulk
upload), `tallies.dfy` (defaultdict tallies), `kpis.dfy` (KPI report).

The KPI endpoint takes no parameters: it always reports on the whole store,
and a caller's extra query parameters, such as the `kpi_option` sent in
fastapi/test_main.py:82, have no effect. On an empty store it returns the
error message `no purchases available` (fastapi/main.py:62-63).

## Model

| member | source | states |
|---|---|---|
| RecordStore.AddPurchase | fastapi/main.py:21-24 | the new store has exactly one more record, that record is the one given and comes last, every earlier record is unchanged, and the record is handed back unchanged |
| RecordStore.AddAllAppends | fastapi/main.py:13-24 | any run of single adds leaves the old records followed by the added ones in the order they were added: none lost, reordered or duplicated |
| Seqs.Filter | fastapi/main.py:53 | a list-comprehension filter returns only elements that satisfy the predicate, returns every element that satisfies it, and returns them as an order-preserving subsequence of the input |
| Seqs.FilterMultiplicity | fastapi/main.py:53 | the filter keeps every copy of a kept element and adds no copies, so duplicate records survive a query; with Filter's contract this fixes the result completely |
| Seqs.FilterFuse | fastapi/main.py:50-57 | applying one filter after another is the same as one filter by their conjunction, so the query's stages compose by AND |
| Text.Lower | fastapi/main.py:52-53 | the lower-cased string has the same length, contains no upper-case ASCII letter, and equals the input up to ASCII case |
| Text.LowerEqualIff | fastapi/main.py:52-53 | two strings lower-case to the same string exactly when they are equal up to ASCII case, so comparing lower-cased strings is case-insensitive comparison |
| Domain.OnOrBeforeIsTotalOrder | fastapi/main.py:55-57 | the date comparison used by the filters is reflexive, antisymmetric, transitive and total, like comparison of Python `date` values |
| Query.ByCountry | fastapi/main.py:51-53 | lower-casing the requested list and testing membership of the lower-cased country keeps exactly the records whose country equals some requested country up to ASCII case; with no list or an empty list every record is kept |
| Query.ByStart | fastapi/main.py:54-55 | a given start date keeps exactly the records dated on or after it (inclusive); without one every record is kept |
| Query.ByEnd | fastapi/main.py:56-57 | a given end date keeps exactly the records dated on or before it (inclusive); without one every record is kept |
| Query.StagesFuse | fastapi/main.py:50-57 | the country, start-date and end-date stages applied in turn equal one filter by the AND of the three conditions |
| Query.GetPurchases | fastapi/main.py:49-58 | the answer is the store's records that pass every active filter, in store order: every returned record matches, no matching record is dropped, the answer is a subsequence of the store, and with no active filter it is the whole store |
| Query.QueryAfterAdd | fastapi/main.py:21-58 | after adding a record, a query returns its earlier answer followed by the new record exactly when the new record matches the filters |
| Query.AddThenFetch | fastapi/test_main.py:15-25 | a record added on its own comes back field for field, last, from an unfiltered query, after the unchanged earlier records |
| Query.YearRangeQuery | fastapi/test_main.py:67-73 | with the range 2024-01-01 to 2024-12-31 a stored record dated on either end is returned and one dated 2023-12-31 or 2025-01-01 is not |
| BulkIngest.ParseRow | fastapi/main.py:36-41 | a row yields a purchase exactly when all four columns are present and its date and amount text parse; the purchase's fields are the row's name and country and the parsed date and amount |
| BulkIngest.ParsedPrefix | fastapi/main.py:34-45 | the committed purchases are those of the longest leading run of rows that parse, each the parse of its row, and the row just after the run (if any) fails to parse |
| BulkIngest.AddBulkPurchases | fastapi/main.py:27-46 | a non-CSV upload is refused and the store is unchanged; otherwise the store becomes the old store followed by the leading parsed rows, which is also what adding those purchases one request at a time gives; if every row parses the reply is the row count, else the reply names the first failing row and the rows before it remain committed |
| BulkIngest.RowsAfterFailureIgnored | fastapi/main.py:34-45 | once row k fails, rows after k do not affect the outcome: any upload agreeing on rows 0..k commits the same purchases and fails on the same row |
| Tallies.Add | fastapi/main.py:69-70 | `d[k] += v` on a defaultdict: key k is present afterwards, its value grows by v, no other key's value changes, the sum of values grows by v, keys stay distinct, and a new key goes at the end |
| Tallies.DistinctKeysCount | fastapi/main.py:72 | with distinct keys the number of entries equals the number of distinct keys, so `len(clients)` counts distinct customers |
| Kpis.Snoc | fastapi/main.py:68-70 | appending one record adds its country and customer to the key sets, raises the total by its amount, and changes only its own country's count (by 1) and its own customer's spending (by its amount) |
| Kpis.CountryCounts | fastapi/main.py:66-69 | one entry per country present in the store, each holding that country's number of purchases (not of customers), with the counts summing to the store size |
| Kpis.CustomerTotals | fastapi/main.py:65-70 | one entry per distinct customer name, each holding what that customer spent over the store, with the totals summing to the store's total amount |
| Kpis.CalculateKpis | fastapi/main.py:61-77 | the report is an error exactly when the store is empty, with the message "no purchases available"; otherwise the mean is the store's total amount divided by its number of distinct customers, and the country counts are as in CountryCounts |
| Kpis.WorkedExample | fastapi/main.py:62-72 | A spends 100.00 and 50.00 in `"USA"` and B spends 200.00 in `"FR"`: the mean per customer is 175.00 and the counts are USA 2, FR 1, in that order |

## Left out

- HTTP routing, reading and UTF-8 decoding of the upload, and CSV tokenising
  (fastapi/main.py:2-10, 26-32): an upload arrives as its declared content
  type and a list of rows, each a map from column name to cell text.
- Request validation of a single purchase (the 422 reply): the model's
  single add receives an already valid `Purchase`.
- `date.fromisoformat` and `float` are library code: they are the two
  parameters of `BulkIngest.FieldParsers`, each free to reject its text.
- BulkIngest.ParseRow: a short CSV row, whose missing cells Python's reader
  fills with `None`, is modelled as a row without those columns; both fail.
- BulkIngest.AddBulkPurchases: the error reply names the failing row but not
  the text of the exception raised for it.
- Text.Lower: lower-cases ASCII letters only, where Python's `str.lower`
  follows the Unicode case tables.
- Purchase amounts are whole cents and all sums and the mean are exact; the
  service uses floating point and may round.
- Kpis.CalculateKpis: the `else 0` branch of the mean is kept but cannot be
  reached, since the store is non-empty by then.
- Concurrent requests sharing the global list: each operation is modelled as
  one step on a store value.
- The dashboard client (streamlit/app.py) is not part of this model.
