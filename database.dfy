/**
 * The SQLite store of database.py: one table `invoices` with an
 * AUTOINCREMENT id, a UNIQUE invoice_no and a created_at timestamp, and the
 * four operations the application performs on it.
 *
 * `Store` is the content of the database file as a value; the functions on
 * it say what each operation does and the lemmas what it guarantees.
 * `InvoiceDb` is the same table as an object whose methods update it in
 * place, each proved to agree with its function.
 */
module Database {
  import opened Wrappers
  import opened Structurer

  /** A row of `invoices`. `createdAt` is the insertion time on the logical
      clock. */
  datatype Row = Row(
    id: nat,
    storeName: string,
    invoiceNo: string,
    date: string,
    total: string,
    rawText: string,
    filePath: string,
    createdAt: nat)

  /** The four columns `fetch_all_invoices` selects. */
  datatype Summary = Summary(storeName: string, invoiceNo: string, date: string, total: string)

  /** The SQLite errors the operations can raise: the table is missing, or
      an insert breaks the UNIQUE constraint on invoice_no. */
  datatype DbError = NoSuchTable | UniqueViolation

  /** Whether the table exists, its rows in insertion order, the id
      AUTOINCREMENT hands out next and the time of the latest insert. */
  datatype Store = Store(tableExists: bool, rows: seq<Row>, nextId: nat, clock: nat)

  /** A database file in which the table was never created. */
  const NoTable: Store := Store(false, [], 1, 0)

  function Project(r: Row): Summary {
    Summary(r.storeName, r.invoiceNo, r.date, r.total)
  }

  /** `WHERE invoice_no = ?`: TEXT compared with the BINARY collation, that
      is, exact equality. */
  predicate HasKey(rows: seq<Row>, k: string) {
    exists a :: 0 <= a < |rows| && rows[a].invoiceNo == k
  }

  ghost predicate UniqueKeys(rows: seq<Row>) {
    forall a, b :: 0 <= a < b < |rows| ==> rows[a].invoiceNo != rows[b].invoiceNo
  }

  /** The invariant every operation keeps: no rows without a table, no two
      rows with the same invoice_no, ids from 1 increasing in insertion order
      and below the next id, and insertion times non-decreasing up to the
      clock. */
  ghost predicate Valid(s: Store) {
    && (!s.tableExists ==> s.rows == [])
    && UniqueKeys(s.rows)
    && s.nextId >= 1
    && (forall a :: 0 <= a < |s.rows| ==> 1 <= s.rows[a].id < s.nextId)
    && (forall a, b :: 0 <= a < b < |s.rows| ==> s.rows[a].id < s.rows[b].id)
    && (forall a, b :: 0 <= a < b < |s.rows| ==> s.rows[a].createdAt <= s.rows[b].createdAt)
    && (forall a :: 0 <= a < |s.rows| ==> s.rows[a].createdAt <= s.clock)
  }

  // ---------------------------------------------------------------------
  // The operations on the value
  // ---------------------------------------------------------------------

  /** `CREATE TABLE IF NOT EXISTS invoices (...)`. */
  function WithTable(s: Store): (r: Store)
    ensures r.tableExists && r.rows == s.rows && r.nextId == s.nextId && r.clock == s.clock
  {
    s.(tableExists := true)
  }

  /** `SELECT 1 FROM invoices WHERE invoice_no = ?` and whether a row came
      back. */
  function InvoiceExists(s: Store, k: string): (r: Result<bool, DbError>)
    ensures r.Err? <==> !s.tableExists
    ensures r.Err? ==> r.error == NoSuchTable
    ensures r == Ok(true) <==> s.tableExists && exists a :: 0 <= a < |s.rows| && s.rows[a].invoiceNo == k
  {
    if !s.tableExists then Err(NoSuchTable) else Ok(HasKey(s.rows, k))
  }

  /** What an insert reports and the store after it. */
  datatype SaveResult = SaveResult(outcome: Outcome<DbError>, store: Store)

  /** `INSERT INTO invoices (store_name, invoice_no, date, total, raw_text,
      file_path) VALUES (...)`, `elapsed` time units after the latest insert. */
  function Insert(s: Store, data: InvoiceFields, ocrText: string, filePath: string, elapsed: nat): (r: SaveResult)
    ensures r.outcome == Pass <==>
              s.tableExists && forall a :: 0 <= a < |s.rows| ==> s.rows[a].invoiceNo != data.invoiceNo
    ensures r.outcome.Fail? ==> r.store == s
    ensures r.outcome == Pass ==> && |r.store.rows| == |s.rows| + 1 && r.store.rows[..|s.rows|] == s.rows
                                  && r.store.rows[|s.rows|].invoiceNo == data.invoiceNo
  {
    if !s.tableExists then SaveResult(Fail(NoSuchTable), s)
    else if HasKey(s.rows, data.invoiceNo) then SaveResult(Fail(UniqueViolation), s)
    else
      var now := s.clock + elapsed;
      var row := Row(s.nextId, data.storeName, data.invoiceNo, data.date, data.total, ocrText, filePath, now);
      assert (s.rows + [row])[..|s.rows|] == s.rows;
      SaveResult(Pass, Store(true, s.rows + [row], s.nextId + 1, now))
  }

  /** `perm` is a rearrangement of the indices `0 .. n-1`. */
  ghost predicate IsPermutation(perm: seq<int>, n: nat) {
    && |perm| == n
    && (forall k :: 0 <= k < n ==> 0 <= perm[k] < n)
    && (forall k, l :: 0 <= k < l < n ==> perm[k] != perm[l])
    && (forall a :: 0 <= a < n ==> a in perm)
  }

  /** `listing` is `SELECT store_name, invoice_no, date, total ... ORDER BY
      created_at DESC`: one projection per row, newest first; rows inserted
      at the same time may come in any order. */
  ghost predicate IsListing(rows: seq<Row>, listing: seq<Summary>) {
    exists perm :: IsPermutation(perm, |rows|)
      && |listing| == |rows|
      && (forall k :: 0 <= k < |listing| ==> listing[k] == Project(rows[perm[k]]))
      && (forall k :: 0 < k < |listing| ==> rows[perm[k - 1]].createdAt >= rows[perm[k]].createdAt)
  }

  /** The projections newest insert first: one of the orders the query may
      return, since insertion times never decrease. */
  function NewestFirst(rows: seq<Row>): (r: seq<Summary>)
    ensures |r| == |rows|
    ensures forall k :: 0 <= k < |r| ==> r[k] == Project(rows[|rows| - 1 - k])
    ensures (forall a, b :: 0 <= a < b < |rows| ==> rows[a].createdAt <= rows[b].createdAt)
            ==> IsListing(rows, r)
  {
    var r := seq(|rows|, k requires 0 <= k < |rows| => Project(rows[|rows| - 1 - k]));
    NewestFirstIsListing(rows, r);
    r
  }

  /** `fetch_all_invoices`: the newest-first listing of the table. */
  function Listing(s: Store): (r: Result<seq<Summary>, DbError>)
    ensures !s.tableExists ==> r == Err(NoSuchTable)
    ensures s.tableExists && Valid(s) ==> r.Ok? && IsListing(s.rows, r.value)
  {
    if !s.tableExists then Err(NoSuchTable)
    else
      Ok(NewestFirst(s.rows))
  }

  // ---------------------------------------------------------------------
  // What the operations guarantee
  // ---------------------------------------------------------------------

  lemma NoTableValid()
    ensures Valid(NoTable)
    ensures forall k :: InvoiceExists(NoTable, k) == Err(NoSuchTable)
  {
  }

  /** Creating the table twice is creating it once, and an existing table
      keeps all its rows. */
  lemma CreateTablesIdempotent(s: Store)
    ensures WithTable(WithTable(s)) == WithTable(s)
    ensures s.tableExists ==> WithTable(s) == s
    ensures Valid(s) ==> Valid(WithTable(s))
  {
  }

  /** An insert with a fresh invoice_no appends exactly one row carrying the
      given values, with the next id and the current time; the earlier rows
      stay as they were. */
  lemma SaveFresh(s: Store, data: InvoiceFields, ocrText: string, filePath: string, elapsed: nat)
    requires s.tableExists && InvoiceExists(s, data.invoiceNo) == Ok(false)
    ensures var r := Insert(s, data, ocrText, filePath, elapsed);
            && r.outcome == Pass
            && |r.store.rows| == |s.rows| + 1
            && r.store.rows[..|s.rows|] == s.rows
            && r.store.rows[|s.rows|] == Row(s.nextId, data.storeName, data.invoiceNo, data.date, data.total,
                                             ocrText, filePath, s.clock + elapsed)
  {
    var r := Insert(s, data, ocrText, filePath, elapsed);
    assert r.store.rows[..|s.rows|] == s.rows;
  }

  /** An insert with an invoice_no already in the table, or without a table,
      fails and leaves the store as it was. */
  lemma SaveRejected(s: Store, data: InvoiceFields, ocrText: string, filePath: string, elapsed: nat)
    requires InvoiceExists(s, data.invoiceNo) != Ok(false)
    ensures var r := Insert(s, data, ocrText, filePath, elapsed);
            && r.store == s
            && r.outcome == Fail(if s.tableExists then UniqueViolation else NoSuchTable)
  {
  }

  /** Every insert keeps the invariant, whatever its outcome. */
  lemma SaveKeepsValid(s: Store, data: InvoiceFields, ocrText: string, filePath: string, elapsed: nat)
    requires Valid(s)
    ensures Valid(Insert(s, data, ocrText, filePath, elapsed).store)
  {
    var r := Insert(s, data, ocrText, filePath, elapsed);
    if r.outcome == Pass {
      var rows := r.store.rows;
      var n := |s.rows|;
      assert forall a :: 0 <= a < n ==> rows[a] == s.rows[a];
      assert forall a :: 0 <= a < n ==> s.rows[a].invoiceNo != data.invoiceNo;
    }
  }

  /** AUTOINCREMENT: a new row's id is larger than every id in the table. */
  lemma SaveIdIsLargest(s: Store, data: InvoiceFields, ocrText: string, filePath: string, elapsed: nat)
    requires Valid(s) && Insert(s, data, ocrText, filePath, elapsed).outcome == Pass
    ensures var rows := Insert(s, data, ocrText, filePath, elapsed).store.rows;
            forall a :: 0 <= a < |s.rows| ==> s.rows[a].id < rows[|rows| - 1].id
  {
  }

  /** After an insert that succeeds, the duplicate check finds its
      invoice_no. */
  lemma ExistsAfterSave(s: Store, data: InvoiceFields, ocrText: string, filePath: string, elapsed: nat)
    requires Insert(s, data, ocrText, filePath, elapsed).outcome == Pass
    ensures InvoiceExists(Insert(s, data, ocrText, filePath, elapsed).store, data.invoiceNo) == Ok(true)
  {
    var rows := Insert(s, data, ocrText, filePath, elapsed).store.rows;
    assert rows[|rows| - 1].invoiceNo == data.invoiceNo;
  }

  /** Reading the rows back to front meets the listing order when the
      insertion times never decrease. */
  lemma NewestFirstIsListing(rows: seq<Row>, listing: seq<Summary>)
    requires |listing| == |rows|
    requires forall k :: 0 <= k < |listing| ==> listing[k] == Project(rows[|rows| - 1 - k])
    ensures (forall a, b :: 0 <= a < b < |rows| ==> rows[a].createdAt <= rows[b].createdAt)
            ==> IsListing(rows, listing)
  {
    var n := |rows|;
    var perm := seq(n, k requires 0 <= k < n => n - 1 - k);
    forall a | 0 <= a < n ensures a in perm {
      assert perm[n - 1 - a] == a;
    }
    assert IsPermutation(perm, n);
    assert forall k :: 0 <= k < n ==> listing[k] == Project(rows[perm[k]]);
    if forall a, b :: 0 <= a < b < n ==> rows[a].createdAt <= rows[b].createdAt {
      forall k | 0 < k < n ensures rows[perm[k - 1]].createdAt >= rows[perm[k]].createdAt {
        assert perm[k] < perm[k - 1];
      }
    }
  }

  // ---------------------------------------------------------------------
  // The table as an object
  // ---------------------------------------------------------------------

  /** The `invoices` table of one database file, updated in place. */
  class InvoiceDb {
    var tableExists: bool
    var rows: seq<Row>
    var nextId: nat
    var clock: nat

    function State(): Store
      reads this
    {
      Store(tableExists, rows, nextId, clock)
    }

    /** A database file in which the table was never created. */
    constructor ()
      ensures State() == NoTable && Valid(State())
    {
      tableExists, rows, nextId, clock := false, [], 1, 0;
    }

    method CreateTables()
      requires Valid(State())
      modifies this
      ensures State() == WithTable(old(State())) && Valid(State())
    {
      CreateTablesIdempotent(State());
      tableExists := true;
    }

    method CheckInvoiceExists(k: string) returns (r: Result<bool, DbError>)
      ensures r == InvoiceExists(State(), k)
    {
      if !tableExists {
        return Err(NoSuchTable);
      }
      r := Ok(HasKey(rows, k));
    }

    method SaveInvoice(data: InvoiceFields, ocrText: string, filePath: string, elapsed: nat)
      returns (r: Outcome<DbError>)
      requires Valid(State())
      modifies this
      ensures SaveResult(r, State()) == Insert(old(State()), data, ocrText, filePath, elapsed)
      ensures Valid(State())
    {
      SaveKeepsValid(State(), data, ocrText, filePath, elapsed);
      if !tableExists {
        return Fail(NoSuchTable);
      }
      if HasKey(rows, data.invoiceNo) {
        return Fail(UniqueViolation);
      }
      clock := clock + elapsed;
      rows := rows + [Row(nextId, data.storeName, data.invoiceNo, data.date, data.total, ocrText, filePath, clock)];
      nextId := nextId + 1;
      r := Pass;
    }

    method FetchAllInvoices() returns (r: Result<seq<Summary>, DbError>)
      ensures r == Listing(State())
    {
      if !tableExists {
        return Err(NoSuchTable);
      }
      r := Ok(NewestFirst(rows));
    }
  }
}
