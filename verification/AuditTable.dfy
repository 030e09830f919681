// The audit_log table as its readers see it: rows of one organisation, in id order, a page at a time.
module AuditTable {
  import opened Text
  import opened AuditChain

  /** Rows in strictly increasing id order. */
  predicate ById(rows: seq<Row>) {
    forall i, j :: 0 <= i < j < |rows| ==> rows[i].content.id < rows[j].content.id
  }

  /** id is the primary key. */
  predicate UniqueIds(table: seq<Row>) {
    forall i, j :: 0 <= i < j < |table| ==> table[i].content.id != table[j].content.id
  }

  function InsertById(row: Row, rows: seq<Row>): (r: seq<Row>)
    ensures multiset(r) == multiset(rows) + multiset{row}
  {
    if rows == [] then [row]
    else if row.content.id < rows[0].content.id then [row] + rows
    else
      assert rows == [rows[0]] + rows[1..];
      [rows[0]] + InsertById(row, rows[1..])
  }

  /** SELECT … WHERE org_id = org ORDER BY id, over a table stored in any order. */
  function OrgRows(table: seq<Row>, org: int): (r: seq<Row>)
    ensures forall row :: row in r <==> row in table && row.content.orgId == org
  {
    if table == [] then []
    else
      var rest := OrgRows(table[1..], org);
      if table[0].content.orgId != org then rest
      else
        var r := InsertById(table[0], rest);
        assert forall row :: row in multiset(r) <==> row == table[0] || row in multiset(rest);
        assert forall row :: row in r <==> row in multiset(r);
        r
  }

  function Take(rows: seq<Row>, limit: nat): seq<Row> {
    if |rows| <= limit then rows else rows[..limit]
  }

  /** The rows with an id above the cursor. */
  function After(rows: seq<Row>, cursor: Option<nat>): seq<Row> {
    if rows == [] then []
    else if cursor.Some? && rows[0].content.id <= cursor.value then After(rows[1..], cursor)
    else [rows[0]] + After(rows[1..], cursor)
  }

  /** One keyset page of an organisation's rows: id > cursor, at most `limit` of them. */
  function Page(rows: seq<Row>, cursor: Option<nat>, limit: nat): seq<Row> {
    Take(After(rows, cursor), limit)
  }

  lemma {:induction false} InsertKeepsOrder(row: Row, rows: seq<Row>)
    requires ById(rows) && forall i :: 0 <= i < |rows| ==> rows[i].content.id != row.content.id
    ensures ById(InsertById(row, rows))
  {
    if rows != [] && rows[0].content.id < row.content.id {
      InsertKeepsOrder(row, rows[1..]);
      var inner := InsertById(row, rows[1..]);
      forall j | 0 <= j < |inner| ensures rows[0].content.id < inner[j].content.id {
        assert inner[j] in multiset(inner);
        assert inner[j] == row || inner[j] in rows[1..];
      }
    }
  }

  /** What a reader gets is in id order, whatever order the table is stored in. */
  lemma {:induction false} OrgRowsById(table: seq<Row>, org: int)
    requires UniqueIds(table)
    ensures ById(OrgRows(table, org))
  {
    if table != [] {
      OrgRowsById(table[1..], org);
      if table[0].content.orgId == org {
        var rest := OrgRows(table[1..], org);
        forall i | 0 <= i < |rest| ensures rest[i].content.id != table[0].content.id {
          assert rest[i] in rest;
        }
        InsertKeepsOrder(table[0], rest);
      }
    }
  }

  /** Rows of one organisation already stored in id order are read back as they are. */
  lemma {:induction false} OrgRowsStored(table: seq<Row>, org: int)
    requires ById(table) && forall row :: row in table ==> row.content.orgId == org
    ensures OrgRows(table, org) == table
  {
    if table != [] {
      assert table[0] in table;
      OrgRowsStored(table[1..], org);
      assert |table| > 1 ==> table[0].content.id < table[1].content.id;
    }
  }

  /** Reading past the n-th row of an ordered list is dropping the first n rows. */
  lemma {:induction false} AfterOrdered(rows: seq<Row>, n: nat)
    requires ById(rows) && 0 < n <= |rows|
    ensures After(rows, Some(rows[n - 1].content.id)) == rows[n..]
  {
    var cursor := Some(rows[n - 1].content.id);
    if n == 1 {
      AfterAll(rows[1..], cursor);
      assert |rows| > 1 ==> rows[0].content.id < rows[1].content.id;
    } else {
      AfterOrdered(rows[1..], n - 1);
    }
  }

  lemma {:induction false} AfterAll(rows: seq<Row>, cursor: Option<nat>)
    requires forall i :: 0 <= i < |rows| ==> cursor.None? || rows[i].content.id > cursor.value
    ensures After(rows, cursor) == rows
  {
    if rows != [] { AfterAll(rows[1..], cursor); }
  }

  lemma {:induction false} AfterAbove(rows: seq<Row>, cursor: Option<nat>)
    ensures |After(rows, cursor)| <= |rows|
    ensures forall row :: row in After(rows, cursor) <==> row in rows && (cursor.None? || row.content.id > cursor.value)
  {
    if rows != [] { AfterAbove(rows[1..], cursor); }
  }
}
