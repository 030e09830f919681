// The test rows of one spec when a report is uploaded over a live run: each uploaded test takes over
// the next surviving row of its title, a test without one gets a new row, and rows nobody took go.
module UploadRows {
  import opened Normalized

  /** A row of the tests table. */
  datatype Row = Row(id: nat, test: Test)

  predicate ById(rows: seq<Row>) {
    forall i, j :: 0 <= i < j < |rows| ==> rows[i].id < rows[j].id
  }

  predicate BelowId(rows: seq<Row>, next: nat) {
    forall i :: 0 <= i < |rows| ==> rows[i].id < next
  }

  /** The ids of the rows of a title, in id order. */
  function Ids(rows: seq<Row>, title: string): seq<nat> {
    if rows == [] then []
    else
      var last := rows[|rows| - 1];
      Ids(rows[..|rows| - 1], title) + (if last.test.fullTitle == title then [last.id] else [])
  }

  /** How many of these tests have the title. */
  function Named(tests: seq<Test>, title: string): nat {
    if tests == [] then 0
    else Named(tests[..|tests| - 1], title) + (if tests[|tests| - 1].fullTitle == title then 1 else 0)
  }

  /** The n-th uploaded test of a title takes the n-th row of it. */
  predicate Takes(rows: seq<Row>, tests: seq<Test>, j: nat)
    requires j < |tests|
  {
    Named(tests[..j], tests[j].fullTitle) < |Ids(rows, tests[j].fullTitle)|
  }

  /** How many of the first j tests get a new row. */
  function Fresh(rows: seq<Row>, tests: seq<Test>, j: nat): nat
    requires j <= |tests|
  {
    if j == 0 then 0 else Fresh(rows, tests, j - 1) + (if Takes(rows, tests, j - 1) then 0 else 1)
  }

  /** The id under which the j-th test is stored. */
  function IdFor(rows: seq<Row>, next: nat, tests: seq<Test>, j: nat): nat
    requires j < |tests|
  {
    if Takes(rows, tests, j) then Ids(rows, tests[j].fullTitle)[Named(tests[..j], tests[j].fullTitle)]
    else next + Fresh(rows, tests, j)
  }

  function AllIds(rows: seq<Row>, next: nat, tests: seq<Test>, k: nat): (r: seq<nat>)
    requires k <= |tests|
    ensures |r| == k && forall j :: 0 <= j < k ==> r[j] == IdFor(rows, next, tests, j)
  {
    seq(k, j requires 0 <= j < k => IdFor(rows, next, tests, j))
  }

  // ---------------------------------------------------------------- statements

  predicate HasId(rows: seq<Row>, id: nat) {
    exists i :: 0 <= i < |rows| && rows[i].id == id
  }

  /** UPDATE tests SET … WHERE id. */
  function Updated(rows: seq<Row>, id: nat, test: Test): (r: seq<Row>)
    ensures |r| == |rows|
    ensures forall i :: 0 <= i < |r| ==> r[i] == if rows[i].id == id then Row(id, test) else rows[i]
  {
    seq(|rows|, i requires 0 <= i < |rows| => if rows[i].id == id then Row(id, test) else rows[i])
  }

  /** UPDATE the row with the id, or INSERT one when there is none. */
  function Put(rows: seq<Row>, id: nat, test: Test): seq<Row> {
    if HasId(rows, id) then Updated(rows, id, test) else rows + [Row(id, test)]
  }

  /** DELETE FROM tests WHERE id = ANY(stale). */
  function Without(rows: seq<Row>, stale: set<nat>): (r: seq<Row>)
    ensures forall row :: row in r <==> row in rows && row.id !in stale
  {
    if rows == [] then []
    else if rows[0].id in stale then Without(rows[1..], stale)
    else [rows[0]] + Without(rows[1..], stale)
  }

  /** The partial unique index on (spec_id, full_title) WHERE status = 'pending' refuses the write. */
  predicate Clashes(rows: seq<Row>, id: nat, test: Test) {
    test.status.Pending? && exists i :: 0 <= i < |rows| && rows[i].id != id && SamePending(rows[i].test, test)
  }

  predicate SamePending(a: Test, b: Test) { a.fullTitle == b.fullTitle && a.status.Pending? && b.status.Pending? }

  // ---------------------------------------------------------------- rows and their ids

  /** A write keeps the rows in id order, stores its row and leaves those of other ids alone. */
  lemma PutKeeps(rows: seq<Row>, id: nat, test: Test, r: seq<Row>)
    requires ById(rows) && (HasId(rows, id) || BelowId(rows, id)) && r == Put(rows, id, test)
    ensures ById(r) && |rows| <= |r| <= |rows| + 1
    ensures forall i :: 0 <= i < |r| ==> r[i] == Row(id, test) || (i < |rows| && r[i] == rows[i] && rows[i].id != id)
    ensures forall i :: 0 <= i < |rows| ==> r[i].id == rows[i].id && (rows[i].id != id ==> r[i] == rows[i])
    ensures Row(id, test) in r
  {
    if HasId(rows, id) {
      var i :| 0 <= i < |rows| && rows[i].id == id;
      assert r[i] == Row(id, test);
    } else {
      assert r[|rows|] == Row(id, test);
    }
  }

  predicate Distinct(ids: seq<nat>) {
    forall i, j :: 0 <= i < j < |ids| ==> ids[i] != ids[j]
  }

  predicate StoredOne(ids: seq<nat>, tests: seq<Test>, k: nat, row: Row)
    requires k <= |ids| && k <= |tests|
  {
    exists j :: 0 <= j < k && row == Row(ids[j], tests[j])
  }

  /** One of the first k tests has the id. */
  predicate Taken(ids: seq<nat>, k: nat, id: nat)
    requires k <= |ids|
  {
    exists j :: 0 <= j < k && ids[j] == id
  }

  /** The rows after the first k tests: those tests under their ids, and the old rows nobody has taken yet. */
  predicate Laid(had: seq<Row>, ids: seq<nat>, tests: seq<Test>, k: nat, r: seq<Row>)
    requires k <= |ids| && k <= |tests|
  {
    && |had| <= |r|
    && (forall j :: 0 <= j < k ==> Row(ids[j], tests[j]) in r)
    && (forall i :: 0 <= i < |r| ==> StoredOne(ids, tests, k, r[i]) || (!Taken(ids, k, r[i].id) && i < |had| && r[i] == had[i]))
    && (forall i :: 0 <= i < |had| ==> r[i].id == had[i].id && (!Taken(ids, k, had[i].id) ==> r[i] == had[i]))
  }

  lemma StoredLater(ids: seq<nat>, tests: seq<Test>, k: nat, row: Row)
    requires k < |ids| && k < |tests| && StoredOne(ids, tests, k, row)
    ensures StoredOne(ids, tests, k + 1, row)
  {
  }

  lemma TakenNext(ids: seq<nat>, k: nat, id: nat)
    requires k < |ids|
    ensures Taken(ids, k + 1, id) <==> Taken(ids, k, id) || ids[k] == id
  {
  }

  /** A row after the next write is stored, or still as it was. */
  lemma PutRow(had: seq<Row>, ids: seq<nat>, tests: seq<Test>, k: nat, r: seq<Row>, next: seq<Row>, i: nat)
    requires k < |ids| && k < |tests| && Distinct(ids) && ById(r) && Laid(had, ids, tests, k, r) && i < |next|
    requires next[i] == Row(ids[k], tests[k]) || (i < |r| && next[i] == r[i] && r[i].id != ids[k])
    ensures StoredOne(ids, tests, k + 1, next[i]) || (!Taken(ids, k + 1, next[i].id) && i < |had| && next[i] == had[i])
  {
    TakenNext(ids, k, next[i].id);
    if next[i] != Row(ids[k], tests[k]) && StoredOne(ids, tests, k, r[i]) { StoredLater(ids, tests, k, r[i]); }
  }

  lemma PutLays(had: seq<Row>, ids: seq<nat>, tests: seq<Test>, k: nat, r: seq<Row>, next: seq<Row>)
    requires k < |ids| && k < |tests| && Distinct(ids) && ById(r) && Laid(had, ids, tests, k, r)
    requires (HasId(r, ids[k]) || BelowId(r, ids[k])) && next == Put(r, ids[k], tests[k])
    ensures Laid(had, ids, tests, k + 1, next) && ById(next)
  {
    PutKeeps(r, ids[k], tests[k], next);
    forall j | 0 <= j < k + 1 ensures Row(ids[j], tests[j]) in next {
      if j < k {
        var i :| 0 <= i < |r| && r[i] == Row(ids[j], tests[j]);
        assert next[i] == r[i];
      }
    }
    forall i | 0 <= i < |next|
      ensures StoredOne(ids, tests, k + 1, next[i]) || (!Taken(ids, k + 1, next[i].id) && i < |had| && next[i] == had[i])
    {
      PutRow(had, ids, tests, k, r, next, i);
    }
    forall i | 0 <= i < |had| ensures next[i].id == had[i].id && (!Taken(ids, k + 1, had[i].id) ==> next[i] == had[i]) {
      TakenNext(ids, k, had[i].id);
    }
  }

  // ---------------------------------------------------------------- which id a test gets

  predicate RowNamed(rows: seq<Row>, id: nat, title: string) {
    exists i :: 0 <= i < |rows| && rows[i].id == id && rows[i].test.fullTitle == title
  }

  predicate Ascending(ids: seq<nat>) {
    forall i, j :: 0 <= i < j < |ids| ==> ids[i] < ids[j]
  }

  lemma {:induction false} IdsAscend(rows: seq<Row>, title: string)
    requires ById(rows)
    ensures Ascending(Ids(rows, title))
    ensures forall id :: id in Ids(rows, title) <==> RowNamed(rows, id, title)
  {
    if rows != [] {
      var front, last := rows[..|rows| - 1], rows[|rows| - 1];
      IdsAscend(front, title);
      forall id ensures RowNamed(rows, id, title) <==> RowNamed(front, id, title) || (last.id == id && last.test.fullTitle == title) {
        if RowNamed(front, id, title) {
          var i :| 0 <= i < |front| && front[i].id == id && front[i].test.fullTitle == title;
          assert rows[i] == front[i];
        }
      }
      forall i | 0 <= i < |Ids(front, title)| ensures Ids(front, title)[i] < last.id {
        assert Ids(front, title)[i] in Ids(front, title);
      }
    }
  }

  lemma {:induction false} NamedGrows(tests: seq<Test>, i: nat, j: nat, title: string)
    requires i <= j <= |tests|
    ensures Named(tests[..i], title) <= Named(tests[..j], title)
    ensures i < j && tests[i].fullTitle == title ==> Named(tests[..i], title) < Named(tests[..j], title)
    decreases j
  {
    if i < j {
      assert tests[..j][..j - 1] == tests[..j - 1];
      NamedGrows(tests, i, j - 1, title);
    }
  }

  lemma {:induction false} FreshGrows(rows: seq<Row>, tests: seq<Test>, i: nat, j: nat)
    requires i <= j <= |tests|
    ensures Fresh(rows, tests, i) <= Fresh(rows, tests, j)
    ensures i < j && !Takes(rows, tests, i) ==> Fresh(rows, tests, i) < Fresh(rows, tests, j)
  {
    if i < j { FreshGrows(rows, tests, i, j - 1); }
  }

  /** A test that takes over a row gets the id of a row of its title. */
  lemma TakenId(rows: seq<Row>, next: nat, tests: seq<Test>, j: nat)
    requires ById(rows) && BelowId(rows, next) && j < |tests| && Takes(rows, tests, j)
    ensures RowNamed(rows, IdFor(rows, next, tests, j), tests[j].fullTitle) && IdFor(rows, next, tests, j) < next
  {
    IdsAscend(rows, tests[j].fullTitle);
    assert IdFor(rows, next, tests, j) in Ids(rows, tests[j].fullTitle);
  }

  lemma IdsDiffer(rows: seq<Row>, next: nat, tests: seq<Test>, i: nat, j: nat)
    requires ById(rows) && BelowId(rows, next) && i < j < |tests|
    ensures IdFor(rows, next, tests, i) != IdFor(rows, next, tests, j)
  {
    if Takes(rows, tests, i) { TakenId(rows, next, tests, i); }
    if Takes(rows, tests, j) { TakenId(rows, next, tests, j); }
    if Takes(rows, tests, i) && Takes(rows, tests, j) {
      IdsAscend(rows, tests[i].fullTitle);
      NamedGrows(tests, i, j, tests[i].fullTitle);
    } else {
      FreshGrows(rows, tests, i, j);
    }
  }

  lemma IdsDistinct(rows: seq<Row>, next: nat, tests: seq<Test>)
    requires ById(rows) && BelowId(rows, next)
    ensures Distinct(AllIds(rows, next, tests, |tests|))
  {
    forall i, j | 0 <= i < j < |tests| ensures IdFor(rows, next, tests, i) != IdFor(rows, next, tests, j) {
      IdsDiffer(rows, next, tests, i, j);
    }
  }

  /** A new row's id is above all there are. */
  lemma NewIdAbove(had: seq<Row>, next: nat, tests: seq<Test>, ids: seq<nat>, k: nat, r: seq<Row>)
    requires ById(had) && BelowId(had, next) && k < |tests| && ids == AllIds(had, next, tests, |tests|)
    requires Laid(had, ids, tests, k, r)
    ensures BelowId(r, next + Fresh(had, tests, k))
  {
    forall i | 0 <= i < |r| ensures r[i].id < next + Fresh(had, tests, k) {
      if StoredOne(ids, tests, k, r[i]) {
        var j :| 0 <= j < k && r[i] == Row(ids[j], tests[j]);
        FreshGrows(had, tests, j, k);
        if Takes(had, tests, j) { TakenId(had, next, tests, j); }
      }
    }
  }

  lemma IdReady(had: seq<Row>, next: nat, tests: seq<Test>, ids: seq<nat>, k: nat, r: seq<Row>)
    requires ById(had) && BelowId(had, next) && k < |tests| && ids == AllIds(had, next, tests, |tests|)
    requires Laid(had, ids, tests, k, r)
    ensures Takes(had, tests, k) ==> HasId(r, ids[k])
    ensures !Takes(had, tests, k) ==> BelowId(r, ids[k])
  {
    if Takes(had, tests, k) {
      TakenId(had, next, tests, k);
      var p :| 0 <= p < |had| && had[p].id == ids[k] && had[p].test.fullTitle == tests[k].fullTitle;
      assert r[p].id == ids[k];
    } else {
      NewIdAbove(had, next, tests, ids, k, r);
    }
  }

  // ---------------------------------------------------------------- when the unique index is in the way

  /** Writing the k-th test meets no pending row of its title: no earlier test left one, and no old one is still to
      be taken over by a later test, or by none. */
  predicate WritableAt(had: seq<Row>, tests: seq<Test>, k: nat)
    requires k < |tests|
  {
    && (forall i :: 0 <= i < k ==> !SamePending(tests[i], tests[k]))
    && (forall p :: 0 <= p < |had| && SamePending(had[p].test, tests[k]) ==>
          |Ids(had[..p], tests[k].fullTitle)| <= Named(tests[..k], tests[k].fullTitle))
  }

  predicate WritableUpTo(had: seq<Row>, tests: seq<Test>, n: nat)
    requires n <= |tests|
  {
    forall k :: 0 <= k < n ==> WritableAt(had, tests, k)
  }

  predicate Writable(had: seq<Row>, tests: seq<Test>) { WritableUpTo(had, tests, |tests|) }

  /** A row's place among those of its title. */
  lemma {:induction false} IdAtRank(rows: seq<Row>, p: nat, n: nat)
    requires p < |rows| && n == |Ids(rows[..p], rows[p].test.fullTitle)|
    ensures n < |Ids(rows, rows[p].test.fullTitle)| && Ids(rows, rows[p].test.fullTitle)[n] == rows[p].id
  {
    var front := rows[..|rows| - 1];
    if p < |front| {
      assert front[..p] == rows[..p];
      IdAtRank(front, p, n);
    }
  }

  lemma {:induction false} NamedHits(tests: seq<Test>, k: nat, title: string, n: nat) returns (j: nat)
    requires k <= |tests| && n < Named(tests[..k], title)
    ensures j < k && tests[j].fullTitle == title && Named(tests[..j], title) == n
  {
    assert tests[..k][..k - 1] == tests[..k - 1];
    if n == Named(tests[..k - 1], title) { j := k - 1; } else { j := NamedHits(tests, k - 1, title, n); }
  }

  lemma SameIdSameRow(rows: seq<Row>, p: nat, title: string)
    requires ById(rows) && p < |rows| && RowNamed(rows, rows[p].id, title)
    ensures rows[p].test.fullTitle == title
  {
  }

  /** An old row is taken by the first k + 1 tests exactly when its place comes no later than that of the k-th. */
  lemma TakenIff(had: seq<Row>, next: nat, tests: seq<Test>, k: nat, p: nat, ids: seq<nat>)
    requires ById(had) && BelowId(had, next) && k < |tests| && p < |had| && ids == AllIds(had, next, tests, |tests|)
    requires had[p].test.fullTitle == tests[k].fullTitle
    ensures Taken(ids, k + 1, had[p].id) <==> |Ids(had[..p], tests[k].fullTitle)| <= Named(tests[..k], tests[k].fullTitle)
  {
    var title := tests[k].fullTitle;
    var n := |Ids(had[..p], title)|;
    IdAtRank(had, p, n);
    if n == Named(tests[..k], title) {
      assert ids[k] == had[p].id;
    } else if n < Named(tests[..k], title) {
      var j := NamedHits(tests, k, title, n);
      assert ids[j] == had[p].id;
    } else if Taken(ids, k + 1, had[p].id) {
      var j :| 0 <= j < k + 1 && ids[j] == had[p].id;
      TakerRank(had, next, tests, j, p, n);
      NamedGrows(tests, j, k, title);
    }
  }

  lemma TakerRank(had: seq<Row>, next: nat, tests: seq<Test>, j: nat, p: nat, n: nat)
    requires ById(had) && BelowId(had, next) && j < |tests| && p < |had| && IdFor(had, next, tests, j) == had[p].id
    requires n == |Ids(had[..p], had[p].test.fullTitle)|
    ensures tests[j].fullTitle == had[p].test.fullTitle && Named(tests[..j], tests[j].fullTitle) == n
  {
    TakenId(had, next, tests, j);
    SameIdSameRow(had, p, tests[j].fullTitle);
    IdAtRank(had, p, n);
    IdsAscend(had, tests[j].fullTitle);
  }

  /** A pending row that an earlier test left is one the index minds. */
  lemma EarlierClashes(had: seq<Row>, tests: seq<Test>, ids: seq<nat>, i: nat, k: nat, r: seq<Row>)
    requires i < k < |tests| && |ids| == |tests| && Distinct(ids) && Laid(had, ids, tests, k, r)
    requires SamePending(tests[i], tests[k])
    ensures Clashes(r, ids[k], tests[k])
  {
    var m :| 0 <= m < |r| && r[m] == Row(ids[i], tests[i]);
    assert r[m].id != ids[k] && SamePending(r[m].test, tests[k]);
  }

  /** So is an old pending row that has not been taken over by then. */
  lemma LeftClashes(had: seq<Row>, tests: seq<Test>, ids: seq<nat>, p: nat, k: nat, r: seq<Row>)
    requires p < |had| && k < |tests| && |ids| == |tests| && Laid(had, ids, tests, k, r)
    requires SamePending(had[p].test, tests[k]) && !Taken(ids, k + 1, had[p].id)
    ensures Clashes(r, ids[k], tests[k])
  {
    assert !Taken(ids, k, had[p].id) && ids[k] != had[p].id;
    assert r[p] == had[p];
  }

  lemma ClashIff(had: seq<Row>, next: nat, tests: seq<Test>, ids: seq<nat>, k: nat, r: seq<Row>)
    requires ById(had) && BelowId(had, next) && k < |tests| && ids == AllIds(had, next, tests, |tests|)
    requires Laid(had, ids, tests, k, r)
    ensures Clashes(r, ids[k], tests[k]) <==> !WritableAt(had, tests, k)
  {
    IdsDistinct(had, next, tests);
    if WritableAt(had, tests, k) {
      forall i | 0 <= i < |r| && r[i].id != ids[k] ensures !SamePending(r[i].test, tests[k]) {
        OtherIsClear(had, next, tests, ids, k, r, i);
      }
    } else if i: nat :| i < k && SamePending(tests[i], tests[k]) {
      EarlierClashes(had, tests, ids, i, k, r);
    } else {
      var p :| 0 <= p < |had| && SamePending(had[p].test, tests[k])
               && |Ids(had[..p], tests[k].fullTitle)| > Named(tests[..k], tests[k].fullTitle);
      TakenIff(had, next, tests, k, p, ids);
      LeftClashes(had, tests, ids, p, k, r);
    }
  }

  lemma OtherIsClear(had: seq<Row>, next: nat, tests: seq<Test>, ids: seq<nat>, k: nat, r: seq<Row>, i: nat)
    requires ById(had) && BelowId(had, next) && k < |tests| && ids == AllIds(had, next, tests, |tests|)
    requires Laid(had, ids, tests, k, r) && WritableAt(had, tests, k) && i < |r| && r[i].id != ids[k]
    ensures !SamePending(r[i].test, tests[k])
  {
    if !StoredOne(ids, tests, k, r[i]) && SamePending(r[i].test, tests[k]) {
      TakenIff(had, next, tests, k, i, ids);
    }
  }

  // ---------------------------------------------------------------- the rows nobody took

  /** The rows are the tests, each under its id, and no others. */
  ghost predicate Holds(rows: seq<Row>, ids: seq<nat>, tests: seq<Test>) {
    && |ids| == |tests| == |rows| && Distinct(ids) && ById(rows)
    && (forall row :: row in rows <==> StoredOne(ids, tests, |tests|, row))
  }

  function IdsOf(rows: seq<Row>): (r: seq<nat>)
    ensures |r| == |rows| && forall i :: 0 <= i < |r| ==> r[i] == rows[i].id
  {
    seq(|rows|, i requires 0 <= i < |rows| => rows[i].id)
  }

  function Elements(ids: seq<nat>): set<nat> { set id | id in ids }

  lemma {:induction false} SetSize(ids: seq<nat>)
    requires Distinct(ids)
    ensures |Elements(ids)| == |ids|
  {
    if ids != [] {
      var front, last := ids[..|ids| - 1], ids[|ids| - 1];
      SetSize(front);
      assert ids == front + [last] && last !in front;
      assert Elements(ids) == Elements(front) + {last};
    }
  }

  /** Two lists without repeats and with the same elements are equally long. */
  lemma SameSize(a: seq<nat>, b: seq<nat>)
    requires Distinct(a) && Distinct(b) && forall id :: id in a <==> id in b
    ensures |a| == |b|
  {
    SetSize(a);
    SetSize(b);
    assert Elements(a) == Elements(b);
  }

  lemma {:induction false} WithoutOrder(rows: seq<Row>, stale: set<nat>)
    requires ById(rows)
    ensures ById(Without(rows, stale))
  {
    if rows != [] {
      WithoutOrder(rows[1..], stale);
      var rest := Without(rows[1..], stale);
      forall i | 0 <= i < |rest| ensures rows[0].id < rest[i].id {
        assert rest[i] in rest;
      }
    }
  }

  lemma StaleGone(had: seq<Row>, ids: seq<nat>, tests: seq<Test>, r: seq<Row>, stale: set<nat>, rows: seq<Row>)
    requires |ids| == |tests| && Distinct(ids) && ById(r) && Laid(had, ids, tests, |tests|, r)
    requires forall id :: id in stale <==> HasId(had, id) && !Taken(ids, |tests|, id)
    requires rows == Without(r, stale)
    ensures Holds(rows, ids, tests)
  {
    WithoutOrder(r, stale);
    forall row | row in rows ensures StoredOne(ids, tests, |tests|, row) {
      var i :| 0 <= i < |r| && r[i] == row;
      assert StoredOne(ids, tests, |tests|, row) || HasId(had, row.id);
    }
    forall j | 0 <= j < |tests| ensures Row(ids[j], tests[j]) in rows {
      assert Taken(ids, |tests|, ids[j]);
    }
    StoredIds(rows, ids, tests);
    SameSize(IdsOf(rows), ids);
  }

  lemma StoredIds(rows: seq<Row>, ids: seq<nat>, tests: seq<Test>)
    requires |ids| == |tests| && forall row :: row in rows <==> StoredOne(ids, tests, |tests|, row)
    ensures forall id :: id in IdsOf(rows) <==> id in ids
  {
    forall id | id in IdsOf(rows) ensures id in ids {
      var i :| 0 <= i < |rows| && rows[i].id == id;
      assert rows[i] in rows;
    }
    forall id | id in ids ensures id in IdsOf(rows) {
      var j :| 0 <= j < |ids| && ids[j] == id;
      assert StoredOne(ids, tests, |tests|, Row(ids[j], tests[j]));
      var i :| 0 <= i < |rows| && rows[i] == Row(ids[j], tests[j]);
      assert IdsOf(rows)[i] == id;
    }
  }

  // ---------------------------------------------------------------- the upload of one spec

  function QueueOf(queues: map<string, seq<nat>>, title: string): seq<nat> {
    if title in queues then queues[title] else []
  }

  function Rest(ids: seq<nat>, n: nat): seq<nat> { if n <= |ids| then ids[n..] else [] }

  /** Every title's queue after the first k tests: the ids of its rows that are left. */
  ghost predicate Queued(queues: map<string, seq<nat>>, had: seq<Row>, tests: seq<Test>, k: nat)
    requires k <= |tests|
  {
    forall title :: QueueOf(queues, title) == Rest(Ids(had, title), Named(tests[..k], title))
  }

  /** titleQueue.shift(), when there is one to take. */
  function Shifted(queues: map<string, seq<nat>>, title: string): map<string, seq<nat>> {
    if QueueOf(queues, title) == [] then queues else queues[title := queues[title][1..]]
  }

  lemma ShiftKeeps(queues: map<string, seq<nat>>, had: seq<Row>, tests: seq<Test>, k: nat, next: nat)
    requires k < |tests| && Queued(queues, had, tests, k)
    ensures Queued(Shifted(queues, tests[k].fullTitle), had, tests, k + 1)
    ensures var queue := QueueOf(queues, tests[k].fullTitle);
            && (queue != [] <==> Takes(had, tests, k))
            && (queue != [] ==> queue[0] == IdFor(had, next, tests, k))
  {
    assert tests[..k + 1][..k] == tests[..k];
    forall title
      ensures QueueOf(Shifted(queues, tests[k].fullTitle), title) == Rest(Ids(had, title), Named(tests[..k + 1], title))
    {
      assert QueueOf(queues, title) == Rest(Ids(had, title), Named(tests[..k], title));
    }
  }

  /** The ids taken over by the first k tests. */
  ghost predicate Reused(reusedIds: set<nat>, had: seq<Row>, tests: seq<Test>, ids: seq<nat>, k: nat)
    requires k <= |tests| == |ids|
  {
    forall id :: id in reusedIds <==> exists j :: 0 <= j < k && Takes(had, tests, j) && ids[j] == id
  }

  lemma ReusedNext(reusedIds: set<nat>, had: seq<Row>, tests: seq<Test>, ids: seq<nat>, k: nat, more: set<nat>)
    requires k < |tests| == |ids| && Reused(reusedIds, had, tests, ids, k)
    requires more == if Takes(had, tests, k) then reusedIds + {ids[k]} else reusedIds
    ensures Reused(more, had, tests, ids, k + 1)
  {
  }

  /** No old row has the id of a new one, so those not taken over are those no test has. */
  lemma StaleAre(had: seq<Row>, next: nat, tests: seq<Test>, ids: seq<nat>, reusedIds: set<nat>, stale: set<nat>)
    requires ById(had) && BelowId(had, next) && ids == AllIds(had, next, tests, |tests|)
    requires Reused(reusedIds, had, tests, ids, |tests|)
    requires forall id :: id in stale <==> HasId(had, id) && id !in reusedIds
    ensures forall id :: id in stale <==> HasId(had, id) && !Taken(ids, |tests|, id)
  {
    forall id | HasId(had, id) ensures id in reusedIds <==> Taken(ids, |tests|, id) {
      if Taken(ids, |tests|, id) {
        var j :| 0 <= j < |tests| && ids[j] == id;
        assert Takes(had, tests, j);
      }
    }
  }

  /** Before the k-th test: what is stored, what the queues hold, and what has been taken over. */
  ghost predicate AtTest(had: seq<Row>, next: nat, tests: seq<Test>, k: nat, rows: seq<Row>, nextId: nat,
                         idsByTitle: map<string, seq<nat>>, reusedIds: set<nat>)
    requires k <= |tests|
  {
    var ids := AllIds(had, next, tests, |tests|);
    && ById(rows) && Laid(had, ids, tests, k, rows) && nextId == next + Fresh(had, tests, k)
    && Queued(idsByTitle, had, tests, k) && Reused(reusedIds, had, tests, ids, k)
  }

  lemma StartsAt(had: seq<Row>, next: nat, tests: seq<Test>, idsByTitle: map<string, seq<nat>>)
    requires ById(had) && Queued(idsByTitle, had, [], 0)
    ensures AtTest(had, next, tests, 0, had, next, idsByTitle, {})
  {
    assert tests[..0] == [][..0];
  }

  /** The next test stored. */
  lemma StoredAt(had: seq<Row>, next: nat, tests: seq<Test>, k: nat, r: seq<Row>, nextId: nat,
                 idsByTitle: map<string, seq<nat>>, reusedIds: set<nat>, id: nat)
    requires ById(had) && BelowId(had, next) && k < |tests| && AtTest(had, next, tests, k, r, nextId, idsByTitle, reusedIds)
    requires id == IdFor(had, next, tests, k)
    ensures var title := tests[k].fullTitle;
            && (QueueOf(idsByTitle, title) != [] <==> Takes(had, tests, k))
            && id == (if QueueOf(idsByTitle, title) != [] then QueueOf(idsByTitle, title)[0] else nextId)
            && (Clashes(r, id, tests[k]) <==> !WritableAt(had, tests, k))
            && AtTest(had, next, tests, k + 1, Put(r, id, tests[k]), next + Fresh(had, tests, k + 1),
                      Shifted(idsByTitle, title), if Takes(had, tests, k) then reusedIds + {id} else reusedIds)
  {
    var ids := AllIds(had, next, tests, |tests|);
    IdsDistinct(had, next, tests);
    IdReady(had, next, tests, ids, k, r);
    ClashIff(had, next, tests, ids, k, r);
    ShiftKeeps(idsByTitle, had, tests, k, next);
    ReusedNext(reusedIds, had, tests, ids, k, if Takes(had, tests, k) then reusedIds + {id} else reusedIds);
    PutLays(had, ids, tests, k, r, Put(r, id, tests[k]));
  }

  /** The rows of one spec, and the id sequence of the table. */
  class SpecRows {
    var rows: seq<Row>
    var nextId: nat

    ghost predicate Valid()
      reads this
    {
      ById(rows) && BelowId(rows, nextId)
    }

    /** One UPDATE or INSERT, refused by the unique index when it would leave two pending rows of a title. */
    method Write(id: nat, test: Test) returns (ok: bool)
      modifies `rows
      ensures ok <==> !Clashes(old(rows), id, test)
      ensures rows == if ok then Put(old(rows), id, test) else old(rows)
    {
      ok := !Clashes(rows, id, test);
      if ok { rows := Put(rows, id, test); }
    }

    /** SELECT id, full_title … ORDER BY id, collected by title. */
    method CollectIds() returns (queues: map<string, seq<nat>>)
      ensures Queued(queues, rows, [], 0)
    {
      queues := map[];
      for i := 0 to |rows|
        invariant forall title :: QueueOf(queues, title) == Ids(rows[..i], title)
      {
        assert rows[..i + 1][..i] == rows[..i];
        var title := rows[i].test.fullTitle;
        queues := queues[title := QueueOf(queues, title) + [rows[i].id]];
      }
      assert rows[..|rows|] == rows;
    }

    /** One uploaded test, with those before it stored: update the row it takes over, or insert one. */
    method StoreTest(tests: seq<Test>, k: nat, idsByTitle: map<string, seq<nat>>, reusedIds: set<nat>,
                     ghost had: seq<Row>, ghost next: nat)
      returns (ok: bool, queues: map<string, seq<nat>>, reused: set<nat>)
      requires ById(had) && BelowId(had, next) && k < |tests|
      requires AtTest(had, next, tests, k, rows, nextId, idsByTitle, reusedIds)
      modifies this
      ensures ok <==> WritableAt(had, tests, k)
      ensures ok ==> AtTest(had, next, tests, k + 1, rows, nextId, queues, reused)
      ensures nextId >= old(nextId)
    {
      StoredAt(had, next, tests, k, rows, nextId, idsByTitle, reusedIds, IdFor(had, next, tests, k));
      var titleQueue := QueueOf(idsByTitle, tests[k].fullTitle);
      queues := Shifted(idsByTitle, tests[k].fullTitle);
      if titleQueue != [] {
        ok := Write(titleQueue[0], tests[k]);
        reused := reusedIds + {titleQueue[0]};
      } else {
        ok := Write(nextId, tests[k]);
        nextId := nextId + 1;
        reused := reusedIds;
      }
    }

    /** The loop over the uploaded tests, up to the first that is refused. */
    method StoreTests(tests: seq<Test>, queues: map<string, seq<nat>>) returns (ok: bool, idsByTitle: map<string, seq<nat>>, reusedIds: set<nat>)
      requires Valid() && Queued(queues, rows, [], 0)
      modifies this
      ensures nextId >= old(nextId)
      ensures ok <==> Writable(old(rows), tests)
      ensures ok ==> AtTest(old(rows), old(nextId), tests, |tests|, rows, nextId, idsByTitle, reusedIds)
    {
      ghost var had, next := rows, nextId;
      StartsAt(had, next, tests, queues);
      idsByTitle, reusedIds := queues, {};
      for k := 0 to |tests|
        invariant AtTest(had, next, tests, k, rows, nextId, idsByTitle, reusedIds) && nextId >= next
        invariant WritableUpTo(had, tests, k)
      {
        ok, idsByTitle, reusedIds := StoreTest(tests, k, idsByTitle, reusedIds, had, next);
        if !ok { return; }
      }
      ok := true;
    }

    /** Reconcile the spec's rows with the tests of a report, in place. An upload that the unique index refuses is
        rolled back. */
    method Reconcile(tests: seq<Test>) returns (ok: bool)
      requires Valid()
      modifies this
      ensures Valid() && nextId >= old(nextId)
      ensures ok <==> Writable(old(rows), tests)
      ensures ok ==> Holds(rows, AllIds(old(rows), old(nextId), tests, |tests|), tests)
      ensures !ok ==> rows == old(rows)
    {
      var existing := rows;
      ghost var next := nextId;
      var idsByTitle := CollectIds();
      var reusedIds;
      ok, idsByTitle, reusedIds := StoreTests(tests, idsByTitle);
      if !ok {
        BelowLater(existing, next, nextId);
        rows := existing;
        return;
      }
      var staleIds := StaleIds(existing, reusedIds);
      Settled(existing, next, tests, rows, nextId, idsByTitle, reusedIds, staleIds);
      rows := Without(rows, staleIds);
    }
  }

  /** The ids that nothing uploaded took over. */
  function StaleIds(had: seq<Row>, reusedIds: set<nat>): set<nat> {
    set i | 0 <= i < |had| && had[i].id !in reusedIds :: had[i].id
  }

  lemma BelowLater(rows: seq<Row>, next: nat, later: nat)
    requires BelowId(rows, next) && next <= later
    ensures BelowId(rows, later)
  {
  }

  lemma Settled(had: seq<Row>, next: nat, tests: seq<Test>, r: seq<Row>, nextId: nat, idsByTitle: map<string, seq<nat>>,
                reusedIds: set<nat>, stale: set<nat>)
    requires ById(had) && BelowId(had, next) && AtTest(had, next, tests, |tests|, r, nextId, idsByTitle, reusedIds)
    requires stale == StaleIds(had, reusedIds)
    ensures Holds(Without(r, stale), AllIds(had, next, tests, |tests|), tests)
    ensures BelowId(Without(r, stale), nextId)
  {
    var ids, rows := AllIds(had, next, tests, |tests|), Without(r, stale);
    IdsDistinct(had, next, tests);
    StaleAre(had, next, tests, ids, reusedIds, stale);
    StaleGone(had, ids, tests, r, stale, rows);
    forall i | 0 <= i < |rows| ensures rows[i].id < nextId {
      assert rows[i] in rows;
      var j :| 0 <= j < |tests| && rows[i] == Row(ids[j], tests[j]);
      FreshGrows(had, tests, j, |tests|);
      if Takes(had, tests, j) { TakenId(had, next, tests, j); }
    }
  }

  // ---------------------------------------------------------------- what becomes of each title

  /** The ids of the first k tests that have the title, in upload order. */
  function Chosen(ids: seq<nat>, tests: seq<Test>, k: nat, title: string): seq<nat>
    requires k <= |tests| == |ids|
  {
    if k == 0 then []
    else Chosen(ids, tests, k - 1, title) + (if tests[k - 1].fullTitle == title then [ids[k - 1]] else [])
  }

  lemma {:induction false} ChosenAt(ids: seq<nat>, tests: seq<Test>, k: nat, title: string)
    requires k <= |tests| == |ids|
    ensures |Chosen(ids, tests, k, title)| == Named(tests[..k], title)
    ensures forall j :: 0 <= j < k && tests[j].fullTitle == title ==>
              Named(tests[..j], title) < |Chosen(ids, tests, k, title)|
              && Chosen(ids, tests, k, title)[Named(tests[..j], title)] == ids[j]
  {
    if k > 0 {
      assert tests[..k][..k - 1] == tests[..k - 1];
      ChosenAt(ids, tests, k - 1, title);
    }
  }

  predicate IsChosen(ids: seq<nat>, tests: seq<Test>, k: nat, title: string, id: nat)
    requires k <= |tests| == |ids|
  {
    exists j :: 0 <= j < k && tests[j].fullTitle == title && ids[j] == id
  }

  lemma {:induction false} ChosenAre(ids: seq<nat>, tests: seq<Test>, k: nat, title: string)
    requires k <= |tests| == |ids|
    ensures forall id :: id in Chosen(ids, tests, k, title) <==> IsChosen(ids, tests, k, title, id)
  {
    if k > 0 {
      ChosenAre(ids, tests, k - 1, title);
      forall id
        ensures IsChosen(ids, tests, k, title, id)
                <==> IsChosen(ids, tests, k - 1, title, id) || (tests[k - 1].fullTitle == title && ids[k - 1] == id)
      {
      }
    }
  }

  /** Later tests of a title get higher ids. */
  lemma IdsRise(had: seq<Row>, next: nat, tests: seq<Test>, i: nat, j: nat)
    requires ById(had) && BelowId(had, next) && i < j < |tests| && tests[i].fullTitle == tests[j].fullTitle
    ensures IdFor(had, next, tests, i) < IdFor(had, next, tests, j)
  {
    NamedGrows(tests, i, j, tests[i].fullTitle);
    IdsAscend(had, tests[i].fullTitle);
    FreshGrows(had, tests, i, j);
    if Takes(had, tests, i) { TakenId(had, next, tests, i); }
  }

  lemma {:induction false} ChosenAscends(had: seq<Row>, next: nat, tests: seq<Test>, ids: seq<nat>, k: nat, title: string)
    requires ById(had) && BelowId(had, next) && ids == AllIds(had, next, tests, |tests|) && k <= |tests|
    ensures Ascending(Chosen(ids, tests, k, title))
  {
    if k > 0 {
      ChosenAscends(had, next, tests, ids, k - 1, title);
      if tests[k - 1].fullTitle == title {
        var front := Chosen(ids, tests, k - 1, title);
        ChosenAre(ids, tests, k - 1, title);
        forall i | 0 <= i < |front| ensures front[i] < ids[k - 1] {
          assert front[i] in front;
          var j :| 0 <= j < k - 1 && tests[j].fullTitle == title && ids[j] == front[i];
          IdsRise(had, next, tests, j, k - 1);
        }
      }
    }
  }

  lemma {:induction false} AscendingSame(a: seq<nat>, b: seq<nat>)
    requires Ascending(a) && Ascending(b) && forall id :: id in a <==> id in b
    ensures a == b
  {
    SameSize(a, b);
    if a != [] {
      var x, y := a[|a| - 1], b[|b| - 1];
      assert x in b && y in a;
      assert x == y;
      var front, last := a[..|a| - 1], b[..|b| - 1];
      assert a == front + [x] && b == last + [y];
      FrontSame(a, b, front, last, x);
      AscendingSame(front, last);
    }
  }

  lemma FrontSame(a: seq<nat>, b: seq<nat>, front: seq<nat>, last: seq<nat>, x: nat)
    requires Ascending(a) && Ascending(b) && a == front + [x] && b == last + [x]
    requires forall id :: id in a <==> id in b
    ensures Ascending(front) && Ascending(last) && forall id :: id in front <==> id in last
  {
    assert a[|front|] == x && b[|last|] == x;
    assert forall i :: 0 <= i < |front| ==> a[i] == front[i];
    assert forall i :: 0 <= i < |last| ==> b[i] == last[i];
    forall id ensures id in front <==> id in last {
      assert id in a <==> id in front || id == x;
      assert id in b <==> id in last || id == x;
    }
  }

  /** After an upload, the rows of a title, in id order, are those of the uploaded tests of that title, in theirs. */
  lemma TitleRows(had: seq<Row>, next: nat, tests: seq<Test>, rows: seq<Row>, title: string)
    requires ById(had) && BelowId(had, next) && Holds(rows, AllIds(had, next, tests, |tests|), tests)
    ensures Ids(rows, title) == Chosen(AllIds(had, next, tests, |tests|), tests, |tests|, title)
  {
    var ids := AllIds(had, next, tests, |tests|);
    IdsAscend(rows, title);
    ChosenAscends(had, next, tests, ids, |tests|, title);
    SameIds(rows, ids, tests, title);
    AscendingSame(Ids(rows, title), Chosen(ids, tests, |tests|, title));
  }

  lemma SameIds(rows: seq<Row>, ids: seq<nat>, tests: seq<Test>, title: string)
    requires Holds(rows, ids, tests)
    ensures forall id :: id in Ids(rows, title) <==> id in Chosen(ids, tests, |tests|, title)
  {
    IdsAscend(rows, title);
    ChosenAre(ids, tests, |tests|, title);
    forall id ensures RowNamed(rows, id, title) <==> IsChosen(ids, tests, |tests|, title, id) {
      HeldTitle(rows, ids, tests, title, id);
    }
  }

  lemma HeldTitle(rows: seq<Row>, ids: seq<nat>, tests: seq<Test>, title: string, id: nat)
    requires Holds(rows, ids, tests)
    ensures RowNamed(rows, id, title) <==> IsChosen(ids, tests, |tests|, title, id)
  {
    if RowNamed(rows, id, title) {
      var i :| 0 <= i < |rows| && rows[i].id == id && rows[i].test.fullTitle == title;
      assert rows[i] in rows;
      var j :| 0 <= j < |tests| && rows[i] == Row(ids[j], tests[j]);
      assert tests[j].fullTitle == title && ids[j] == id;
    }
    if IsChosen(ids, tests, |tests|, title, id) {
      var j :| 0 <= j < |tests| && tests[j].fullTitle == title && ids[j] == id;
      assert StoredOne(ids, tests, |tests|, Row(ids[j], tests[j]));
      var i :| 0 <= i < |rows| && rows[i] == Row(ids[j], tests[j]);
      assert rows[i].id == id && rows[i].test.fullTitle == title;
    }
  }

  /** The n-th row of a title, after an upload, is the n-th there was, or was not there. */
  lemma NthSurvives(had: seq<Row>, next: nat, tests: seq<Test>, title: string, n: nat, id: nat)
    requires ById(had) && BelowId(had, next) && n < Named(tests, title)
    requires var chosen := Chosen(AllIds(had, next, tests, |tests|), tests, |tests|, title); n < |chosen| && id == chosen[n]
    ensures if n < |Ids(had, title)| then id == Ids(had, title)[n] else !HasId(had, id)
  {
    assert tests[..|tests|] == tests;
    var j := NamedHits(tests, |tests|, title, n);
    ChosenAt(AllIds(had, next, tests, |tests|), tests, |tests|, title);
    assert id == IdFor(had, next, tests, j);
  }

  /** The n-th uploaded test of a title is in the n-th row of that title. */
  lemma TestsInPlace(had: seq<Row>, next: nat, tests: seq<Test>, rows: seq<Row>, j: nat)
    requires ById(had) && BelowId(had, next) && j < |tests| && Holds(rows, AllIds(had, next, tests, |tests|), tests)
    ensures var n, mine := Named(tests[..j], tests[j].fullTitle), Ids(rows, tests[j].fullTitle);
            n < |mine| && Row(mine[n], tests[j]) in rows
  {
    var ids := AllIds(had, next, tests, |tests|);
    TitleRows(had, next, tests, rows, tests[j].fullTitle);
    ChosenAt(ids, tests, |tests|, tests[j].fullTitle);
    assert StoredOne(ids, tests, |tests|, Row(ids[j], tests[j]));
  }

  /** A title has as many rows as uploaded tests. The n-th of them is the n-th there was, as far as there was one, and
      every further one is new. */
  lemma RowsSurvive(had: seq<Row>, next: nat, tests: seq<Test>, rows: seq<Row>, title: string)
    requires ById(had) && BelowId(had, next) && Holds(rows, AllIds(had, next, tests, |tests|), tests)
    ensures |Ids(rows, title)| == Named(tests, title)
    ensures forall n :: 0 <= n < |Ids(rows, title)| ==>
              if n < |Ids(had, title)| then Ids(rows, title)[n] == Ids(had, title)[n] else !HasId(had, Ids(rows, title)[n])
  {
    var ids := Ids(rows, title);
    TitleRows(had, next, tests, rows, title);
    ChosenAt(AllIds(had, next, tests, |tests|), tests, |tests|, title);
    assert tests[..|tests|] == tests;
    forall n | 0 <= n < |ids| ensures if n < |Ids(had, title)| then ids[n] == Ids(had, title)[n] else !HasId(had, ids[n]) {
      NthSurvives(had, next, tests, title, n, ids[n]);
    }
  }

  /** Uploading the same report again changes nothing: every test keeps its row. */
  lemma UploadAgain(had: seq<Row>, next: nat, tests: seq<Test>, rows: seq<Row>, later: nat, again: seq<Row>)
    requires ById(had) && BelowId(had, next) && Holds(rows, AllIds(had, next, tests, |tests|), tests)
    requires BelowId(rows, later) && Holds(again, AllIds(rows, later, tests, |tests|), tests)
    ensures again == rows
  {
    var ids, ids2 := AllIds(had, next, tests, |tests|), AllIds(rows, later, tests, |tests|);
    forall j | 0 <= j < |tests| ensures ids2[j] == ids[j] {
      TitleRows(had, next, tests, rows, tests[j].fullTitle);
      ChosenAt(ids, tests, |tests|, tests[j].fullTitle);
    }
    assert ids2 == ids;
    SortedSame(rows, again);
  }

  /** Rows in id order are determined by what they are. */
  lemma {:induction false} SortedSame(a: seq<Row>, b: seq<Row>)
    requires ById(a) && ById(b) && |a| == |b| && forall row :: row in a <==> row in b
    ensures a == b
  {
    if a != [] {
      var x, y := a[|a| - 1], b[|b| - 1];
      assert x in b && y in a;
      assert x.id == y.id;
      assert x == y;
      var front, last := a[..|a| - 1], b[..|b| - 1];
      forall row ensures row in front <==> row in last {
        assert a == front + [x] && b == last + [x];
        assert row in a <==> row in front || row == x;
        assert row in b <==> row in last || row == x;
      }
      SortedSame(front, last);
    }
  }

  /** It is not refused either. */
  lemma UploadAgainWritable(had: seq<Row>, next: nat, tests: seq<Test>, rows: seq<Row>)
    requires ById(had) && BelowId(had, next) && Writable(had, tests)
    requires Holds(rows, AllIds(had, next, tests, |tests|), tests)
    ensures Writable(rows, tests)
  {
    forall k | 0 <= k < |tests| ensures WritableAt(rows, tests, k) {
      assert WritableAt(had, tests, k);
      forall p | 0 <= p < |rows| && SamePending(rows[p].test, tests[k])
        ensures |Ids(rows[..p], tests[k].fullTitle)| <= Named(tests[..k], tests[k].fullTitle)
      {
        OwnRow(had, next, tests, rows, k, p);
      }
    }
  }

  lemma OwnRow(had: seq<Row>, next: nat, tests: seq<Test>, rows: seq<Row>, k: nat, p: nat)
    requires ById(had) && BelowId(had, next) && Writable(had, tests) && k < |tests| && p < |rows|
    requires Holds(rows, AllIds(had, next, tests, |tests|), tests) && SamePending(rows[p].test, tests[k])
    ensures |Ids(rows[..p], tests[k].fullTitle)| == Named(tests[..k], tests[k].fullTitle)
  {
    var ids, title := AllIds(had, next, tests, |tests|), tests[k].fullTitle;
    assert rows[p] in rows;
    var j :| 0 <= j < |tests| && rows[p] == Row(ids[j], tests[j]);
    assert WritableAt(had, tests, k) && WritableAt(had, tests, j);
    assert j == k;
    IdAtRank(rows, p, |Ids(rows[..p], title)|);
    TitleRows(had, next, tests, rows, title);
    ChosenAt(ids, tests, |tests|, title);
    IdsAscend(rows, title);
  }

  // ---------------------------------------------------------------- which reports are refused

  /** Over a spec without rows, a report is refused if and only if two of its pending tests have one title. */
  lemma FirstUploadRefusedIff(tests: seq<Test>)
    ensures Writable([], tests) <==> forall i, j :: 0 <= i < j < |tests| ==> !SamePending(tests[i], tests[j])
  {
    if Writable([], tests) {
      forall i, j | 0 <= i < j < |tests| ensures !SamePending(tests[i], tests[j]) {
        assert WritableAt([], tests, j);
      }
    } else {
      var k :| 0 <= k < |tests| && !WritableAt([], tests, k);
    }
  }

  /** Old rows never help: a report that is refused over none is refused over any. */
  lemma RefusedOver(had: seq<Row>, tests: seq<Test>)
    ensures Writable(had, tests) ==> Writable([], tests)
  {
    if Writable(had, tests) {
      forall k | 0 <= k < |tests| ensures WritableAt([], tests, k) {
        assert WritableAt(had, tests, k);
      }
    }
  }
}
