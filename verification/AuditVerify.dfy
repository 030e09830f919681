// The paged verifier: it reads the log page by page while other sessions may be appending, and
// agrees with a single pass.
module AuditVerify {
  import opened Text
  import opened AuditChain
  import opened AuditTable

  /** The organisation's rows at each page read. The table may change between pages, finitely often. */
  function OrgViews(tables: seq<seq<Row>>, org: int): (views: seq<seq<Row>>)
    ensures |views| == |tables| && forall k :: 0 <= k < |tables| ==> views[k] == OrgRows(tables[k], org)
  {
    seq(|tables|, k requires 0 <= k < |tables| => OrgRows(tables[k], org))
  }

  function ViewAt(views: seq<seq<Row>>, k: nat): seq<Row>
    requires views != []
  {
    if k < |views| then views[k] else views[|views| - 1]
  }

  function LastId(page: seq<Row>): Option<nat>
    requires page != []
  {
    Some(page[|page| - 1].content.id)
  }

  /** A later cursor leaves fewer rows to read. */
  lemma PageAdvances(rows: seq<Row>, cursor: Option<nat>, limit: nat)
    requires Page(rows, cursor, limit) != []
    ensures |After(rows, LastId(Page(rows, cursor, limit)))| < |After(rows, cursor)|
  {
    var page := Page(rows, cursor, limit);
    AfterAbove(rows, cursor);
    assert page[|page| - 1] in After(rows, cursor);
    AfterShrinks(rows, cursor, page[|page| - 1]);
  }

  lemma {:induction false} AfterShrinks(rows: seq<Row>, cursor: Option<nat>, row: Row)
    requires row in After(rows, cursor) && (cursor.None? || row.content.id > cursor.value)
    ensures |After(rows, Some(row.content.id))| < |After(rows, cursor)|
  {
    var later := Some(row.content.id);
    AfterFewer(rows[1..], cursor, later.value);
    if rows[0] != row {
      AfterShrinks(rows[1..], cursor, row);
    }
  }

  lemma {:induction false} AfterFewer(rows: seq<Row>, cursor: Option<nat>, later: nat)
    requires cursor.None? || cursor.value <= later
    ensures |After(rows, Some(later))| <= |After(rows, cursor)|
  {
    if rows != [] { AfterFewer(rows[1..], cursor, later); }
  }

  /** All rows the paged read sees from page `k` on. */
  function Observed(views: seq<seq<Row>>, batchSize: nat, k: nat, cursor: Option<nat>): seq<Row>
    requires views != []
    decreases if k < |views| then |views| - k else 0, |After(ViewAt(views, k), cursor)|
  {
    var page := Page(ViewAt(views, k), cursor, batchSize);
    if page == [] || |page| < batchSize then page
    else
      PageAdvances(ViewAt(views, k), cursor, batchSize);
      page + Observed(views, batchSize, k + 1, LastId(page))
  }

  /** The walk over one page, from where the pages before it left off; it stops at the first broken row. */
  method WalkPage(h: Hasher, rows: seq<Row>, start: Walk, ghost before: seq<Row>) returns (p: Progress)
    requires WalkLog(h, before) == Going(start)
    ensures WalkLog(h, before + rows) == p
  {
    var w := start;
    var i := 0;
    assert before + rows[..0] == before;
    while i < |rows|
      invariant 0 <= i <= |rows|
      invariant WalkLog(h, before + rows[..i]) == Going(w)
    {
      var row := rows[i];
      WalkExtends(h, before, rows, i);
      w := w.(totalRows := w.totalRows + 1);
      if !HasHash(row) {
        if w.started {
          WalkStops(h, before, rows, i + 1);
          return Stopped(Broken(w, row, HashCleared));
        }
        w := w.(legacyRows := w.legacyRows + 1);
      } else {
        var prev := PrevHash(row);
        if prev != w.expectedPrev {
          WalkStops(h, before, rows, i + 1);
          return Stopped(Broken(w, row, LinkBroken));
        }
        if h(prev, row.content) != row.entryHash.value {
          WalkStops(h, before, rows, i + 1);
          return Stopped(Broken(w, row, RowModified));
        }
        w := w.(started := true, hashedRows := w.hashedRows + 1, expectedPrev := row.entryHash.value);
      }
      i := i + 1;
    }
    assert rows[..i] == rows;
    p := Going(w);
  }

  lemma WalkExtends(h: Hasher, before: seq<Row>, rows: seq<Row>, i: nat)
    requires i < |rows| && WalkLog(h, before + rows[..i]).Going?
    ensures WalkLog(h, before + rows[..i + 1]) == WalkRow(h, WalkLog(h, before + rows[..i]).walk, rows[i])
  {
    var longer := before + rows[..i + 1];
    assert longer[..|longer| - 1] == before + rows[..i];
  }

  lemma WalkStops(h: Hasher, before: seq<Row>, rows: seq<Row>, i: nat)
    requires i <= |rows| && WalkLog(h, before + rows[..i]).Stopped?
    ensures WalkLog(h, before + rows) == WalkLog(h, before + rows[..i])
  {
    var n := |before| + i;
    assert (before + rows)[..n] == before + rows[..i];
    WalkStaysStopped(h, before + rows, n);
  }

  /** The result when every row has passed. */
  function Passed(w: Walk): VerifyResult {
    VerifyResult(true, w.totalRows, w.legacyRows, w.hashedRows, None, None)
  }

  /** The paged walk reports exactly the verdict of a single pass over the rows it read. */
  method VerifyAuditChain(h: Hasher, tables: seq<seq<Row>>, orgId: int, batchSize: nat) returns (r: VerifyResult)
    requires tables != []
    ensures r == Verdict(h, Observed(OrgViews(tables, orgId), batchSize, 0, None))
  {
    var views := OrgViews(tables, orgId);
    var w := WALK_START;
    var lastId: Option<nat> := None;
    var k := 0;
    ghost var seen: seq<Row> := [];
    ghost var rest := Observed(views, batchSize, 0, None);
    ghost var all := rest;
    while true
      invariant rest == Observed(views, batchSize, k, lastId) && all == seen + rest
      invariant WalkLog(h, seen) == Going(w)
      decreases if k < |views| then |views| - k else 0, |After(ViewAt(views, k), lastId)|
    {
      var rows := Page(ViewAt(views, k), lastId, batchSize);
      if rows == [] {
        NoMorePages(h, views, batchSize, k, lastId, w, seen, rest, all);
        return Passed(w);
      }
      var p := WalkPage(h, rows, w, seen);
      PageAdvances(ViewAt(views, k), lastId, batchSize);
      seen, rest := PageStep(h, views, batchSize, k, lastId, rows, p, seen, rest, all);
      if p.Stopped? { return p.result; }
      w, lastId := p.walk, LastId(rows);
      if |rows| < batchSize { return Passed(w); }
      k := k + 1;
    }
  }

  /** Once a page comes back empty, what was walked is everything the pages show. */
  lemma NoMorePages(h: Hasher, views: seq<seq<Row>>, batchSize: nat, k: nat, cursor: Option<nat>, w: Walk,
                    seen: seq<Row>, rest: seq<Row>, all: seq<Row>)
    requires views != [] && Page(ViewAt(views, k), cursor, batchSize) == []
    requires rest == Observed(views, batchSize, k, cursor) && all == seen + rest && WalkLog(h, seen) == Going(w)
    ensures Verdict(h, all) == Passed(w)
  {
    assert all == seen;
  }

  /** What a page decides and what it leaves to be read. */
  lemma PageStep(h: Hasher, views: seq<seq<Row>>, batchSize: nat, k: nat, cursor: Option<nat>, page: seq<Row>,
                 p: Progress, seen: seq<Row>, rest: seq<Row>, all: seq<Row>)
    returns (longer: seq<Row>, later: seq<Row>)
    requires views != [] && page == Page(ViewAt(views, k), cursor, batchSize) && page != []
    requires rest == Observed(views, batchSize, k, cursor) && all == seen + rest && p == WalkLog(h, seen + page)
    ensures later == if |page| < batchSize then [] else Observed(views, batchSize, k + 1, LastId(page))
    ensures all == longer + later && WalkLog(h, longer) == p
    ensures p.Stopped? ==> Verdict(h, all) == p.result
    ensures p.Going? && |page| < batchSize ==> Verdict(h, all) == Passed(p.walk)
  {
    longer := seen + page;
    later := if |page| < batchSize then [] else Observed(views, batchSize, k + 1, LastId(page));
    assert rest == page + later;
    Regroup(seen, page, later);
    if p.Stopped? { SeenDecides(h, longer, later); }
  }

  lemma Regroup(seen: seq<Row>, page: seq<Row>, later: seq<Row>)
    ensures seen + (page + later) == seen + page + later
    ensures later == [] ==> seen + (page + later) == seen + page
  {
  }

  lemma SeenDecides(h: Hasher, seen: seq<Row>, rest: seq<Row>)
    requires WalkLog(h, seen).Stopped?
    ensures Verdict(h, seen + rest) == WalkLog(h, seen).result
  {
    assert (seen + rest)[..|seen|] == seen;
    WalkStaysStopped(h, seen + rest, |seen|);
  }

  // ---------------------------------------------------------------- pages against a single pass

  /** The log only grows at its end between pages: what append-only writers under the lock guarantee. */
  predicate Growing(views: seq<seq<Row>>) {
    && views != []
    && ById(views[|views| - 1])
    && (forall j, k :: 0 <= j <= k < |views| ==> views[j] <= views[k])
  }

  /** The cursor after the first `n` rows of a log. */
  function CursorAt(log: seq<Row>, n: nat): Option<nat>
    requires n <= |log|
  {
    if n == 0 then None else Some(log[n - 1].content.id)
  }

  lemma PageOfPrefix(here: seq<Row>, last: seq<Row>, n: nat, limit: nat)
    requires ById(last) && here <= last && n <= |here|
    ensures var page := Page(here, CursorAt(last, n), limit);
            && |page| == (if |here| - n <= limit then |here| - n else limit)
            && page <= last[n..]
            && (page != [] ==> LastId(page) == CursorAt(last, n + |page|))
  {
    if n == 0 { AfterAll(here, None); } else { AfterOrdered(here, n); }
  }

  lemma PrefixOfTail(s: seq<Row>, n: nat, page: seq<Row>, rest: seq<Row>)
    requires n + |page| <= |s| && page <= s[n..] && rest <= s[n + |page|..]
    ensures page + rest <= s[n..]
  {
    assert s[n..][..|page|] == page && s[n..][|page|..] == s[n + |page|..];
  }

  lemma NextView(views: seq<seq<Row>>, k: nat, last: seq<Row>)
    requires Growing(views) && last == views[|views| - 1]
    ensures ViewAt(views, k) <= ViewAt(views, k + 1) <= last
  {
  }

  lemma {:induction false} ObservedFrom(views: seq<seq<Row>>, batchSize: nat, k: nat, n: nat, last: seq<Row>,
                                        here: seq<Row>, seen: seq<Row>)
    requires Growing(views) && batchSize > 0 && last == views[|views| - 1] && here == ViewAt(views, k)
    requires n <= |here| <= |last| && seen == Observed(views, batchSize, k, CursorAt(last, n))
    ensures seen <= last[n..] && |here| <= n + |seen|
    decreases if k < |views| then |views| - k else 0, |here| - n
  {
    NextView(views, k, last);
    PageOfPrefix(here, last, n, batchSize);
    var page := Page(here, CursorAt(last, n), batchSize);
    if |page| >= batchSize {
      var m, next := n + |page|, ViewAt(views, k + 1);
      var rest := Observed(views, batchSize, k + 1, CursorAt(last, m));
      ObservedFrom(views, batchSize, k + 1, m, last, next, rest);
      PrefixOfTail(last, n, page, rest);
      assert seen == page + rest;
    } else {
      assert seen == page;
    }
  }

  /** For every page size above zero, what the pages show is the log up to some moment no earlier
      than the first read: appends landing between pages never tear it. */
  lemma PagesSeeAPrefix(views: seq<seq<Row>>, batchSize: nat)
    requires Growing(views) && batchSize > 0
    ensures views[0] <= Observed(views, batchSize, 0, None) <= views[|views| - 1]
  {
    assert views[0] <= views[|views| - 1];
    ObservedFrom(views, batchSize, 0, 0, views[|views| - 1], views[0], Observed(views, batchSize, 0, None));
    assert views[|views| - 1][0..] == views[|views| - 1];
  }

  /** On a log that does not change, the paged verdict is the single-pass verdict for every page size. */
  lemma PagedEqualsSinglePass(h: Hasher, table: seq<Row>, org: int, batchSize: nat)
    requires UniqueIds(table) && batchSize > 0
    ensures Verdict(h, Observed(OrgViews([table], org), batchSize, 0, None)) == Verdict(h, OrgRows(table, org))
  {
    OrgRowsById(table, org);
    PagesSeeAPrefix(OrgViews([table], org), batchSize);
    assert Observed(OrgViews([table], org), batchSize, 0, None) == OrgRows(table, org);
  }

  /** Honest appends between pages never cause a broken verdict. */
  lemma AppendsNeverBreakVerdict(h: Hasher, views: seq<seq<Row>>, batchSize: nat)
    requires Growing(views) && batchSize > 0
    requires Verdict(h, views[|views| - 1]).ok
    ensures Verdict(h, Observed(views, batchSize, 0, None)).ok
  {
    PagesSeeAPrefix(views, batchSize);
    var seen, last := Observed(views, batchSize, 0, None), views[|views| - 1];
    VerdictSound(h, last);
    TruncationUndetected(h, last, |seen|);
    assert last[..|seen|] == seen;
    VerdictSound(h, seen);
  }

  /** A page size of zero reads nothing and reports any log, however damaged, as intact and empty. */
  lemma ZeroPageSeesNothing(h: Hasher, views: seq<seq<Row>>)
    requires views != []
    ensures Verdict(h, Observed(views, 0, 0, None)) == VerifyResult(true, 0, 0, 0, None, None)
  {
    assert Page(ViewAt(views, 0), None, 0) == [];
  }

  lemma {:induction false} SomeRowsCounted(h: Hasher, rows: seq<Row>)
    requires rows != []
    ensures Verdict(h, rows).totalRows > 0
  {
    var front := rows[..|rows| - 1];
    if front == [] {
      assert WalkLog(h, front) == Going(WALK_START);
    } else {
      SomeRowsCounted(h, front);
    }
  }

  /** On a log that does not change, the paged verdict is the single-pass verdict if and only if the page size is
      above zero or the log is empty. */
  lemma PagedIsSinglePassIff(h: Hasher, table: seq<Row>, org: int, batchSize: nat)
    requires UniqueIds(table)
    ensures Verdict(h, Observed(OrgViews([table], org), batchSize, 0, None)) == Verdict(h, OrgRows(table, org))
            <==> batchSize > 0 || OrgRows(table, org) == []
  {
    var log := OrgRows(table, org);
    if batchSize > 0 {
      PagedEqualsSinglePass(h, table, org, batchSize);
    } else {
      ZeroPageSeesNothing(h, OrgViews([table], org));
      if log == [] { assert WalkLog(h, log) == Going(WALK_START); } else { SomeRowsCounted(h, log); }
    }
  }
}
