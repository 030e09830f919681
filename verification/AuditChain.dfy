// The per-organisation audit hash chain: what a row's hash covers, the paged walk that
// verifies a log, and what a verifying log does and does not rule out.
module AuditChain {
  import opened Text
  import Json

  const GENESIS_HASH: string := Repeat('0', 64)

  /** SHA-256 in hexadecimal, idealised: no two texts share a digest, and a digest is never empty,
      never the genesis value and holds no line break. */
  ghost predicate CollisionFree(h: string -> string) {
    && (forall x, y :: h(x) == h(y) ==> x == y)
    && (forall x :: h(x) != "" && h(x) != GENESIS_HASH && '\n' !in h(x))
  }

  // ---------------------------------------------------------------- what a hash covers

  /** The columns of an audit_log row that its hash is computed from. Times are microseconds, as the
      database keeps them. */
  datatype AuditChainFields = AuditChainFields(
    id: nat,
    orgId: int,
    userId: Option<int>,
    action: string,
    targetType: Option<string>,
    targetId: Option<string>,
    detail: Json.Stored,
    createdAt: int)

  /** The eight values that are hashed: `detail` as its canonical text, the time as it survives a
      millisecond-precision Date. */
  datatype Content = Content(
    id: nat,
    orgId: int,
    userId: Option<int>,
    action: string,
    targetType: Option<string>,
    targetId: Option<string>,
    detailText: string,
    millis: int)

  function ContentOf(f: AuditChainFields): Content {
    Content(f.id, f.orgId, f.userId, f.action, f.targetType, f.targetId,
            Json.CanonicalJson(f.detail), f.createdAt / 1000)
  }

  /** A row as the chain sees it: what is hashed, and the two hash columns. */
  datatype Row = Row(content: Content, prevHash: Option<string>, entryHash: Option<string>)

  /** Two rows have the same hashed content exactly when their columns agree, `detail` up to key
      order at every depth and the time up to the millisecond. */
  lemma SameContentMeans(a: AuditChainFields, b: AuditChainFields)
    ensures ContentOf(a) == ContentOf(b) <==>
              && a.id == b.id && a.orgId == b.orgId && a.userId == b.userId && a.action == b.action
              && a.targetType == b.targetType && a.targetId == b.targetId
              && Json.Same(a.detail, b.detail) && a.createdAt / 1000 == b.createdAt / 1000
  {
    Json.CanonicalIffSame(a.detail, b.detail);
  }

  function TextOrNull(t: Option<string>): Json.Value {
    match t
    case None => Json.Null
    case Some(s) => Json.Str(s)
  }

  function HashedFields(c: Content): Json.Value {
    Json.Array([
      Json.Str(Decimal(c.id)),
      Json.Number(Decimal(c.orgId)),
      UserOrNull(c.userId),
      Json.Str(c.action),
      TextOrNull(c.targetType),
      TextOrNull(c.targetId),
      Json.Str(c.detailText),
      Json.Str(Decimal(c.millis))])
  }

  /** The text whose digest is an entry hash. `detail` is JSON inside a JSON string. */
  function EntryText(prev: string, c: Content): string {
    prev + "\n" + Json.CanonicalJson(HashedFields(c))
  }

  function QuotedOrNull(t: Option<string>): string { if t.Some? then Json.Quote(t.value) else "null" }

  /** What is hashed, to the letter: the predecessor's hash, a line break, and the eight values in this order between
      brackets, the id, the time and the canonical `detail` as strings. */
  lemma HashedTextIs(prev: string, c: Content)
    ensures EntryText(prev, c) ==
            prev + "\n" + ("[" + Join([
              Json.Quote(Decimal(c.id)), Decimal(c.orgId), if c.userId.Some? then Decimal(c.userId.value) else "null",
              Json.Quote(c.action), QuotedOrNull(c.targetType), QuotedOrNull(c.targetId), Json.Quote(c.detailText),
              Json.Quote(Decimal(c.millis))], ",") + "]")
  {
    var texts := [
      Json.Quote(Decimal(c.id)), Decimal(c.orgId), if c.userId.Some? then Decimal(c.userId.value) else "null",
      Json.Quote(c.action), QuotedOrNull(c.targetType), QuotedOrNull(c.targetId), Json.Quote(c.detailText),
      Json.Quote(Decimal(c.millis))];
    Json.ElementsJoined(HashedFields(c).items, texts);
  }

  /** How content is hashed, given the predecessor's hash. The chain is read through this alone. */
  type Hasher = (string, Content) -> string

  function ComputeEntryHash(digest: string -> string): Hasher {
    (prev, c) => digest(EntryText(prev, c))
  }

  lemma DecimalNumeral(n: int)
    ensures Json.Numeral(Decimal(n))
  {
    var d := Digits(if n < 0 then -n else n);
    assert d[0] in d;
  }

  lemma HashedFieldsWellFormed(c: Content)
    ensures Json.WellFormed(HashedFields(c))
  {
    DecimalNumeral(c.orgId);
    if c.userId.Some? { DecimalNumeral(c.userId.value); }
  }

  /** Arrays that are the same are the same item by item. */
  lemma SameItems(xs: seq<Json.Value>, ys: seq<Json.Value>, i: nat)
    requires Json.Same(Json.Array(xs), Json.Array(ys)) && i < |xs|
    ensures i < |ys| && Json.Same(xs[i], ys[i])
  {
  }

  lemma SameFields(a: Content, b: Content, i: nat)
    requires Json.Same(HashedFields(a), HashedFields(b)) && i < 8
    ensures Json.Same(HashedFields(a).items[i], HashedFields(b).items[i])
  {
    SameItems(HashedFields(a).items, HashedFields(b).items, i);
  }

  lemma FieldsDecide(a: Content, b: Content)
    requires Json.Same(HashedFields(a), HashedFields(b))
    ensures a == b
  {
    forall i | 0 <= i < 8 ensures Json.Same(HashedFields(a).items[i], HashedFields(b).items[i]) { SameFields(a, b, i); }
    ItemsDecide(a, b, HashedFields(a).items, HashedFields(b).items);
  }

  lemma ItemsDecide(a: Content, b: Content, xs: seq<Json.Value>, ys: seq<Json.Value>)
    requires |xs| == |ys| == 8 && forall i :: 0 <= i < 8 ==> Json.Same(xs[i], ys[i])
    requires xs[0] == Json.Str(Decimal(a.id)) && ys[0] == Json.Str(Decimal(b.id))
    requires xs[1] == Json.Number(Decimal(a.orgId)) && ys[1] == Json.Number(Decimal(b.orgId))
    requires xs[2] == UserOrNull(a.userId) && ys[2] == UserOrNull(b.userId)
    requires xs[3] == Json.Str(a.action) && ys[3] == Json.Str(b.action)
    requires xs[4] == TextOrNull(a.targetType) && ys[4] == TextOrNull(b.targetType)
    requires xs[5] == TextOrNull(a.targetId) && ys[5] == TextOrNull(b.targetId)
    requires xs[6] == Json.Str(a.detailText) && ys[6] == Json.Str(b.detailText)
    requires xs[7] == Json.Str(Decimal(a.millis)) && ys[7] == Json.Str(Decimal(b.millis))
    ensures a == b
  {
    NumbersDecide(a, b);
    UserDecides(a.userId, b.userId);
    TextsDecide(a, b);
    TargetDecides(a.targetType, b.targetType);
    TargetDecides(a.targetId, b.targetId);
  }

  lemma TextsDecide(a: Content, b: Content)
    requires Json.Same(Json.Str(a.action), Json.Str(b.action))
    requires Json.Same(Json.Str(a.detailText), Json.Str(b.detailText))
    ensures a.action == b.action && a.detailText == b.detailText
  {
  }

  lemma NumbersDecide(a: Content, b: Content)
    requires Json.Same(Json.Str(Decimal(a.id)), Json.Str(Decimal(b.id)))
    requires Json.Same(Json.Number(Decimal(a.orgId)), Json.Number(Decimal(b.orgId)))
    requires Json.Same(Json.Str(Decimal(a.millis)), Json.Str(Decimal(b.millis)))
    ensures a.id == b.id && a.orgId == b.orgId && a.millis == b.millis
  {
    DecimalInjective(a.id, b.id);
    DecimalInjective(a.orgId, b.orgId);
    DecimalInjective(a.millis, b.millis);
  }

  lemma TargetDecides(a: Option<string>, b: Option<string>)
    requires Json.Same(TextOrNull(a), TextOrNull(b))
    ensures a == b
  {
  }

  function UserOrNull(user: Option<int>): Json.Value {
    if user.None? then Json.Null else Json.Number(Decimal(user.value))
  }

  lemma UserDecides(a: Option<int>, b: Option<int>)
    requires Json.Same(UserOrNull(a), UserOrNull(b))
    ensures a == b
  {
    if a.Some? { DecimalInjective(a.value, b.value); }
  }

  /** Different content has different hashed text, despite the double encoding of `detail`. */
  lemma HashedTextDecides(a: Content, b: Content)
    requires Json.CanonicalJson(HashedFields(a)) == Json.CanonicalJson(HashedFields(b))
    ensures a == b
  {
    HashedFieldsWellFormed(a);
    HashedFieldsWellFormed(b);
    Json.CanonicalIffSame(HashedFields(a), HashedFields(b));
    FieldsDecide(a, b);
  }

  lemma FirstLine(p: string, q: string, s: string, t: string)
    requires '\n' !in p && '\n' !in q
    requires p + "\n" + s == q + "\n" + t
    ensures p == q && s == t
  {
    var left, right := p + "\n" + s, q + "\n" + t;
    Regroup3(p, "\n", s);
    Regroup3(q, "\n", t);
    FirstIndexAfter(p, '\n', s);
    FirstIndexAfter(q, '\n', t);
    assert left[..|p|] == p && right[..|q|] == q;
    assert left[|p| + 1..] == s && right[|q| + 1..] == t;
  }

  /** An entry hash that determines the predecessor and the content it was computed from, and that
      is never empty, never the genesis value and one line long. */
  ghost predicate Binding(h: Hasher) {
    && (forall p, a, q, b :: '\n' !in p && '\n' !in q && h(p, a) == h(q, b) ==> p == q && a == b)
    && (forall p, a :: h(p, a) != "" && h(p, a) != GENESIS_HASH && '\n' !in h(p, a))
  }

  /** A collision-free digest makes the entry hash binding. */
  lemma EntryHashBinds(digest: string -> string)
    requires CollisionFree(digest)
    ensures Binding(ComputeEntryHash(digest))
  {
    var h := ComputeEntryHash(digest);
    forall p, a, q, b | '\n' !in p && '\n' !in q && h(p, a) == h(q, b) ensures p == q && a == b {
      EntryTextDecides(p, a, q, b);
    }
    forall p, a ensures h(p, a) != "" && h(p, a) != GENESIS_HASH && '\n' !in h(p, a) {
      assert h(p, a) == digest(EntryText(p, a));
    }
  }

  lemma EntryTextDecides(p: string, a: Content, q: string, b: Content)
    requires '\n' !in p && '\n' !in q && EntryText(p, a) == EntryText(q, b)
    ensures p == q && a == b
  {
    FirstLine(p, q, Json.CanonicalJson(HashedFields(a)), Json.CanonicalJson(HashedFields(b)));
    HashedTextDecides(a, b);
  }

  // ---------------------------------------------------------------- the one-pass walk

  datatype Reason = HashCleared | LinkBroken | RowModified

  datatype VerifyResult = VerifyResult(
    ok: bool,
    totalRows: nat,
    legacyRows: nat,
    hashedRows: nat,
    firstBrokenId: Option<nat>,
    reason: Option<Reason>)

  /** The running variables of the walk. */
  datatype Walk = Walk(totalRows: nat, legacyRows: nat, hashedRows: nat, started: bool, expectedPrev: string)

  const WALK_START := Walk(0, 0, 0, false, GENESIS_HASH)

  datatype Progress = Going(walk: Walk) | Stopped(result: VerifyResult)

  /** A NULL or empty entry_hash counts as no hash. */
  predicate HasHash(row: Row) { row.entryHash.Some? && row.entryHash.value != "" }

  function PrevHash(row: Row): string { if row.prevHash.Some? then row.prevHash.value else "" }

  function Broken(w: Walk, row: Row, reason: Reason): VerifyResult {
    VerifyResult(false, w.totalRows, w.legacyRows, w.hashedRows, Some(row.content.id), Some(reason))
  }

  /** One row of the walk. */
  function WalkRow(h: Hasher, before: Walk, row: Row): Progress {
    var w := before.(totalRows := before.totalRows + 1);
    if !HasHash(row) then
      if w.started then Stopped(Broken(w, row, HashCleared))
      else Going(w.(legacyRows := w.legacyRows + 1))
    else if PrevHash(row) != w.expectedPrev then Stopped(Broken(w, row, LinkBroken))
    else if h(PrevHash(row), row.content) != row.entryHash.value then Stopped(Broken(w, row, RowModified))
    else Going(w.(started := true, hashedRows := w.hashedRows + 1, expectedPrev := row.entryHash.value))
  }

  function WalkLog(h: Hasher, rows: seq<Row>): Progress {
    if rows == [] then Going(WALK_START)
    else
      match WalkLog(h, rows[..|rows| - 1])
      case Stopped(result) => Stopped(result)
      case Going(w) => WalkRow(h, w, rows[|rows| - 1])
  }

  /** The verdict of a single pass over a log. */
  function Verdict(h: Hasher, rows: seq<Row>): VerifyResult {
    match WalkLog(h, rows)
    case Stopped(result) => result
    case Going(w) => VerifyResult(true, w.totalRows, w.legacyRows, w.hashedRows, None, None)
  }

  // ---------------------------------------------------------------- what the verdict means

  function LegacyRows(rows: seq<Row>): (k: nat)
    ensures k <= |rows|
    ensures forall i :: 0 <= i < k ==> !HasHash(rows[i])
    ensures k < |rows| ==> HasHash(rows[k])
  {
    if rows == [] || HasHash(rows[0]) then 0 else 1 + LegacyRows(rows[1..])
  }

  lemma {:induction false} LegacyIs(rows: seq<Row>, k: nat)
    requires k <= |rows| && (forall i :: 0 <= i < k ==> !HasHash(rows[i])) && (k < |rows| ==> HasHash(rows[k]))
    ensures LegacyRows(rows) == k
  {
    if k > 0 { LegacyIs(rows[1..], k - 1); }
  }

  function ExpectedPrev(rows: seq<Row>, i: nat): string
    requires LegacyRows(rows) <= i < |rows|
  {
    if i == LegacyRows(rows) then GENESIS_HASH
    else if HasHash(rows[i - 1]) then rows[i - 1].entryHash.value else ""
  }

  /** Row `i` is hashed, links to its predecessor and its hash matches its content. */
  ghost predicate Linked(h: Hasher, rows: seq<Row>, i: nat)
    requires LegacyRows(rows) <= i < |rows|
  {
    && HasHash(rows[i])
    && PrevHash(rows[i]) == ExpectedPrev(rows, i)
    && rows[i].entryHash.value == h(PrevHash(rows[i]), rows[i].content)
  }

  /** A leading run of unhashed rows, then one unbroken chain from the genesis value. */
  ghost predicate Intact(h: Hasher, rows: seq<Row>) {
    forall i :: LegacyRows(rows) <= i < |rows| ==> Linked(h, rows, i)
  }

  lemma {:induction false} LegacyOfPrefix(rows: seq<Row>, n: nat)
    requires n <= |rows|
    ensures LegacyRows(rows[..n]) == if n < LegacyRows(rows) then n else LegacyRows(rows)
  {
    var k, j := LegacyRows(rows), LegacyRows(rows[..n]);
    if j < n { assert HasHash(rows[..n][j]); }
    if k < n { assert HasHash(rows[..n][k]); }
  }

  lemma LinkedInPrefix(h: Hasher, rows: seq<Row>, n: nat, i: nat)
    requires LegacyRows(rows) <= i < n <= |rows|
    ensures LegacyRows(rows[..n]) <= i < |rows[..n]|
    ensures Linked(h, rows[..n], i) == Linked(h, rows, i)
  {
    LegacyOfPrefix(rows, n);
    assert i > 0 ==> rows[..n][i - 1] == rows[i - 1];
  }

  /** Cutting the tail of an intact log leaves an intact log: a truncated tail cannot be seen. */
  lemma TruncationUndetected(h: Hasher, rows: seq<Row>, n: nat)
    requires Intact(h, rows) && n <= |rows|
    ensures Intact(h, rows[..n])
  {
    LegacyOfPrefix(rows, n);
    forall i | LegacyRows(rows[..n]) <= i < n ensures Linked(h, rows[..n], i) {
      LinkedInPrefix(h, rows, n, i);
    }
  }

  /** Where the walk stands after an intact log. */
  function WalkOf(rows: seq<Row>): Walk {
    var k := LegacyRows(rows);
    Walk(|rows|, k, |rows| - k, k < |rows|,
         if k == |rows| then GENESIS_HASH
         else if HasHash(rows[|rows| - 1]) then rows[|rows| - 1].entryHash.value else "")
  }

  lemma {:induction false} WalkIntact(h: Hasher, rows: seq<Row>)
    requires Intact(h, rows)
    ensures WalkLog(h, rows) == Going(WalkOf(rows))
  {
    if rows != [] {
      var front := rows[..|rows| - 1];
      TruncationUndetected(h, rows, |rows| - 1);
      WalkIntact(h, front);
      WalkOneMore(h, rows, front, rows[|rows| - 1], WalkOf(front));
    }
  }

  lemma WalkOneMore(h: Hasher, rows: seq<Row>, front: seq<Row>, last: Row, w: Walk)
    requires rows != [] && Intact(h, rows) && front == rows[..|rows| - 1] && last == rows[|rows| - 1] && w == WalkOf(front)
    ensures WalkRow(h, w, last) == Going(WalkOf(rows))
  {
    LegacyOfPrefix(rows, |rows| - 1);
    if LegacyRows(rows) < |rows| { assert Linked(h, rows, |rows| - 1); }
  }

  lemma {:induction false} WalkNotIntact(h: Hasher, rows: seq<Row>)
    requires !Intact(h, rows)
    ensures WalkLog(h, rows).Stopped?
  {
    var front := rows[..|rows| - 1];
    if Intact(h, front) {
      WalkIntact(h, front);
      LastNotLinked(h, rows, front);
      WalkStopsAtLast(h, rows, front, rows[|rows| - 1], WalkOf(front));
    } else {
      WalkNotIntact(h, front);
    }
  }

  lemma LastNotLinked(h: Hasher, rows: seq<Row>, front: seq<Row>)
    requires !Intact(h, rows) && front == rows[..|rows| - 1] && Intact(h, front)
    ensures LegacyRows(rows) < |rows| && !Linked(h, rows, |rows| - 1)
  {
    LegacyOfPrefix(rows, |rows| - 1);
    var i: nat :| LegacyRows(rows) <= i < |rows| && !Linked(h, rows, i);
    if i < |rows| - 1 { LinkedInPrefix(h, rows, |rows| - 1, i); }
  }

  lemma WalkStopsAtLast(h: Hasher, rows: seq<Row>, front: seq<Row>, last: Row, w: Walk)
    requires LegacyRows(rows) < |rows| && !Linked(h, rows, |rows| - 1)
    requires front == rows[..|rows| - 1] && last == rows[|rows| - 1] && w == WalkOf(front)
    ensures WalkRow(h, w, last).Stopped?
  {
    WalkExpects(rows, front, last, w);
  }

  /** Past the legacy rows, the walk expects what the chain does. */
  lemma WalkExpects(rows: seq<Row>, front: seq<Row>, last: Row, w: Walk)
    requires LegacyRows(rows) < |rows| && front == rows[..|rows| - 1] && last == rows[|rows| - 1] && w == WalkOf(front)
    ensures w.expectedPrev == ExpectedPrev(rows, |rows| - 1) && (w.started || HasHash(last))
  {
    LegacyOfPrefix(rows, |rows| - 1);
  }

  lemma {:induction false} WalkStaysStopped(h: Hasher, rows: seq<Row>, n: nat)
    requires n <= |rows| && WalkLog(h, rows[..n]).Stopped?
    ensures WalkLog(h, rows) == WalkLog(h, rows[..n])
  {
    if n == |rows| {
      assert rows[..n] == rows;
    } else {
      var front := rows[..|rows| - 1];
      assert front[..n] == rows[..n];
      WalkStaysStopped(h, front, n);
    }
  }

  /** The verdict is "ok" exactly on intact logs, and then counts the legacy and the chained rows. */
  lemma VerdictSound(h: Hasher, rows: seq<Row>)
    ensures Verdict(h, rows).ok <==> Intact(h, rows)
    ensures Verdict(h, rows).ok ==>
              Verdict(h, rows) == VerifyResult(true, |rows|, LegacyRows(rows), |rows| - LegacyRows(rows), None, None)
  {
    if Intact(h, rows) { WalkIntact(h, rows); } else { WalkNotIntact(h, rows); StoppedNotOk(h, rows); }
  }

  lemma {:induction false} StoppedNotOk(h: Hasher, rows: seq<Row>)
    requires WalkLog(h, rows).Stopped?
    ensures !WalkLog(h, rows).result.ok
  {
    if WalkLog(h, rows[..|rows| - 1]).Stopped? { StoppedNotOk(h, rows[..|rows| - 1]); }
  }

  /** A log whose last row alone breaks it. */
  lemma BreaksAtEnd(h: Hasher, rows: seq<Row>, front: seq<Row>)
    requires rows != [] && front == rows[..|rows| - 1] && Intact(h, front) && !Verdict(h, rows).ok
    ensures var n, row, v := |rows| - 1, rows[|rows| - 1], Verdict(h, rows);
            && v.firstBrokenId == Some(row.content.id) && v.totalRows == n + 1
            && v.legacyRows == LegacyRows(front) && v.hashedRows == n - LegacyRows(front)
            && v.reason == Some(
                 if !HasHash(row) then HashCleared
                 else if PrevHash(row) != WalkOf(front).expectedPrev then LinkBroken
                 else RowModified)
  {
    WalkIntact(h, front);
  }

  /** A failing verdict names the first row at which the log stops being intact, and the reason is
      the first of the three checks that fails there. */
  lemma {:induction false} VerdictNamesFirstBroken(h: Hasher, rows: seq<Row>) returns (n: nat)
    requires !Verdict(h, rows).ok
    ensures n < |rows| && Intact(h, rows[..n]) && !Intact(h, rows[..n + 1])
    ensures Verdict(h, rows).firstBrokenId == Some(rows[n].content.id)
    ensures Verdict(h, rows).totalRows == n + 1
    ensures Verdict(h, rows).legacyRows == LegacyRows(rows[..n])
    ensures Verdict(h, rows).hashedRows == n - LegacyRows(rows[..n])
    ensures Verdict(h, rows).reason == Some(
              if !HasHash(rows[n]) then HashCleared
              else if PrevHash(rows[n]) != WalkOf(rows[..n]).expectedPrev then LinkBroken
              else RowModified)
  {
    VerdictSound(h, rows);
    var front := rows[..|rows| - 1];
    VerdictSound(h, front);
    if Intact(h, front) {
      n := |rows| - 1;
      BreaksAtEnd(h, rows, front);
      assert rows[..n + 1] == rows;
    } else {
      WalkNotIntact(h, front);
      n := VerdictNamesFirstBroken(h, front);
      assert front[..n] == rows[..n] && front[..n + 1] == rows[..n + 1];
    }
  }
}
