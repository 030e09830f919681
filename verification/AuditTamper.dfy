// Tamper evidence: which changes to a stored log the verdict detects, and which it cannot.
module AuditTamper {
  import opened Text
  import Json
  import opened AuditChain

  function Hashed(rows: seq<Row>): seq<Row> { rows[LegacyRows(rows)..] }

  /** Two rows say the same: equal content, link and hash. */
  predicate SameRow(x: Row, y: Row) {
    x.content == y.content && PrevHash(x) == PrevHash(y) && x.entryHash == y.entryHash
  }

  /** Two runs of hashed rows say the same, row for row. */
  predicate SameRecord(xs: seq<Row>, ys: seq<Row>) {
    |xs| == |ys| && forall i :: 0 <= i < |xs| ==> SameRow(xs[i], ys[i])
  }

  lemma LinkShape(h: Hasher, rows: seq<Row>, i: nat)
    requires Binding(h) && LegacyRows(rows) <= i < |rows| && Intact(h, rows)
    ensures '\n' !in PrevHash(rows[i])
    ensures PrevHash(rows[i]) == GENESIS_HASH <==> i == LegacyRows(rows)
    ensures i > LegacyRows(rows) ==> rows[i - 1].entryHash == Some(PrevHash(rows[i]))
  {
    assert Linked(h, rows, i);
    if i > LegacyRows(rows) {
      assert Linked(h, rows, i - 1);
    }
  }

  lemma HashFixesRow(h: Hasher, a: seq<Row>, b: seq<Row>, m: nat, n: nat)
    requires Binding(h) && Intact(h, a) && Intact(h, b)
    requires LegacyRows(a) <= m < |a| && LegacyRows(b) <= n < |b| && a[m].entryHash == b[n].entryHash
    ensures SameRow(a[m], b[n])
    ensures m == LegacyRows(a) <==> n == LegacyRows(b)
    ensures m > LegacyRows(a) ==> a[m - 1].entryHash == b[n - 1].entryHash
  {
    assert Linked(h, a, m) && Linked(h, b, n);
    LinkShape(h, a, m);
    LinkShape(h, b, n);
  }

  /** Equal hashes at two places of intact logs mean equal pasts, back to the start of both chains. */
  lemma {:induction false} HashFixesPast(h: Hasher, a: seq<Row>, b: seq<Row>, m: nat, n: nat)
    requires Binding(h) && Intact(h, a) && Intact(h, b)
    requires LegacyRows(a) <= m < |a| && LegacyRows(b) <= n < |b| && a[m].entryHash == b[n].entryHash
    ensures m - LegacyRows(a) == n - LegacyRows(b)
    ensures forall i :: LegacyRows(a) <= i <= m ==> SameRow(a[i], b[i - LegacyRows(a) + LegacyRows(b)])
  {
    HashFixesRow(h, a, b, m, n);
    if m > LegacyRows(a) {
      HashFixesPast(h, a, b, m - 1, n - 1);
    }
  }

  /** Tamper evidence: two verifying logs with the same head hash hold the same chained record,
      row for row. The head hash, once attested elsewhere, fixes everything before it. */
  lemma HeadFixesRecord(h: Hasher, a: seq<Row>, b: seq<Row>)
    requires Binding(h) && Verdict(h, a).ok && Verdict(h, b).ok
    requires Hashed(a) != [] && Hashed(b) != [] && a[|a| - 1].entryHash == b[|b| - 1].entryHash
    ensures SameRecord(Hashed(a), Hashed(b))
  {
    VerdictSound(h, a);
    VerdictSound(h, b);
    HashFixesPast(h, a, b, |a| - 1, |b| - 1);
    forall i | 0 <= i < |Hashed(a)| ensures SameRow(Hashed(a)[i], Hashed(b)[i]) {
      assert Hashed(a)[i] == a[LegacyRows(a) + i];
    }
  }

  /** Any change to the chained record that keeps the last entry hash is detected. */
  lemma ChangeUnderHeadDetected(h: Hasher, before: seq<Row>, after: seq<Row>)
    requires Binding(h) && Verdict(h, before).ok && Hashed(before) != []
    requires after != [] && after[|after| - 1].entryHash == before[|before| - 1].entryHash
    requires !SameRecord(Hashed(before), Hashed(after))
    ensures !Verdict(h, after).ok
  {
    if Verdict(h, after).ok {
      LastHashed(h, before, |before| - 1);
      HeadFixesRecord(h, before, after);
    }
  }

  lemma LastHashed(h: Hasher, rows: seq<Row>, i: nat)
    requires Verdict(h, rows).ok && LegacyRows(rows) <= i < |rows|
    ensures Hashed(rows) != [] && HasHash(rows[i]) && HasHash(rows[|rows| - 1])
  {
    VerdictSound(h, rows);
    assert Linked(h, rows, i) && Linked(h, rows, |rows| - 1);
  }

  /** Editing a chained row in place, its hash columns left alone, is detected exactly when it
      changes something the hash covers. */
  lemma EditDetected(h: Hasher, rows: seq<Row>, i: nat, edited: Row)
    requires Binding(h) && Verdict(h, rows).ok && LegacyRows(rows) <= i < |rows|
    requires edited.prevHash == rows[i].prevHash && edited.entryHash == rows[i].entryHash
    ensures Verdict(h, rows[i := edited]).ok <==> rows[i].content == edited.content
  {
    var after := rows[i := edited];
    LastHashed(h, rows, i);
    VerdictSound(h, rows);
    VerdictSound(h, after);
    LegacyIs(after, LegacyRows(rows));
    assert Linked(h, rows, i);
    LinkShape(h, rows, i);
    if rows[i].content == edited.content {
      assert after == rows;
    } else {
      assert Intact(h, after) ==> Linked(h, after, i);
    }
  }

  /** Deleting a chained row other than the last is detected. */
  lemma DeletionDetected(h: Hasher, rows: seq<Row>, i: nat)
    requires Binding(h) && Verdict(h, rows).ok && LegacyRows(rows) <= i < |rows| - 1
    ensures !Verdict(h, rows[..i] + rows[i + 1..]).ok
  {
    var after := rows[..i] + rows[i + 1..];
    LastHashed(h, rows, i + 1);
    DeletedAt(rows, i, after);
    LegacyIs(after, LegacyRows(rows));
    ChangeUnderHeadDetected(h, rows, after);
  }

  lemma DeletedAt(rows: seq<Row>, i: nat, after: seq<Row>)
    requires i < |rows| - 1 && after == rows[..i] + rows[i + 1..]
    ensures |after| == |rows| - 1 && (forall n :: 0 <= n < i ==> after[n] == rows[n])
    ensures after[i] == rows[i + 1] && after[|after| - 1] == rows[|rows| - 1]
  {
  }

  lemma InsertedAt(rows: seq<Row>, i: nat, extra: Row, after: seq<Row>)
    requires i < |rows| && after == rows[..i] + [extra] + rows[i..]
    ensures |after| == |rows| + 1 && (forall n :: 0 <= n < i ==> after[n] == rows[n])
    ensures after[i] == extra && after[|after| - 1] == rows[|rows| - 1]
  {
  }

  /** Inserting a hashed row before a chained row is detected. */
  lemma InsertionDetected(h: Hasher, rows: seq<Row>, i: nat, extra: Row)
    requires Binding(h) && Verdict(h, rows).ok && LegacyRows(rows) <= i < |rows| && HasHash(extra)
    ensures !Verdict(h, rows[..i] + [extra] + rows[i..]).ok
  {
    var after := rows[..i] + [extra] + rows[i..];
    LastHashed(h, rows, i);
    InsertedAt(rows, i, extra, after);
    LegacyIs(after, LegacyRows(rows));
    ChangeUnderHeadDetected(h, rows, after);
  }

  /** Swapping two chained rows is detected. */
  lemma ReorderDetected(h: Hasher, rows: seq<Row>, i: nat, j: nat)
    requires Binding(h) && Verdict(h, rows).ok && LegacyRows(rows) <= i < j < |rows|
    ensures !Verdict(h, rows[i := rows[j]][j := rows[i]]).ok
  {
    var after := rows[i := rows[j]][j := rows[i]];
    LastHashed(h, rows, i);
    LastHashed(h, rows, j);
    VerdictSound(h, rows);
    VerdictSound(h, after);
    LegacyIs(after, LegacyRows(rows));
    if Intact(h, after) {
      HashFixesPast(h, rows, after, i, j);
    }
  }

  /** Clearing the hash of a chained row is detected, unless it was the only one. */
  lemma ClearingDetected(h: Hasher, rows: seq<Row>, i: nat)
    requires Binding(h) && Verdict(h, rows).ok && LegacyRows(rows) <= i < |rows|
    ensures Verdict(h, rows[i := Cleared(rows[i])]).ok <==> |Hashed(rows)| == 1
  {
    var after := rows[i := Cleared(rows[i])];
    var k := LegacyRows(rows);
    LastHashed(h, rows, k);
    LastHashed(h, rows, i);
    VerdictSound(h, rows);
    VerdictSound(h, after);
    if i > k {
      LegacyIs(after, k);
      assert Intact(h, after) ==> Linked(h, after, i);
    } else if k + 1 < |rows| {
      LastHashed(h, rows, k + 1);
      LegacyIs(after, k + 1);
      LinkShape(h, rows, k + 1);
      assert !Linked(h, after, k + 1);
    } else {
      LegacyIs(after, k + 1);
    }
  }

  // ---------------------------------------------------------------- what the chain alone cannot see

  function Cleared(row: Row): Row { row.(entryHash := None) }

  /** A log with every hash cleared verifies: it reads as legacy rows only. */
  lemma FullClearingUndetected(h: Hasher, rows: seq<Row>)
    ensures var after := seq(|rows|, i requires 0 <= i < |rows| => Cleared(rows[i]));
            Verdict(h, after) == VerifyResult(true, |rows|, |rows|, 0, None, None)
  {
    var after := seq(|rows|, i requires 0 <= i < |rows| => Cleared(rows[i]));
    LegacyIs(after, |after|);
    VerdictSound(h, after);
  }

  /** A legacy row is outside the chain: any change that leaves it unhashed goes unseen. */
  lemma LegacyEditUndetected(h: Hasher, rows: seq<Row>, i: nat, edited: Row)
    requires Verdict(h, rows).ok && i < LegacyRows(rows) && !HasHash(edited)
    ensures Verdict(h, rows[i := edited]).ok
  {
    var after := rows[i := edited];
    VerdictSound(h, rows);
    VerdictSound(h, after);
    LegacyIs(after, LegacyRows(rows));
    SameChain(h, rows, after);
  }

  predicate Unhashed(rows: seq<Row>) {
    forall i :: 0 <= i < |rows| ==> !HasHash(rows[i])
  }

  /** The chain verifies behind any unhashed rows: nothing in it binds what stands before it. */
  lemma ChainBehind(h: Hasher, rows: seq<Row>, prefix: seq<Row>, after: seq<Row>)
    requires Verdict(h, rows).ok && Unhashed(prefix) && after == prefix + Hashed(rows)
    ensures LegacyRows(after) == |prefix| && Verdict(h, after).ok
  {
    var k := LegacyRows(rows);
    VerdictSound(h, rows);
    if Hashed(rows) != [] { assert after[|prefix|] == rows[k]; }
    LegacyIs(after, |prefix|);
    forall i | |prefix| <= i < |after| ensures Linked(h, after, i) {
      assert Linked(h, rows, i - |prefix| + k);
      assert after[i] == rows[i - |prefix| + k];
      if i > |prefix| { assert after[i - 1] == rows[i - 1 - |prefix| + k]; }
    }
    VerdictSound(h, after);
  }

  /** Nothing hashed verifies before the first row of a chain, which names the genesis value. */
  lemma NothingBeforeGenesis(h: Hasher, rows: seq<Row>, i: nat)
    requires Binding(h) && Verdict(h, rows).ok && i < |rows| && HasHash(rows[i]) && PrevHash(rows[i]) == GENESIS_HASH
    ensures Unhashed(rows[..i])
  {
    VerdictSound(h, rows);
    LinkShape(h, rows, i);
  }

  /** Putting other rows in place of the legacy ones goes unseen exactly when none of them is hashed. */
  lemma LegacyReplacedUnseenIff(h: Hasher, rows: seq<Row>, prefix: seq<Row>)
    requires Binding(h) && Verdict(h, rows).ok && Hashed(rows) != []
    ensures Verdict(h, prefix + Hashed(rows)).ok <==> Unhashed(prefix)
  {
    var after := prefix + Hashed(rows);
    if Unhashed(prefix) {
      ChainBehind(h, rows, prefix, after);
    } else if Verdict(h, after).ok {
      LastHashed(h, rows, LegacyRows(rows));
      VerdictSound(h, rows);
      LinkShape(h, rows, LegacyRows(rows));
      assert after[|prefix|] == rows[LegacyRows(rows)] && after[..|prefix|] == prefix;
      NothingBeforeGenesis(h, after, |prefix|);
    }
  }

  lemma LegacyDeleted(h: Hasher, rows: seq<Row>, i: nat, left: seq<Row>, right: seq<Row>, after: seq<Row>)
    requires Verdict(h, rows).ok && i < LegacyRows(rows) && after == rows[..i] + rows[i + 1..]
    requires left == rows[..i] && right == rows[i + 1..LegacyRows(rows)]
    ensures Verdict(h, after).ok
  {
    assert rows[i + 1..] == right + Hashed(rows);
    assert after == (left + right) + Hashed(rows);
    ChainBehind(h, rows, left + right, after);
  }

  lemma LegacyInserted(h: Hasher, rows: seq<Row>, i: nat, extra: Row, left: seq<Row>, right: seq<Row>, after: seq<Row>)
    requires Verdict(h, rows).ok && i <= LegacyRows(rows) && !HasHash(extra) && after == rows[..i] + [extra] + rows[i..]
    requires left == rows[..i] && right == rows[i..LegacyRows(rows)]
    ensures Verdict(h, after).ok
  {
    assert rows[i..] == right + Hashed(rows);
    assert after == (left + [extra] + right) + Hashed(rows);
    ChainBehind(h, rows, left + [extra] + right, after);
  }

  /** Deleting a row goes unseen exactly when it is a legacy row or the last one. */
  lemma DeletionUnseenIff(h: Hasher, rows: seq<Row>, i: nat)
    requires Binding(h) && Verdict(h, rows).ok && i < |rows|
    ensures Verdict(h, rows[..i] + rows[i + 1..]).ok <==> i < LegacyRows(rows) || i == |rows| - 1
  {
    var k, after := LegacyRows(rows), rows[..i] + rows[i + 1..];
    if i < k {
      LegacyDeleted(h, rows, i, rows[..i], rows[i + 1..k], after);
    } else if i < |rows| - 1 {
      DeletionDetected(h, rows, i);
    } else {
      VerdictSound(h, rows);
      TruncationUndetected(h, rows, i);
      assert after == rows[..i];
      VerdictSound(h, after);
    }
  }

  /** Inserting a row goes unseen exactly when it is an unhashed row no later than the first hashed one, or a
      row at the very end that continues the chain. */
  lemma InsertionUnseenIff(h: Hasher, rows: seq<Row>, i: nat, extra: Row)
    requires Binding(h) && Verdict(h, rows).ok && i <= |rows|
    ensures Verdict(h, rows[..i] + [extra] + rows[i..]).ok <==>
            if HasHash(extra) then i == |rows| && Continues(h, rows, extra) else i <= LegacyRows(rows)
  {
    var k, after := LegacyRows(rows), rows[..i] + [extra] + rows[i..];
    if i == |rows| && HasHash(extra) {
      AppendUnseenIff(h, rows, i, extra, after);
    } else if i <= k && !HasHash(extra) {
      LegacyInserted(h, rows, i, extra, rows[..i], rows[i..k], after);
    } else {
      Misplaced(h, rows, i, extra, after);
    }
  }

  /** The row links to the last one, or to the genesis value when there is no chain, and its hash fits. */
  predicate Continues(h: Hasher, rows: seq<Row>, extra: Row) {
    && HasHash(extra)
    && PrevHash(extra) == WalkOf(rows).expectedPrev
    && extra.entryHash.value == h(PrevHash(extra), extra.content)
  }

  lemma AppendUnseenIff(h: Hasher, rows: seq<Row>, i: nat, extra: Row, after: seq<Row>)
    requires Verdict(h, rows).ok && HasHash(extra) && i == |rows| && after == rows[..i] + [extra] + rows[i..]
    ensures Verdict(h, after).ok <==> Continues(h, rows, extra)
  {
    assert after == rows + [extra];
    VerdictSound(h, rows);
    VerdictSound(h, after);
    LegacyIs(after, LegacyRows(rows));
    AppendedLink(h, rows, extra, after);
    if Continues(h, rows, extra) { StillLinked(h, rows, extra, after); }
  }

  lemma AppendedLink(h: Hasher, rows: seq<Row>, extra: Row, after: seq<Row>)
    requires Intact(h, rows) && HasHash(extra) && after == rows + [extra] && LegacyRows(after) == LegacyRows(rows)
    ensures Linked(h, after, |rows|) <==> Continues(h, rows, extra)
  {
    if LegacyRows(rows) < |rows| { assert after[|rows| - 1] == rows[|rows| - 1]; }
  }

  lemma StillLinked(h: Hasher, rows: seq<Row>, extra: Row, after: seq<Row>)
    requires Intact(h, rows) && after == rows + [extra] && LegacyRows(after) == LegacyRows(rows) && Linked(h, after, |rows|)
    ensures Intact(h, after)
  {
    forall n | LegacyRows(after) <= n < |after| ensures Linked(h, after, n) {
      if n < |rows| { assert Linked(h, rows, n); }
    }
  }

  lemma Misplaced(h: Hasher, rows: seq<Row>, i: nat, extra: Row, after: seq<Row>)
    requires Binding(h) && Verdict(h, rows).ok && i <= |rows| && after == rows[..i] + [extra] + rows[i..]
    requires if HasHash(extra) then i < |rows| else i > LegacyRows(rows)
    ensures !Verdict(h, after).ok
  {
    var k := LegacyRows(rows);
    VerdictSound(h, rows);
    VerdictSound(h, after);
    if HasHash(extra) && i < k {
      assert after[i] == extra && after[i + 1] == rows[i];
      LegacyIs(after, i);
      assert !Linked(h, after, i + 1);
    } else if HasHash(extra) {
      InsertionDetected(h, rows, i, extra);
    } else {
      assert after[k] == rows[k] && after[i] == extra;
      LegacyIs(after, k);
      assert !Linked(h, after, i);
    }
  }

  // ---------------------------------------------------------------- any rearrangement

  predicate AllLinked(rows: seq<Row>) {
    forall i :: 0 <= i < |rows| ==> rows[i].prevHash.Some?
  }

  lemma ChainLinked(h: Hasher, rows: seq<Row>, chain: seq<Row>)
    requires Binding(h) && Intact(h, rows) && chain == Hashed(rows)
    ensures AllLinked(chain)
  {
    forall i | 0 <= i < |chain| ensures chain[i].prevHash.Some? {
      LinkIsThere(h, rows, LegacyRows(rows) + i);
    }
  }

  lemma LinkIsThere(h: Hasher, rows: seq<Row>, i: nat)
    requires Binding(h) && Intact(h, rows) && LegacyRows(rows) <= i < |rows|
    ensures rows[i].prevHash.Some?
  {
    assert Linked(h, rows, i);
    if i > LegacyRows(rows) { assert Linked(h, rows, i - 1); }
  }

  /** Linked rows that say the same are the same. */
  lemma SameRowsArePrefix(part: seq<Row>, chain: seq<Row>)
    requires AllLinked(part) && AllLinked(chain) && |part| <= |chain|
    requires forall i :: 0 <= i < |part| ==> SameRow(part[i], chain[i])
    ensures part <= chain
  {
    assert forall i :: 0 <= i < |part| ==> part[i] == chain[i];
  }

  /** A verifying log whose chained rows all come from another verifying log holds the first of that log's chained rows,
      in their order. */
  lemma ChainFromRows(h: Hasher, rows: seq<Row>, after: seq<Row>)
    requires Binding(h) && Verdict(h, rows).ok && Verdict(h, after).ok
    requires forall row :: row in Hashed(after) ==> row in rows
    ensures Hashed(after) <= Hashed(rows)
  {
    if Hashed(after) != [] {
      var last := after[|after| - 1];
      assert Hashed(after)[|Hashed(after)| - 1] == last && last in Hashed(after);
      var m :| 0 <= m < |rows| && rows[m] == last;
      ChainUpTo(h, rows, after, m);
    }
  }

  lemma ChainUpTo(h: Hasher, rows: seq<Row>, after: seq<Row>, m: nat)
    requires Binding(h) && Verdict(h, rows).ok && Verdict(h, after).ok
    requires Hashed(after) != [] && m < |rows| && rows[m] == after[|after| - 1]
    ensures Hashed(after) <= Hashed(rows)
  {
    VerdictSound(h, rows);
    VerdictSound(h, after);
    ChainAligned(h, rows, after, m);
    ChainLinked(h, rows, Hashed(rows));
    ChainLinked(h, after, Hashed(after));
    SameRowsArePrefix(Hashed(after), Hashed(rows));
  }

  lemma ChainAligned(h: Hasher, rows: seq<Row>, after: seq<Row>, m: nat)
    requires Binding(h) && Verdict(h, after).ok && Intact(h, rows) && Intact(h, after)
    requires Hashed(after) != [] && m < |rows| && rows[m] == after[|after| - 1]
    ensures |Hashed(after)| <= |Hashed(rows)|
    ensures forall i :: 0 <= i < |Hashed(after)| ==> SameRow(Hashed(after)[i], Hashed(rows)[i])
  {
    LastHashed(h, after, LegacyRows(after));
    HashFixesPast(h, after, rows, |after| - 1, m);
    PastIsSame(rows, after, LegacyRows(rows), LegacyRows(after));
  }

  lemma PastIsSame(rows: seq<Row>, after: seq<Row>, k: nat, l: nat)
    requires k <= |rows| && l <= |after| && |after| - l <= |rows| - k
    requires forall i :: l <= i < |after| ==> SameRow(after[i], rows[i - l + k])
    ensures forall i :: 0 <= i < |after[l..]| ==> SameRow(after[l..][i], rows[k..][i])
  {
    forall i | 0 <= i < |after[l..]| ensures SameRow(after[l..][i], rows[k..][i]) {
      assert SameRow(after[l + i], rows[l + i - l + k]);
    }
  }

  /** Rearranging the rows in any way goes unseen exactly when the chained rows stay behind the others and in order. */
  lemma ReorderUnseenIff(h: Hasher, rows: seq<Row>, after: seq<Row>)
    requires Binding(h) && Verdict(h, rows).ok && multiset(after) == multiset(rows)
    ensures Verdict(h, after).ok <==> Hashed(after) == Hashed(rows)
  {
    if Verdict(h, after).ok {
      forall row | row in Hashed(after) ensures row in rows { assert row in multiset(after); }
      forall row | row in Hashed(rows) ensures row in after { assert row in multiset(rows); }
      ChainFromRows(h, rows, after);
      ChainFromRows(h, after, rows);
    } else if Hashed(after) == Hashed(rows) {
      assert after == after[..LegacyRows(after)] + Hashed(after);
      ChainBehind(h, rows, after[..LegacyRows(after)], after);
    }
  }

  // ---------------------------------------------------------------- deleting a user account

  /** ON DELETE SET NULL on audit_log.user_id. */
  function ForgetUser(row: Row, user: int): Row {
    if row.content.userId == Some(user) then row.(content := row.content.(userId := None)) else row
  }

  function ForgetUserIn(rows: seq<Row>, user: int): seq<Row> {
    seq(|rows|, i requires 0 <= i < |rows| => ForgetUser(rows[i], user))
  }

  /** Every row that names the user loses the name and nothing else; no other row changes. */
  lemma ForgottenRows(rows: seq<Row>, user: int, after: seq<Row>)
    requires after == ForgetUserIn(rows, user)
    ensures |after| == |rows|
    ensures forall i :: 0 <= i < |rows| ==>
              if rows[i].content.userId == Some(user)
              then after[i].content.userId == None && after[i] == rows[i].(content := after[i].content)
                   && after[i].content == rows[i].content.(userId := None)
              else after[i] == rows[i]
  {
  }

  /** The foreign key clears a hashed column, so deleting a user account keeps the chain verifying
      exactly when no chained row names that user; otherwise an untouched log reads as tampered. */
  lemma UserDeletionBreaksChain(h: Hasher, rows: seq<Row>, user: int)
    requires Binding(h) && Verdict(h, rows).ok
    ensures Verdict(h, ForgetUserIn(rows, user)).ok <==>
            (forall i :: LegacyRows(rows) <= i < |rows| ==> rows[i].content.userId != Some(user))
  {
    var after := ForgetUserIn(rows, user);
    LegacyIs(after, LegacyRows(rows));
    VerdictSound(h, rows);
    VerdictSound(h, after);
    if i: nat :| LegacyRows(rows) <= i < |rows| && rows[i].content.userId == Some(user) {
      ForgottenRowUnlinked(h, rows, user, i);
    } else {
      UnnamedUserForgotten(h, rows, user);
    }
  }

  lemma UnnamedUserForgotten(h: Hasher, rows: seq<Row>, user: int)
    requires Intact(h, rows) && LegacyRows(ForgetUserIn(rows, user)) == LegacyRows(rows)
    requires forall i :: LegacyRows(rows) <= i < |rows| ==> rows[i].content.userId != Some(user)
    ensures Intact(h, ForgetUserIn(rows, user))
  {
    var after := ForgetUserIn(rows, user);
    assert forall n :: LegacyRows(rows) <= n < |rows| ==> after[n] == rows[n];
    SameChain(h, rows, after);
  }

  lemma SameChain(h: Hasher, rows: seq<Row>, after: seq<Row>)
    requires Intact(h, rows) && |after| == |rows| && LegacyRows(after) == LegacyRows(rows)
    requires forall n :: LegacyRows(rows) <= n < |rows| ==> after[n] == rows[n]
    ensures Intact(h, after)
  {
    forall n | LegacyRows(after) <= n < |after| ensures Linked(h, after, n) {
      assert Linked(h, rows, n);
    }
  }

  lemma ForgottenRowUnlinked(h: Hasher, rows: seq<Row>, user: int, i: nat)
    requires Binding(h) && Intact(h, rows) && LegacyRows(rows) <= i < |rows|
    requires LegacyRows(ForgetUserIn(rows, user)) == LegacyRows(rows)
    requires rows[i].content.userId == Some(user)
    ensures !Intact(h, ForgetUserIn(rows, user))
  {
    var after := ForgetUserIn(rows, user);
    assert Linked(h, rows, i);
    LinkShape(h, rows, i);
    assert Intact(h, after) ==> Linked(h, after, i);
  }

  // ---------------------------------------------------------------- the idealised hash exists

  /** A text-valued stand-in for SHA-256 that meets the idealisation: it shows the assumption can be met. */
  function Digest(s: string): string { "#" + Json.Escape(s) }

  lemma {:induction false} EscapeOneLine(s: string)
    ensures '\n' !in Json.Escape(s)
  {
    if s != "" {
      EscapeOneLine(s[1..]);
      EscapeCharOneLine(s[0]);
    }
  }

  lemma EscapeCharOneLine(c: char)
    ensures '\n' !in Json.EscapeChar(c)
  {
  }

  lemma CollisionFreeExists()
    ensures CollisionFree(Digest)
  {
    forall x, y | Digest(x) == Digest(y) ensures x == y {
      assert Digest(x)[1..] == Json.Escape(x) && Digest(y)[1..] == Json.Escape(y);
      Json.ReadStringBack(x, "");
      Json.ReadStringBack(y, "");
    }
    forall x ensures Digest(x) != "" && Digest(x) != GENESIS_HASH && '\n' !in Digest(x) {
      EscapeOneLine(x);
      assert Digest(x)[0] == '#';
    }
  }
}
