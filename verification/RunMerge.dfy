// Merging the shards of a CI run into one row: the upsert that finds or creates it, and the counters
// recalculated from its specs.
module RunMerge {
  import opened Text
  import opened Normalized
  import opened RunSpecs

  /** UNIQUE (org_id, suite_name, ci_run_id) WHERE ci_run_id <> ''. */
  datatype Key = Key(org: nat, suite: string, ci: string)

  /** A run row with its spec rows. A live placeholder has no finish time yet. */
  datatype Row = Row(key: Key, finishedAt: Option<int>, environment: string, counts: Counts, duration: real, specs: seq<Spec>)

  /** What an upload brings: its key, the reporter's finish time and environment, and the normalized run. */
  datatype Upload = Upload(key: Key, finishedAt: int, environment: string, run: Run)

  /** GREATEST, which ignores NULL. */
  function Later(a: Option<int>, b: int): Option<int> {
    if a.Some? && a.value >= b then a else Some(b)
  }

  predicate OneRowPerKey(table: seq<Row>) {
    forall i, j :: 0 <= i < j < |table| && table[i].key == table[j].key ==> table[i].key.ci == ""
  }

  /** The row an upload merges into. Without a CI run id there is none. */
  function RowOf(table: seq<Row>, key: Key): (r: Option<nat>)
    ensures r.Some? ==> r.value < |table| && table[r.value].key == key && key.ci != ""
    ensures r.None? && key.ci != "" ==> forall i :: 0 <= i < |table| ==> table[i].key != key
  {
    if key.ci == "" || table == [] then None
    else if table[|table| - 1].key == key then Some(|table| - 1)
    else RowOf(table[..|table| - 1], key)
  }

  function MergedRow(row: Row, upload: Upload): Row {
    row.(finishedAt := Later(row.finishedAt, upload.finishedAt),
         environment := if row.environment == "" && upload.environment != "" then upload.environment else row.environment)
  }

  /** A merge changes two columns: the finish time becomes the later one, and a missing environment is filled in. */
  predicate OnlyMerges(was: Row, upload: Upload, now: Row) {
    && now.key == was.key && now.counts == was.counts && now.duration == was.duration && now.specs == was.specs
    && now.finishedAt.Some? && upload.finishedAt <= now.finishedAt.value
    && (now.finishedAt == was.finishedAt || now.finishedAt.value == upload.finishedAt)
    && (was.finishedAt.Some? ==> was.finishedAt.value <= now.finishedAt.value)
    && now.environment == if was.environment != "" then was.environment else upload.environment
  }

  function Inserted(upload: Upload): Row {
    Row(upload.key, Some(upload.finishedAt), upload.environment, upload.run.counts, upload.run.duration, [])
  }

  function Placeholder(key: Key, environment: string): Row {
    Row(key, None, environment, NOTHING, 0.0, [])
  }

  function Recalculated(row: Row): Row {
    row.(counts := SumCounts(row.specs), duration := SumTimes(row.specs))
  }

  /** An upload into a row that was there: the row is merged, its specs stored, its counters recalculated. */
  function Merged(row: Row, upload: Upload): Row {
    Recalculated(MergedRow(row, upload).(specs := Stored(row.specs, upload.run.specs)))
  }

  /** An upload into a new row: the counters stay those the upload brought. */
  function Created(upload: Upload): Row {
    Inserted(upload).(specs := Stored([], upload.run.specs))
  }

  function Ingested(table: seq<Row>, upload: Upload): seq<Row> {
    var id := RowOf(table, upload.key);
    if id.Some? then table[id.value := Merged(table[id.value], upload)] else table + [Created(upload)]
  }

  predicate SpecsPerFile(table: seq<Row>) {
    forall i :: 0 <= i < |table| ==> OnePerFile(table[i].specs)
  }

  /** The runs table with the specs of each run, its rows never deleted here: a row's id is its position. */
  class RunTable {
    var rows: seq<Row>

    constructor ()
      ensures rows == []
    {
      rows := [];
    }

    /** A live start: a placeholder without counters or finish time, unless the run has a row. */
    method StartLive(key: Key, environment: string) returns (id: nat, resumed: bool)
      requires OneRowPerKey(rows) && SpecsPerFile(rows)
      modifies this
      ensures OneRowPerKey(rows) && SpecsPerFile(rows) && id < |rows| && rows[id].key == key
      ensures resumed <==> RowOf(old(rows), key).Some?
      ensures rows == if resumed then old(rows) else old(rows) + [Placeholder(key, environment)]
      ensures !resumed ==> rows[id] == Row(key, None, environment, Counts(0, 0, 0, 0, 0), 0.0, [])
    {
      var existing := RowOf(rows, key);
      if existing.Some? { return existing.value, true; }
      id, resumed := |rows|, false;
      rows := rows + [Placeholder(key, environment)];
    }

    /** INSERT … ON CONFLICT DO UPDATE: the id of the run, and whether it was there before. Counters are left alone. */
    method FindOrCreateRun(upload: Upload) returns (id: nat, merged: bool)
      requires OneRowPerKey(rows)
      modifies this
      ensures OneRowPerKey(rows) && id < |rows| && rows[id].key == upload.key
      ensures merged <==> RowOf(old(rows), upload.key).Some?
      ensures merged ==> RowOf(old(rows), upload.key) == Some(id) && rows == old(rows)[id := MergedRow(old(rows)[id], upload)]
      ensures merged ==> OnlyMerges(old(rows)[id], upload, rows[id])
      ensures !merged ==> id == |old(rows)| && rows == old(rows) + [Inserted(upload)]
      ensures !merged ==> rows[id] == Row(upload.key, Some(upload.finishedAt), upload.environment, upload.run.counts, upload.run.duration, [])
    {
      var existing := RowOf(rows, upload.key);
      if existing.Some? {
        id, merged := existing.value, true;
        rows := rows[id := MergedRow(rows[id], upload)];
      } else {
        id, merged := |rows|, false;
        rows := rows + [Inserted(upload)];
      }
    }

    /** UPDATE runs SET total = … FROM (SELECT SUM(total) … FROM specs): the run becomes the sum of its specs. */
    method RecalculateRunStats(id: nat)
      requires id < |rows|
      modifies this
      ensures rows == old(rows)[id := Recalculated(old(rows)[id])]
      ensures rows[id].counts == SumCounts(rows[id].specs) && rows[id].duration == SumTimes(rows[id].specs)
    {
      rows := rows[id := rows[id].(counts := SumCounts(rows[id].specs), duration := SumTimes(rows[id].specs))];
    }

    /** Store an upload's specs one by one, each over the row of its file if there is one. */
    method StoreSpecs(id: nat, specs: seq<Spec>)
      requires id < |rows|
      modifies this
      ensures rows == old(rows)[id := old(rows)[id].(specs := Stored(old(rows)[id].specs, specs))]
    {
      ghost var before := rows[id];
      for i := 0 to |specs|
        invariant rows == old(rows)[id := before.(specs := Stored(before.specs, specs[..i]))]
      {
        assert specs[..i + 1][..i] == specs[..i];
        var stored := rows[id].specs;
        var k := LastOf(stored, specs[i].filePath);
        rows := rows[id := rows[id].(specs := if k.Some? then stored[k.value := specs[i]] else stored + [specs[i]])];
      }
      assert specs[..|specs|] == specs;
    }

    /** One upload. The counters of the run are recalculated only if its row was there before. */
    method Ingest(upload: Upload) returns (id: nat)
      requires OneRowPerKey(rows) && SpecsPerFile(rows)
      modifies this
      ensures OneRowPerKey(rows) && SpecsPerFile(rows) && rows == Ingested(old(rows), upload)
      ensures id < |rows| && rows[id].key == upload.key
    {
      var merged;
      id, merged := FindOrCreateRun(upload);
      ghost var specs := if merged then old(rows)[id].specs else [];
      StoreKeepsFiles(specs, upload.run.specs);
      StoreSpecs(id, upload.run.specs);
      if merged { RecalculateRunStats(id); }
    }
  }

  // ---------------------------------------------------------------- any uploads, in any order

  function IngestedAll(table: seq<Row>, uploads: seq<Upload>): seq<Row> {
    if uploads == [] then table else Ingested(IngestedAll(table, uploads[..|uploads| - 1]), uploads[|uploads| - 1])
  }

  /** The uploads of one run. */
  function Shards(uploads: seq<Upload>, key: Key): seq<Upload> {
    if uploads == [] then []
    else Shards(uploads[..|uploads| - 1], key) + (if uploads[|uploads| - 1].key == key then [uploads[|uploads| - 1]] else [])
  }

  /** The row that uploads of one run leave, over the row that was there, if any. */
  function RowLeft(was: Option<Row>, shards: seq<Upload>): Option<Row> {
    if shards == [] then was else Some(NextRow(RowLeft(was, shards[..|shards| - 1]), shards[|shards| - 1]))
  }

  function NextRow(was: Option<Row>, upload: Upload): Row {
    if was.None? then Created(upload) else Merged(was.value, upload)
  }

  function RowFor(table: seq<Row>, key: Key): Option<Row> {
    var id := RowOf(table, key);
    if id.Some? then Some(table[id.value]) else None
  }

  lemma {:induction false} RowOfUpdated(table: seq<Row>, k: nat, row: Row, key: Key)
    requires k < |table| && row.key == table[k].key
    ensures RowOf(table[k := row], key) == RowOf(table, key)
  {
    var after := table[k := row];
    if k == |table| - 1 {
      assert after[..|after| - 1] == table[..|table| - 1];
    } else {
      assert after[..|after| - 1] == table[..|table| - 1][k := row];
      RowOfUpdated(table[..|table| - 1], k, row, key);
    }
  }

  /** An upload changes the row of its own run and no other's. */
  lemma IngestFor(table: seq<Row>, upload: Upload, key: Key)
    requires key.ci != ""
    ensures var was := RowFor(table, key);
            RowFor(Ingested(table, upload), key) ==
            if upload.key != key then was else if was.None? then Some(Created(upload)) else Some(Merged(was.value, upload))
  {
    var id := RowOf(table, upload.key);
    if id.Some? {
      RowOfUpdated(table, id.value, Merged(table[id.value], upload), key);
    } else {
      var after := table + [Created(upload)];
      assert after[..|after| - 1] == table;
    }
  }

  lemma ShardsNext(was: Option<Row>, shards: seq<Upload>, upload: Upload)
    ensures RowLeft(was, shards + [upload]) == Some(NextRow(RowLeft(was, shards), upload))
  {
    var more := shards + [upload];
    assert more[..|more| - 1] == shards;
  }

  /** From any table on, and however the uploads of all runs arrive, a CI run's row is what its own shards leave, in
      their order, over the row it had. */
  lemma {:induction false} RunIsItsShards(table: seq<Row>, uploads: seq<Upload>, key: Key)
    requires key.ci != ""
    ensures RowFor(IngestedAll(table, uploads), key) == RowLeft(RowFor(table, key), Shards(uploads, key))
  {
    if uploads != [] {
      var front, last := uploads[..|uploads| - 1], uploads[|uploads| - 1];
      RunIsItsShards(table, front, key);
      IngestFor(IngestedAll(table, front), last, key);
      if last.key == key {
        ShardsNext(RowFor(table, key), Shards(front, key), last);
      } else {
        assert Shards(front, key) + [] == Shards(front, key);
      }
    }
  }

  // ---------------------------------------------------------------- counters of merged runs

  function AllSpecs(shards: seq<Upload>): seq<Spec> {
    if shards == [] then [] else AllSpecs(shards[..|shards| - 1]) + shards[|shards| - 1].run.specs
  }

  /** What the shards say of themselves. */
  function ShardCounts(shards: seq<Upload>): Counts {
    if shards == [] then NOTHING else Plus(ShardCounts(shards[..|shards| - 1]), shards[|shards| - 1].run.counts)
  }

  /** Every shard's counters are the sums over its own specs, as every normalizer leaves them. */
  predicate Summed(shards: seq<Upload>) {
    forall i :: 0 <= i < |shards| ==> shards[i].run.counts == SumCounts(shards[i].run.specs)
  }

  /** The specs a run has before its uploads: those that live events made, or earlier uploads. */
  function SpecsOf(was: Option<Row>): seq<Spec> {
    if was.Some? then was.value.specs else []
  }

  /** The row was there before the last upload, so that its counters were recalculated. */
  predicate Remade(was: Option<Row>, shards: seq<Upload>) {
    shards != [] && (was.Some? || |shards| >= 2)
  }

  /** A run holds, for each file, the last spec uploaded for it, else the one it had. Once an upload has merged into
      its row, its counters are the sum over those. */
  lemma {:induction false} RunHoldsLastSpecs(was: Option<Row>, shards: seq<Upload>)
    requires shards != [] && OnePerFile(SpecsOf(was))
    ensures var row := RowLeft(was, shards).value;
            && row.specs == Stored(SpecsOf(was), AllSpecs(shards)) && OnePerFile(row.specs)
            && row.counts == (if Remade(was, shards) then SumCounts(row.specs) else shards[0].run.counts)
            && row.duration == if Remade(was, shards) then SumTimes(row.specs) else shards[0].run.duration
  {
    var front, last := shards[..|shards| - 1], shards[|shards| - 1];
    StoreKeepsFiles(SpecsOf(was), AllSpecs(shards));
    if front == [] {
      assert AllSpecs(shards) == [] + last.run.specs == last.run.specs;
    } else {
      RunHoldsLastSpecs(was, front);
      StoreConcat(SpecsOf(was), AllSpecs(front), last.run.specs);
    }
  }

  lemma {:induction false} SumConcat(a: seq<Spec>, b: seq<Spec>)
    ensures SumCounts(a + b) == Plus(SumCounts(a), SumCounts(b))
  {
    if b == [] {
      assert a + b == a;
      PlusIs(SumCounts(a), SumCounts(a), NOTHING);
    } else {
      var front, last := b[..|b| - 1], b[|b| - 1];
      assert (a + b)[..|a + b| - 1] == a + front;
      SumConcat(a, front);
      PlusIs(SumCounts(a + b), SumCounts(a), SumCounts(b));
    }
  }

  lemma {:induction false} ShardsAreSummed(shards: seq<Upload>)
    requires Summed(shards)
    ensures ShardCounts(shards) == SumCounts(AllSpecs(shards))
  {
    if shards != [] {
      var front, last := shards[..|shards| - 1], shards[|shards| - 1];
      ShardsAreSummed(front);
      SumConcat(AllSpecs(front), last.run.specs);
    }
  }

  /** The counters of a run are the sum over the specs it had and of its shards' counters if and only if it has a single
      upload, which made its row, or every spec that a later one of its file overwrites counts nothing. */
  lemma ShardsAddUpIff(was: Option<Row>, shards: seq<Upload>)
    requires shards != [] && Summed(shards) && OnePerFile(SpecsOf(was))
    ensures RowLeft(was, shards).value.counts == Plus(SumCounts(SpecsOf(was)), ShardCounts(shards))
            <==> !Remade(was, shards) || NothingOverwritten(SpecsOf(was) + AllSpecs(shards))
  {
    RunHoldsLastSpecs(was, shards);
    if Remade(was, shards) {
      ShardsAreSummed(shards);
      StoreAddsUpIff(SpecsOf(was), AllSpecs(shards));
    } else {
      OneShard(shards);
      PlusNothing(SumCounts(SpecsOf(was)), ShardCounts(shards));
    }
  }

  lemma OneShard(shards: seq<Upload>)
    requires |shards| == 1
    ensures ShardCounts(shards) == shards[0].run.counts
  {
    assert shards[..0] == [];
    PlusNothing(NOTHING, shards[0].run.counts);
  }

  lemma PlusNothing(none: Counts, a: Counts)
    requires none == NOTHING
    ensures Plus(none, a) == a
  {
    PlusIs(a, none, a);
  }

  /** Recalculating a run's counters leaves them as they are if and only if an upload has merged into its row, or no
      spec that counts something is followed by one of its file in the upload that made it. */
  lemma RecalculationReproducesIff(was: Option<Row>, shards: seq<Upload>)
    requires shards != [] && Summed(shards) && OnePerFile(SpecsOf(was))
    ensures var row := RowLeft(was, shards).value;
            Recalculated(row).counts == row.counts <==> Remade(was, shards) || NothingOverwritten(shards[0].run.specs)
  {
    RunHoldsLastSpecs(was, shards);
    if !Remade(was, shards) {
      assert shards[..0] == [] && AllSpecs(shards) == [] + shards[0].run.specs == shards[0].run.specs;
      StoreReproducesIff(shards[0].run.specs);
    }
  }

  // ---------------------------------------------------------------- the finish time of a merged run

  function MergedAll(row: Row, uploads: seq<Upload>): Row {
    if uploads == [] then row else MergedRow(MergedAll(row, uploads[..|uploads| - 1]), uploads[|uploads| - 1])
  }

  /** The finish times a run has been given. */
  predicate Given(row: Row, uploads: seq<Upload>, t: int) {
    row.finishedAt == Some(t) || exists i :: 0 <= i < |uploads| && uploads[i].finishedAt == t
  }

  /** After any number of shards, the run finished at the latest time any of them reported. */
  lemma {:induction false} LatestFinish(row: Row, uploads: seq<Upload>)
    requires uploads != [] || row.finishedAt.Some?
    ensures var end := MergedAll(row, uploads).finishedAt;
            end.Some? && Given(row, uploads, end.value) && forall t :: Given(row, uploads, t) ==> t <= end.value
  {
    if uploads != [] {
      var front, last := uploads[..|uploads| - 1], uploads[|uploads| - 1];
      assert forall i :: 0 <= i < |front| ==> uploads[i] == front[i];
      assert uploads[|uploads| - 1] == last;
      if front != [] || row.finishedAt.Some? { LatestFinish(row, front); }
      forall t ensures Given(row, uploads, t) <==> Given(row, front, t) || t == last.finishedAt {
      }
    }
  }

  /** So the order in which shards arrive does not matter to it. */
  lemma FinishIgnoresOrder(row: Row, a: seq<Upload>, b: seq<Upload>)
    requires a != [] && multiset(a) == multiset(b)
    ensures MergedAll(row, a).finishedAt == MergedAll(row, b).finishedAt
  {
    assert |a| == |multiset(a)| == |multiset(b)| == |b|;
    LatestFinish(row, a);
    LatestFinish(row, b);
    SameGiven(row, a, b, MergedAll(row, a).finishedAt.value);
    SameGiven(row, b, a, MergedAll(row, b).finishedAt.value);
  }

  lemma SameGiven(row: Row, a: seq<Upload>, b: seq<Upload>, t: int)
    requires multiset(a) == multiset(b) && Given(row, a, t)
    ensures Given(row, b, t)
  {
    if row.finishedAt != Some(t) {
      var i :| 0 <= i < |a| && a[i].finishedAt == t;
      assert a[i] in multiset(a);
      assert a[i] in multiset(b);
      assert a[i] in b;
      var j :| 0 <= j < |b| && b[j] == a[i];
    }
  }

  // ---------------------------------------------------------------- the environment of a merged run

  /** The first environment the shards name; none if they name none. */
  function FirstNamed(uploads: seq<Upload>): string {
    if uploads == [] then ""
    else
      var named := FirstNamed(uploads[..|uploads| - 1]);
      if named != "" then named else uploads[|uploads| - 1].environment
  }

  /** A row that names an environment keeps it; otherwise the first shard to name one decides. */
  lemma {:induction false} EnvironmentIs(row: Row, uploads: seq<Upload>)
    ensures MergedAll(row, uploads).environment == if row.environment != "" then row.environment else FirstNamed(uploads)
  {
    if uploads != [] { EnvironmentIs(row, uploads[..|uploads| - 1]); }
  }

  /** All shards that name an environment name the same one. */
  predicate OneEnvironment(uploads: seq<Upload>) {
    forall i, j :: 0 <= i < |uploads| && 0 <= j < |uploads| && uploads[i].environment != "" && uploads[j].environment != "" ==>
      uploads[i].environment == uploads[j].environment
  }

  lemma {:induction false} FirstNamedIs(uploads: seq<Upload>)
    ensures FirstNamed(uploads) == "" ==> forall i :: 0 <= i < |uploads| ==> uploads[i].environment == ""
    ensures FirstNamed(uploads) != "" ==> exists i :: 0 <= i < |uploads| && uploads[i].environment == FirstNamed(uploads)
  {
    if uploads != [] {
      var front := uploads[..|uploads| - 1];
      FirstNamedIs(front);
      if FirstNamed(front) != "" {
        var i :| 0 <= i < |front| && front[i].environment == FirstNamed(front);
        assert uploads[i] == front[i];
      } else {
        assert forall i :: 0 <= i < |front| ==> uploads[i] == front[i];
      }
    }
  }

  lemma {:induction false} NamedFirst(first: Upload, rest: seq<Upload>)
    requires first.environment != ""
    ensures FirstNamed([first] + rest) == first.environment
  {
    var all := [first] + rest;
    if rest == [] {
      assert all[..|all| - 1] == [];
    } else {
      assert all[..|all| - 1] == [first] + rest[..|rest| - 1];
      NamedFirst(first, rest[..|rest| - 1]);
    }
  }

  /** Any shard can be the first to arrive. */
  lemma Ahead(uploads: seq<Upload>, i: nat) returns (other: seq<Upload>)
    requires i < |uploads| && uploads[i].environment != ""
    ensures multiset(other) == multiset(uploads) && FirstNamed(other) == uploads[i].environment
  {
    var rest := uploads[..i] + uploads[i + 1..];
    other := [uploads[i]] + rest;
    assert uploads == uploads[..i] + [uploads[i]] + uploads[i + 1..];
    NamedFirst(uploads[i], rest);
  }

  lemma SameName(a: seq<Upload>, b: seq<Upload>)
    requires multiset(a) == multiset(b) && OneEnvironment(a)
    ensures FirstNamed(a) == FirstNamed(b)
  {
    FirstNamedIs(a);
    FirstNamedIs(b);
    if FirstNamed(b) != "" {
      var j :| 0 <= j < |b| && b[j].environment == FirstNamed(b);
      assert b[j] in multiset(b) && b[j] in multiset(a) && b[j] in a;
    } else {
      forall i | 0 <= i < |a| ensures a[i].environment == "" {
        assert a[i] in multiset(a) && a[i] in multiset(b) && a[i] in b;
      }
    }
  }

  /** The order in which shards arrive does not matter to the environment if and only if the row names one or all
      shards that name one name the same. */
  lemma EnvironmentIgnoresOrderIff(row: Row, a: seq<Upload>)
    ensures (forall b :: multiset(b) == multiset(a) ==> MergedAll(row, b).environment == MergedAll(row, a).environment)
            <==> row.environment != "" || OneEnvironment(a)
  {
    EnvironmentIs(row, a);
    if row.environment != "" || OneEnvironment(a) {
      forall b | multiset(b) == multiset(a) ensures MergedAll(row, b).environment == MergedAll(row, a).environment {
        EnvironmentIs(row, b);
        if row.environment == "" { SameName(a, b); }
      }
    } else {
      var i, j :| 0 <= i < |a| && 0 <= j < |a| && a[i].environment != "" && a[j].environment != ""
                  && a[i].environment != a[j].environment;
      var b := Ahead(a, i);
      var c := Ahead(a, j);
      EnvironmentIs(row, b);
      EnvironmentIs(row, c);
    }
  }
}
