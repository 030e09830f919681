// The spec rows of a run: one for each file, the last upload's, and what storing them loses of the
// counters that were uploaded.
module RunSpecs {
  import opened Text
  import opened Normalized

  /** UNIQUE (run_id, file_path). */
  predicate OnePerFile(specs: seq<Spec>) {
    forall i, j :: 0 <= i < j < |specs| ==> specs[i].filePath != specs[j].filePath
  }

  /** The last spec of a file. */
  function LastOf(specs: seq<Spec>, path: string): (k: Option<nat>)
    ensures k.Some? ==> k.value < |specs| && specs[k.value].filePath == path
    ensures k.Some? ==> forall i :: k.value < i < |specs| ==> specs[i].filePath != path
    ensures k.None? ==> forall i :: 0 <= i < |specs| ==> specs[i].filePath != path
  {
    if specs == [] then None
    else if specs[|specs| - 1].filePath == path then Some(|specs| - 1)
    else LastOf(specs[..|specs| - 1], path)
  }

  /** INSERT INTO specs … ON CONFLICT (run_id, file_path) DO UPDATE: the row of the file is overwritten. */
  function Upserted(stored: seq<Spec>, spec: Spec): seq<Spec> {
    var k := LastOf(stored, spec.filePath);
    if k.Some? then stored[k.value := spec] else stored + [spec]
  }

  function Stored(before: seq<Spec>, specs: seq<Spec>): seq<Spec> {
    if specs == [] then before else Upserted(Stored(before, specs[..|specs| - 1]), specs[|specs| - 1])
  }

  lemma UpsertKeepsFiles(stored: seq<Spec>, spec: Spec)
    requires OnePerFile(stored)
    ensures OnePerFile(Upserted(stored, spec))
  {
  }

  lemma {:induction false} StoreKeepsFiles(before: seq<Spec>, specs: seq<Spec>)
    requires OnePerFile(before)
    ensures OnePerFile(Stored(before, specs))
  {
    if specs != [] {
      StoreKeepsFiles(before, specs[..|specs| - 1]);
      UpsertKeepsFiles(Stored(before, specs[..|specs| - 1]), specs[|specs| - 1]);
    }
  }

  lemma {:induction false} StoreConcat(before: seq<Spec>, a: seq<Spec>, b: seq<Spec>)
    ensures Stored(before, a + b) == Stored(Stored(before, a), b)
  {
    if b == [] {
      assert a + b == a;
    } else {
      assert (a + b)[..|a + b| - 1] == a + b[..|b| - 1];
      StoreConcat(before, a, b[..|b| - 1]);
    }
  }

  // ---------------------------------------------------------------- the last spec of each file

  /** The spec found for a file, if there is one. */
  function SpecFor(specs: seq<Spec>, path: string): Option<Spec> {
    var k := LastOf(specs, path);
    if k.Some? then Some(specs[k.value]) else None
  }

  lemma UpsertedFor(stored: seq<Spec>, spec: Spec, path: string)
    requires OnePerFile(stored)
    ensures SpecFor(Upserted(stored, spec), path) == if path == spec.filePath then Some(spec) else SpecFor(stored, path)
  {
    var after, k := Upserted(stored, spec), LastOf(stored, spec.filePath);
    var was, now := LastOf(stored, path), LastOf(after, path);
    if k.Some? { assert after[k.value] == spec; } else { assert after[|stored|] == spec; }
    if was.Some? { assert path != spec.filePath ==> after[was.value] == stored[was.value]; }
    if now.Some? && now.value < |stored| && path != spec.filePath { assert stored[now.value].filePath == path; }
  }

  lemma NextFor(specs: seq<Spec>, path: string)
    requires specs != []
    ensures var last := specs[|specs| - 1];
            SpecFor(specs, path) == if path == last.filePath then Some(last) else SpecFor(specs[..|specs| - 1], path)
  {
  }

  /** Whatever was uploaded in whatever order, the row of a file is the last spec uploaded for it. */
  lemma {:induction false} LastSpecStays(before: seq<Spec>, specs: seq<Spec>, path: string)
    requires OnePerFile(before)
    ensures SpecFor(Stored(before, specs), path) == SpecFor(before + specs, path)
  {
    if specs == [] {
      assert before + specs == before;
    } else {
      var front, last := specs[..|specs| - 1], specs[|specs| - 1];
      LastSpecStays(before, front, path);
      StoreKeepsFiles(before, front);
      UpsertedFor(Stored(before, front), last, path);
      assert (before + specs)[..|before + specs| - 1] == before + front;
      NextFor(before + specs, path);
    }
  }

  // ---------------------------------------------------------------- what overwriting loses

  /** The counters of the row an upsert overwrites. */
  function Overwrites(stored: seq<Spec>, spec: Spec): Counts {
    var was := SpecFor(stored, spec.filePath);
    if was.Some? then was.value.counts else NOTHING
  }

  /** All the counters overwritten while storing. */
  function Lost(before: seq<Spec>, specs: seq<Spec>): Counts {
    if specs == [] then NOTHING
    else
      var front := specs[..|specs| - 1];
      Plus(Lost(before, front), Overwrites(Stored(before, front), specs[|specs| - 1]))
  }

  lemma {:induction false} SumUpdated(specs: seq<Spec>, k: nat, spec: Spec)
    requires k < |specs|
    ensures Plus(SumCounts(specs[k := spec]), specs[k].counts) == Plus(SumCounts(specs), spec.counts)
  {
    var after, front := specs[k := spec], specs[..|specs| - 1];
    if k == |specs| - 1 {
      assert after[..|after| - 1] == front;
    } else {
      assert after[..|after| - 1] == front[k := spec];
      SumUpdated(front, k, spec);
    }
  }

  lemma UpsertCounts(stored: seq<Spec>, spec: Spec)
    ensures Plus(SumCounts(Upserted(stored, spec)), Overwrites(stored, spec)) == Plus(SumCounts(stored), spec.counts)
  {
    var k := LastOf(stored, spec.filePath);
    if k.Some? {
      SumUpdated(stored, k.value, spec);
    } else {
      SpecsAppend(stored, spec);
    }
  }

  lemma Balance(all: Counts, before: Counts, front: Counts, mid: Counts, lost: Counts, one: Counts, after: Counts, over: Counts)
    requires Plus(mid, lost) == Plus(before, front) && Plus(after, over) == Plus(mid, one) && all == Plus(front, one)
    ensures Plus(after, Plus(lost, over)) == Plus(before, all)
  {
  }

  /** Nothing is lost but what is overwritten. */
  lemma {:induction false} StoreCounts(before: seq<Spec>, specs: seq<Spec>)
    ensures Plus(SumCounts(Stored(before, specs)), Lost(before, specs)) == Plus(SumCounts(before), SumCounts(specs))
  {
    if specs != [] {
      var front, last := specs[..|specs| - 1], specs[|specs| - 1];
      var mid := Stored(before, front);
      StoreCounts(before, front);
      UpsertCounts(mid, last);
      Balance(SumCounts(specs), SumCounts(before), SumCounts(front), SumCounts(mid), Lost(before, front), last.counts,
              SumCounts(Stored(before, specs)), Overwrites(mid, last));
    }
  }

  predicate Empty(c: Counts) {
    c.total == 0 && c.passed == 0 && c.failed == 0 && c.skipped == 0 && c.pending == 0
  }

  /** Every spec followed by another of its file counts nothing. */
  predicate NothingOverwritten(specs: seq<Spec>) {
    forall i, j :: 0 <= i < j < |specs| && specs[i].filePath == specs[j].filePath ==> Empty(specs[i].counts)
  }

  lemma PrefixOverwritesLess(specs: seq<Spec>, front: seq<Spec>, last: Spec)
    requires specs == front + [last]
    ensures NothingOverwritten(specs) <==> NothingOverwritten(front) && Empty(Overwrites(front, last))
  {
    var k := LastOf(front, last.filePath);
    if NothingOverwritten(specs) {
      forall i, j | 0 <= i < j < |front| && front[i].filePath == front[j].filePath ensures Empty(front[i].counts) {
        assert specs[i] == front[i] && specs[j] == front[j];
      }
      if k.Some? { assert specs[k.value] == front[k.value] && specs[|specs| - 1] == last; }
    }
    if NothingOverwritten(front) && Empty(Overwrites(front, last)) {
      forall i, j | 0 <= i < j < |specs| && specs[i].filePath == specs[j].filePath ensures Empty(specs[i].counts) {
        if j == |specs| - 1 {
          assert front[i] == specs[i] && front[i].filePath == last.filePath;
          assert k.Some? && i <= k.value;
        } else {
          assert front[i] == specs[i] && front[j] == specs[j];
        }
      }
    }
  }

  lemma PlusEmpty(sum: Counts, a: Counts, b: Counts)
    requires sum == Plus(a, b)
    ensures Empty(sum) <==> Empty(a) && Empty(b)
  {
    NoneOf(sum.total, a.total, b.total);
    NoneOf(sum.passed, a.passed, b.passed);
    NoneOf(sum.failed, a.failed, b.failed);
    NoneOf(sum.skipped, a.skipped, b.skipped);
    NoneOf(sum.pending, a.pending, b.pending);
  }

  lemma NoneOf(sum: nat, a: nat, b: nat)
    requires sum == a + b
    ensures sum == 0 <==> a == 0 && b == 0
  {
  }

  lemma {:induction false} LostIff(before: seq<Spec>, specs: seq<Spec>)
    requires OnePerFile(before)
    ensures Empty(Lost(before, specs)) <==> NothingOverwritten(before + specs)
  {
    if specs == [] {
      NothingYet(before, specs);
    } else {
      var front, last := specs[..|specs| - 1], specs[|specs| - 1];
      LostIff(before, front);
      OverwritesSame(before, front, last);
      assert specs == front + [last];
      LostNext(before, specs, front, last, before + specs, before + front);
    }
  }

  lemma NothingYet(before: seq<Spec>, specs: seq<Spec>)
    requires OnePerFile(before) && specs == []
    ensures Empty(Lost(before, specs)) && NothingOverwritten(before + specs)
  {
    assert before + specs == before;
  }

  /** The upsert overwrites what the list so far holds last for that file. */
  lemma OverwritesSame(before: seq<Spec>, front: seq<Spec>, last: Spec)
    requires OnePerFile(before)
    ensures Overwrites(Stored(before, front), last) == Overwrites(before + front, last)
  {
    LastSpecStays(before, front, last.filePath);
  }

  lemma LostNext(before: seq<Spec>, specs: seq<Spec>, front: seq<Spec>, last: Spec, all: seq<Spec>, most: seq<Spec>)
    requires specs == front + [last] && all == before + specs && most == before + front
    requires Empty(Lost(before, front)) <==> NothingOverwritten(most)
    requires Overwrites(Stored(before, front), last) == Overwrites(most, last)
    ensures Empty(Lost(before, specs)) <==> NothingOverwritten(all)
  {
    LostStep(before, specs, front, last);
    PlusEmpty(Lost(before, specs), Lost(before, front), Overwrites(most, last));
    Longer(before, front, last);
    PrefixOverwritesLess(all, most, last);
  }

  lemma LostStep(before: seq<Spec>, specs: seq<Spec>, front: seq<Spec>, last: Spec)
    requires specs == front + [last]
    ensures Lost(before, specs) == Plus(Lost(before, front), Overwrites(Stored(before, front), last))
  {
    assert specs[..|specs| - 1] == front;
  }

  lemma Longer(before: seq<Spec>, front: seq<Spec>, last: Spec)
    ensures before + (front + [last]) == before + front + [last]
  {
  }

  lemma NothingLost(after: Counts, lost: Counts, sum: Counts)
    requires Plus(after, lost) == sum
    ensures after == sum <==> Empty(lost)
  {
  }

  /** What is stored adds up to what was there and what was uploaded if and only if every spec followed by another
      of its file counts nothing. */
  lemma StoreAddsUpIff(before: seq<Spec>, specs: seq<Spec>)
    requires OnePerFile(before)
    ensures SumCounts(Stored(before, specs)) == Plus(SumCounts(before), SumCounts(specs))
            <==> NothingOverwritten(before + specs)
  {
    StoreCounts(before, specs);
    LostIff(before, specs);
    NothingLost(SumCounts(Stored(before, specs)), Lost(before, specs), Plus(SumCounts(before), SumCounts(specs)));
  }

  /** For one list of specs: files distinct, or the overwritten specs empty. */
  lemma StoreReproducesIff(specs: seq<Spec>)
    ensures SumCounts(Stored([], specs)) == SumCounts(specs) <==> NothingOverwritten(specs)
  {
    StoreAddsUpIff([], specs);
    assert [] + specs == specs;
    PlusIs(SumCounts(specs), NOTHING, SumCounts(specs));
  }

  /** Where every spec counts its own tests, counting nothing is having none. */
  lemma OverwrittenEmpty(specs: seq<Spec>)
    requires SpecsTally(specs)
    ensures NothingOverwritten(specs) <==>
              forall i, j :: 0 <= i < j < |specs| && specs[i].filePath == specs[j].filePath ==> specs[i].tests == []
  {
    forall i | 0 <= i < |specs| ensures Empty(specs[i].counts) <==> specs[i].tests == [] { EmptyTally(specs[i].tests); }
  }

  lemma EmptyTally(tests: seq<Test>)
    ensures Empty(Tally(tests)) <==> tests == []
  {
  }
}
