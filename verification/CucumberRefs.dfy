// Import references for the scenarios of one feature file: the file and the scenario name, told
// apart by the Examples row, and by a counter where even the rows agree.
module CucumberRefs {
  import opened Text
  import opened GherkinParser

  function CucumberRef(file: string, name: string): string { file + "::" + name }

  function BaseRefs(file: string, scenarios: seq<Scenario>): (r: seq<string>)
    ensures |r| == |scenarios|
    ensures forall i :: 0 <= i < |r| ==> r[i] == CucumberRef(file, scenarios[i].name)
  {
    seq(|scenarios|, i requires 0 <= i < |scenarios| => CucumberRef(file, scenarios[i].name))
  }

  /** How often a reference occurs. */
  function Count(refs: seq<string>, ref: string): (n: nat)
    ensures n > 0 <==> ref in refs
  {
    if refs == [] then 0
    else (if refs[|refs| - 1] == ref then 1 else 0) + Count(refs[..|refs| - 1], ref)
  }

  /** The base reference with its Examples row, if the scenario has one. */
  function RowKey(base: string, scenario: Scenario): string {
    if scenario.exampleRow.Some? && scenario.exampleRow.value != []
    then base + "::" + Join(scenario.exampleRow.value, "|") else base
  }

  /** A scenario without an Examples row, or with an empty one, goes by its base; with one, its cells follow after two
      colons, with a bar between each two. */
  lemma RowKeyIs(base: string, scenario: Scenario, key: string)
    requires key == RowKey(base, scenario)
    ensures scenario.exampleRow.None? || scenario.exampleRow.value == [] ==> key == base
    ensures scenario.exampleRow.Some? && |scenario.exampleRow.value| == 1 ==> key == base + "::" + scenario.exampleRow.value[0]
    ensures scenario.exampleRow.Some? && |scenario.exampleRow.value| > 1 ==>
              var cells := scenario.exampleRow.value;
              key == RowKey(base, scenario.(exampleRow := Some(cells[..|cells| - 1]))) + "|" + cells[|cells| - 1]
  {
    if scenario.exampleRow.Some? && |scenario.exampleRow.value| > 1 {
      var cells := scenario.exampleRow.value;
      var front, last := cells[..|cells| - 1], cells[|cells| - 1];
      assert cells == front + [last];
      JoinNext(front, last, "|");
      JoinedParts(base + "::", Join(front, "|"), "|" + last);
      JoinedParts((base + "::") + Join(front, "|"), "|", last);
    }
  }

  /** The n-th reference tried for a key: the key itself, then the key with a counter from 2. */
  function Candidate(key: string, n: nat): string
    requires n >= 1
  {
    if n == 1 then key else key + "#" + Decimal(n)
  }

  lemma CandidateLength(key: string, n: nat)
    requires n >= 1
    ensures n > 1 ==> |Candidate(key, n)| > |key| && Candidate(key, n)[|key| + 1..] == Decimal(n)
  {
  }

  /** No candidate is tried twice. */
  lemma CandidatesDiffer(key: string, m: nat, n: nat)
    requires m >= 1 && n >= 1 && Candidate(key, m) == Candidate(key, n)
    ensures m == n
  {
    CandidateLength(key, m);
    CandidateLength(key, n);
    if m > 1 && n > 1 { DecimalInjective(m, n); }
  }

  /** The candidates before n. */
  function Tried(key: string, n: nat): set<string>
    requires n >= 1
  {
    if n == 1 then {} else Tried(key, n - 1) + {Candidate(key, n - 1)}
  }

  lemma {:induction false} TriedIs(key: string, n: nat, ref: string) returns (m: nat)
    requires n >= 1 && ref in Tried(key, n)
    ensures 1 <= m < n && ref == Candidate(key, m)
  {
    if ref == Candidate(key, n - 1) { m := n - 1; } else { m := TriedIs(key, n - 1, ref); }
  }

  /** Each candidate is new, so n - 1 of them cannot all hide in a smaller set. */
  lemma {:induction false} TriedSize(key: string, n: nat)
    requires n >= 1
    ensures |Tried(key, n)| == n - 1
  {
    if n > 1 {
      TriedSize(key, n - 1);
      if Candidate(key, n - 1) in Tried(key, n - 1) {
        var m := TriedIs(key, n - 1, Candidate(key, n - 1));
        CandidatesDiffer(key, m, n - 1);
      }
    }
  }

  lemma SubsetSize(a: set<string>, b: set<string>)
    requires a <= b
    ensures |a| <= |b|
  {
    assert b == a + (b - a);
  }

  lemma Pigeonhole(key: string, n: nat, used: set<string>)
    requires n >= 1 && forall m :: 1 <= m < n ==> Candidate(key, m) in used
    ensures n <= |used| + 1
  {
    forall tried | tried in Tried(key, n) ensures tried in used { var m := TriedIs(key, n, tried); }
    TriedSize(key, n);
    SubsetSize(Tried(key, n), used);
  }

  /** The first candidate not yet used. It exists: there are more candidates than used references. */
  method FreeRef(key: string, used: set<string>) returns (ref: string, ghost tries: nat)
    ensures tries >= 1 && ref == Candidate(key, tries) && ref !in used
    ensures ref == if tries == 1 then key else key + "#" + Decimal(tries)
    ensures forall m :: 1 <= m < tries ==> Candidate(key, m) in used
  {
    ref, tries := key, 1;
    var n := 2;
    while ref in used
      invariant n >= 2 && tries == n - 1 && ref == Candidate(key, tries)
      invariant forall m :: 1 <= m < tries ==> Candidate(key, m) in used
      decreases |used| + 2 - n
    {
      Pigeonhole(key, n, used);
      ref := Candidate(key, n);
      n, tries := n + 1, tries + 1;
    }
  }

  /** The reference of scenario i is its base if no other scenario has that base; otherwise the first candidate of
      its row key that no unique base and no earlier scenario uses. */
  ghost predicate Resolved(bases: seq<string>, scenarios: seq<Scenario>, refs: seq<string>, i: nat)
    requires |bases| == |scenarios| && i < |refs| <= |bases|
  {
    if Count(bases, bases[i]) == 1 then refs[i] == bases[i]
    else exists tries :: FirstFree(bases, RowKey(bases[i], scenarios[i]), refs[..i], refs[i], tries)
  }

  predicate Taken(bases: seq<string>, before: seq<string>, ref: string) {
    Count(bases, ref) == 1 || ref in before
  }

  ghost predicate FirstFree(bases: seq<string>, key: string, before: seq<string>, ref: string, tries: nat) {
    && tries >= 1 && ref == Candidate(key, tries) && !Taken(bases, before, ref)
    && forall m :: 1 <= m < tries ==> Taken(bases, before, Candidate(key, m))
  }

  lemma {:induction false} CountAppend(refs: seq<string>, next: string, ref: string)
    ensures Count(refs + [next], ref) == Count(refs, ref) + (if next == ref then 1 else 0)
  {
    assert (refs + [next])[..|refs|] == refs;
  }

  /** counts: how often each reference occurs. */
  method CountRefs(refs: seq<string>) returns (counts: map<string, nat>)
    ensures forall ref :: ref in counts <==> ref in refs
    ensures forall ref :: ref in counts ==> counts[ref] == Count(refs, ref)
  {
    counts := map[];
    var i := 0;
    while i < |refs|
      invariant i <= |refs|
      invariant forall ref :: ref in counts <==> ref in refs[..i]
      invariant forall ref :: ref in counts ==> counts[ref] == Count(refs[..i], ref)
    {
      forall ref ensures Count(refs[..i + 1], ref) == Count(refs[..i], ref) + (if refs[i] == ref then 1 else 0) {
        CountAppend(refs[..i], refs[i], ref);
        assert refs[..i + 1] == refs[..i] + [refs[i]];
      }
      counts := counts[refs[i] := (if refs[i] in counts then counts[refs[i]] else 0) + 1];
      i := i + 1;
    }
    assert refs[..i] == refs;
  }

  /** Where the loop stands: the references given so far, and the set of those no later scenario may use. */
  ghost predicate SoFar(bases: seq<string>, scenarios: seq<Scenario>, refs: seq<string>, used: set<string>) {
    && |refs| <= |bases| == |scenarios|
    && (forall ref :: ref in used <==> Taken(bases, refs, ref))
    && (forall k :: 0 <= k < |refs| ==> Resolved(bases, scenarios, refs, k))
    && Distinct(refs)
  }

  /** One more reference leaves those before it resolved. */
  lemma StillResolved(bases: seq<string>, scenarios: seq<Scenario>, refs: seq<string>, next: string, k: nat)
    requires |bases| == |scenarios| && k < |refs| < |bases| && Resolved(bases, scenarios, refs, k)
    ensures Resolved(bases, scenarios, refs + [next], k)
  {
    var more := refs + [next];
    assert more[..k] == refs[..k] && more[k] == refs[k];
    if Count(bases, bases[k]) != 1 {
      var key := RowKey(bases[k], scenarios[k]);
      var tries :| FirstFree(bases, key, refs[..k], refs[k], tries);
      assert FirstFree(bases, key, more[..k], more[k], tries);
    }
  }

  lemma TakenAfter(bases: seq<string>, refs: seq<string>, next: string, ref: string)
    ensures Taken(bases, refs + [next], ref) <==> Taken(bases, refs, ref) || ref == next
  {
  }

  lemma DistinctAfter(refs: seq<string>, next: string)
    requires Distinct(refs) && next !in refs
    ensures Distinct(refs + [next])
  {
  }

  /** Any reference that is new and resolves its scenario carries the loop one scenario further. */
  lemma Given(bases: seq<string>, scenarios: seq<Scenario>, refs: seq<string>, used: set<string>, i: nat,
              ref: string, more: seq<string>)
    requires SoFar(bases, scenarios, refs, used) && i == |refs| < |bases| && more == refs + [ref] && ref !in refs
    requires Resolved(bases, scenarios, more, i)
    ensures SoFar(bases, scenarios, more, used + {ref})
  {
    forall k | 0 <= k < |more| ensures Resolved(bases, scenarios, more, k) {
      if k < i { StillResolved(bases, scenarios, refs, ref, k); }
    }
    forall x ensures x in used + {ref} <==> Taken(bases, more, x) { TakenAfter(bases, refs, ref, x); }
    DistinctAfter(refs, ref);
    assert |more| == i + 1 && Distinct(more);
    assert forall x :: x in used + {ref} <==> Taken(bases, more, x);
  }

  lemma GiveBase(bases: seq<string>, scenarios: seq<Scenario>, refs: seq<string>, used: set<string>, i: nat)
    requires SoFar(bases, scenarios, refs, used) && i == |refs| < |bases| && Count(bases, bases[i]) == 1
    ensures SoFar(bases, scenarios, refs + [bases[i]], used)
  {
    UniqueIsNew(bases, scenarios, refs, i);
    Given(bases, scenarios, refs, used, i, bases[i], refs + [bases[i]]);
    assert Taken(bases, refs, bases[i]);
    assert used + {bases[i]} == used;
  }

  lemma GiveRow(bases: seq<string>, scenarios: seq<Scenario>, refs: seq<string>, used: set<string>, i: nat,
                key: string, ref: string, tries: nat)
    requires SoFar(bases, scenarios, refs, used) && i == |refs| < |bases| && Count(bases, bases[i]) != 1
    requires key == RowKey(bases[i], scenarios[i]) && tries >= 1 && ref == Candidate(key, tries) && ref !in used
    requires forall m :: 1 <= m < tries ==> Candidate(key, m) in used
    ensures SoFar(bases, scenarios, refs + [ref], used + {ref})
  {
    assert !Taken(bases, refs, ref);
    forall m | 1 <= m < tries ensures Taken(bases, refs, Candidate(key, m)) { assert Candidate(key, m) in used; }
    assert FirstFree(bases, key, refs, ref, tries);
    assert (refs + [ref])[..i] == refs;
    Given(bases, scenarios, refs, used, i, ref, refs + [ref]);
  }

  /** One reference per scenario, all different, and every base that was already unique left as it was. */
  method ResolveCucumberRefs(file: string, scenarios: seq<Scenario>) returns (refs: seq<string>)
    ensures |refs| == |scenarios|
    ensures forall i, j :: 0 <= i < j < |refs| ==> refs[i] != refs[j]
    ensures forall i :: 0 <= i < |refs| ==> Resolved(BaseRefs(file, scenarios), scenarios, refs, i)
  {
    var baseRefs := BaseRefs(file, scenarios);
    var counts := CountRefs(baseRefs);
    var used := set ref | ref in baseRefs && counts[ref] == 1;
    refs := [];
    var i := 0;
    while i < |scenarios|
      invariant i == |refs| <= |scenarios| && SoFar(baseRefs, scenarios, refs, used)
    {
      var base := baseRefs[i];
      if counts[base] == 1 {
        GiveBase(baseRefs, scenarios, refs, used, i);
        refs := refs + [base];
      } else {
        var key := RowKey(base, scenarios[i]);
        var ref, tries := FreeRef(key, used);
        GiveRow(baseRefs, scenarios, refs, used, i, key, ref, tries);
        refs := refs + [ref];
        used := used + {ref};
      }
      i := i + 1;
    }
  }

  predicate Distinct(refs: seq<string>) {
    forall i, j :: 0 <= i < j < |refs| ==> refs[i] != refs[j]
  }

  /** A base that occurs once has not been given to an earlier scenario. */
  lemma UniqueIsNew(bases: seq<string>, scenarios: seq<Scenario>, refs: seq<string>, i: nat)
    requires |bases| == |scenarios| && |refs| == i < |bases| && Count(bases, bases[i]) == 1
    requires forall k :: 0 <= k < i ==> Resolved(bases, scenarios, refs, k)
    ensures bases[i] !in refs
  {
    if bases[i] in refs {
      var k :| 0 <= k < i && refs[k] == bases[i];
      assert Resolved(bases, scenarios, refs, k);
      if Count(bases, bases[k]) == 1 { CountTwice(bases, k, i); }
    }
  }

  /** A reference at two places is counted at least twice. */
  lemma {:induction false} CountTwice(refs: seq<string>, k: nat, i: nat)
    requires k < i < |refs| && refs[k] == refs[i]
    ensures Count(refs, refs[i]) >= 2
  {
    var front := refs[..|refs| - 1];
    if i < |refs| - 1 { CountTwice(front, k, i); } else { assert front[k] == refs[i]; }
  }
}
