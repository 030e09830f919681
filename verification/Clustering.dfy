// Grouping failures by the words their messages share: a similarity score, and greedy clusters
// around the first failure of each kind.
module Clustering {
  import opened Text

  // ---------------------------------------------------------------- similarity

  /** What is left of a character after lower-casing and dropping all but letters, digits and white space. Two
      characters outside ASCII have ASCII letters in their lower case: the Kelvin sign and the dotted capital I. */
  function CleanChar(c: char): string {
    if 'A' <= c <= 'Z' then [c - 'A' + 'a']
    else if c == '\U{212A}' then "k"
    else if c == '\U{0130}' then "i"
    else if 'a' <= c <= 'z' || IsDigit(c) || IsSpace(c) then [c]
    else ""
  }

  function Clean(text: string): string {
    if text == "" then "" else CleanChar(text[0]) + Clean(text[1..])
  }

  /** Letters in either case become the small one; digits, white space and the two characters from outside ASCII are
      kept, and nothing else is. */
  lemma CleanCharIs(c: char)
    ensures 'A' <= c <= 'Z' ==> |CleanChar(c)| == 1 && CaseOf(c, CleanChar(c)[0])
    ensures 'a' <= c <= 'z' || '0' <= c <= '9' || IsSpace(c) ==> CleanChar(c) == [c]
    ensures c == '\U{212A}' ==> CleanChar(c) == "k"
    ensures c == '\U{0130}' ==> CleanChar(c) == "i"
    ensures CleanChar(c) != "" ==> 'A' <= c <= 'Z' || 'a' <= c <= 'z' || '0' <= c <= '9' || IsSpace(c) || c in "\U{212A}\U{0130}"
  {
  }

  /** A text is cleaned character by character. */
  lemma {:induction false} CleanAppend(a: string, b: string)
    ensures Clean(a + b) == Clean(a) + Clean(b) && (|a| == 1 ==> Clean(a) == CleanChar(a[0]))
  {
    if a == "" {
      assert a + b == b;
    } else {
      assert (a + b)[1..] == a[1..] + b;
      CleanAppend(a[1..], b);
      JoinedParts(CleanChar(a[0]), Clean(a[1..]), Clean(b));
    }
  }

  function Elements(words: seq<string>): (r: set<string>)
    ensures forall w :: w in r <==> w in words
  {
    set w | w in words
  }

  /** The different words of a text. */
  function Tokens(text: string): set<string> {
    Elements(Words(Clean(text), ""))
  }

  lemma SpaceKept(space: char)
    requires IsSpace(space)
    ensures CleanChar(space) == [space]
  {
  }

  lemma CleanParts(a: string, space: char, b: string)
    requires IsSpace(space)
    ensures Clean(a + ([space] + b)) == Clean(a) + ([space] + Clean(b))
  {
    CleanAppend(a, [space] + b);
    CleanAppend([space], b);
    SpaceKept(space);
  }

  lemma ElementsOf(a: seq<string>, b: seq<string>, ab: seq<string>)
    requires ab == a + b
    ensures Elements(ab) == Elements(a) + Elements(b)
  {
  }

  /** The words of a text are those of its parts on either side of white space. */
  lemma TokensOfParts(a: string, space: char, b: string)
    requires IsSpace(space)
    ensures Tokens(a + ([space] + b)) == Tokens(a) + Tokens(b)
  {
    CleanParts(a, space, b);
    WordsSplit(Clean(a), space, Clean(b), "");
    ElementsOf(Words(Clean(a), ""), Words(Clean(b), ""), Words(Clean(a) + ([space] + Clean(b)), ""));
  }

  /** A text without white space is one word, cleaned, if anything is left of it. */
  lemma TokensOfWord(a: string)
    requires forall i :: 0 <= i < |a| ==> !IsSpace(a[i])
    ensures Tokens(a) == if Clean(a) == "" then {} else {Clean(a)}
  {
    CleanNoSpace(a);
    WordsGrow(Clean(a), "");
    assert "" + Clean(a) == Clean(a);
  }

  lemma {:induction false} CleanNoSpace(a: string)
    requires forall i :: 0 <= i < |a| ==> !IsSpace(a[i])
    ensures forall i :: 0 <= i < |Clean(a)| ==> !IsSpace(Clean(a)[i])
  {
    if a != "" { CleanNoSpace(a[1..]); }
  }

  function Largest(a: nat, b: nat): nat { if a >= b then a else b }

  /** The share of the larger vocabulary that both texts use. */
  function Score(a: set<string>, b: set<string>): real {
    if |a| == 0 || |b| == 0 then 0.0 else |a * b| as real / Largest(|a|, |b|) as real
  }

  function Similarity(a: string, b: string): real { Score(Tokens(a), Tokens(b)) }

  method ComputeSimilarity(a: string, b: string) returns (score: real)
    ensures score == Similarity(a, b)
  {
    var tokensA, tokensB := Tokens(a), Tokens(b);
    if |tokensA| == 0 || |tokensB| == 0 { return 0.0; }
    var intersection, rest := 0, tokensA;
    while rest != {}
      invariant rest <= tokensA && intersection == |(tokensA - rest) * tokensB|
      decreases |rest|
    {
      var t :| t in rest;
      ghost var counted := (tokensA - rest) * tokensB;
      if t in tokensB {
        intersection := intersection + 1;
        assert (tokensA - (rest - {t})) * tokensB == counted + {t};
      } else {
        assert (tokensA - (rest - {t})) * tokensB == counted;
      }
      rest := rest - {t};
    }
    assert (tokensA - rest) * tokensB == tokensA * tokensB;
    score := intersection as real / Largest(|tokensA|, |tokensB|) as real;
  }

  lemma Sizes(a: set<string>, b: set<string>)
    ensures |a * b| <= |a| && |a * b| <= |b| && a * b == b * a
    ensures |a * b| == |a| ==> a <= b
  {
    assert a == (a * b) + (a - b);
    assert b == (a * b) + (b - a);
    if |a * b| == |a| { assert |a - b| == 0; }
  }

  lemma Sign(a: real, m: real)
    requires m > 0.0
    ensures (a * m > 0.0 <==> a > 0.0) && (a * m == 0.0 <==> a == 0.0)
  {
    if a > 0.0 { assert a * m > 0.0; } else if a < 0.0 { assert -a * m > 0.0; }
  }

  /** A fraction of a whole. */
  lemma Fraction(n: nat, m: nat)
    requires n <= m && m > 0
    ensures 0.0 <= n as real / m as real <= 1.0
    ensures n as real / m as real == 1.0 <==> n == m
  {
    var q := n as real / m as real;
    assert q * m as real == n as real;
    assert (1.0 - q) * m as real == (m - n) as real;
    Sign(q, m as real);
    Sign(1.0 - q, m as real);
  }

  /** The score of two texts with words is the number of words they share over that of the one with more; a text
      without words shares nothing. */
  lemma ScoreIs(a: string, b: string)
    ensures Tokens(a) == {} || Tokens(b) == {} ==> Similarity(a, b) == 0.0
    ensures Tokens(a) != {} && Tokens(b) != {} ==>
              var larger := if |Tokens(b)| <= |Tokens(a)| then |Tokens(a)| else |Tokens(b)|;
              Similarity(a, b) * larger as real == |Tokens(a) * Tokens(b)| as real
  {
    var s, t := Tokens(a), Tokens(b);
    if s != {} && t != {} { Share(|s * t|, Largest(|s|, |t|)); }
  }

  lemma Share(n: nat, m: nat)
    requires m > 0
    ensures (n as real / m as real) * m as real == n as real
  {
    var q := n as real / m as real;
    assert q * m as real == n as real;
  }

  /** The score is symmetric and lies between 0 and 1; it is 1 exactly for texts of the same, and some, words. */
  lemma ScoreRange(a: string, b: string)
    ensures Similarity(a, b) == Similarity(b, a)
    ensures 0.0 <= Similarity(a, b) <= 1.0
    ensures Similarity(a, b) == 1.0 <==> Tokens(a) == Tokens(b) && Tokens(a) != {}
  {
    ScoreBounds(Tokens(a), Tokens(b));
  }

  lemma ScoreBounds(a: set<string>, b: set<string>)
    ensures Score(a, b) == Score(b, a)
    ensures 0.0 <= Score(a, b) <= 1.0
    ensures Score(a, b) == 1.0 <==> a == b && a != {}
  {
    Sizes(a, b);
    Sizes(b, a);
    if |a| > 0 && |b| > 0 { Fraction(|a * b|, Largest(|a|, |b|)); }
    if a == b { assert a * b == a; }
  }

  // ---------------------------------------------------------------- clusters

  /** Whether an item is near enough to a seed. */
  function Near<T(!new)>(getText: T -> string, threshold: real): (T, T) -> bool {
    (item: T, seed: T) => Similarity(getText(item), getText(seed)) >= threshold
  }

  /** The first seed an item is near to; the number of seeds if there is none. */
  function FirstNear<T>(seeds: seq<T>, item: T, near: (T, T) -> bool): (k: nat)
    ensures k <= |seeds|
    ensures k < |seeds| ==> near(item, seeds[k])
    ensures forall j :: 0 <= j < k ==> !near(item, seeds[j])
  {
    if seeds == [] || near(item, seeds[0]) then 0 else 1 + FirstNear(seeds[1..], item, near)
  }

  /** The seeds: each item near to no seed before it. */
  function Seeds<T>(items: seq<T>, near: (T, T) -> bool): (r: seq<T>)
    ensures |r| <= |items|
  {
    if items == [] then []
    else
      var seeds, last := Seeds(items[..|items| - 1], near), items[|items| - 1];
      if FirstNear(seeds, last, near) < |seeds| then seeds else seeds + [last]
  }

  /** Which cluster each item goes to. */
  function Places<T>(items: seq<T>, near: (T, T) -> bool): (r: seq<nat>)
    ensures |r| == |items|
  {
    if items == [] then []
    else
      var front := items[..|items| - 1];
      Places(front, near) + [FirstNear(Seeds(front, near), items[|items| - 1], near)]
  }

  /** The items placed in cluster k, in input order. */
  function Members<T>(items: seq<T>, places: seq<nat>, k: nat): seq<T>
    requires |items| == |places|
  {
    if items == [] then []
    else
      Members(items[..|items| - 1], places[..|items| - 1], k)
      + (if places[|items| - 1] == k then [items[|items| - 1]] else [])
  }

  /** The first n clusters. */
  function Clusters<T>(items: seq<T>, near: (T, T) -> bool, n: nat): (r: seq<seq<T>>)
    ensures |r| == n && forall k :: 0 <= k < n ==> r[k] == Members(items, Places(items, near), k)
  {
    seq(n, k requires 0 <= k < n => Members(items, Places(items, near), k))
  }

  lemma MembersNext<T>(items: seq<T>, item: T, near: (T, T) -> bool, k: nat)
    ensures var more := items + [item];
            Members(more, Places(more, near), k)
            == Members(items, Places(items, near), k)
               + (if FirstNear(Seeds(items, near), item, near) == k then [item] else [])
  {
    var more := items + [item];
    assert more[..|items|] == items;
    assert Places(more, near)[..|items|] == Places(items, near);
  }

  /** A cluster begins with its seed; beyond the last seed there is nothing. */
  lemma {:induction false} ClusterBegins<T>(items: seq<T>, near: (T, T) -> bool, k: nat)
    ensures var members := Members(items, Places(items, near), k); var seeds := Seeds(items, near);
            if k < |seeds| then members != [] && members[0] == seeds[k] else members == []
  {
    if items != [] {
      var front, last := items[..|items| - 1], items[|items| - 1];
      assert items == front + [last];
      ClusterBegins(front, near, k);
      MembersNext(front, last, near, k);
    }
  }

  /** The first cluster whose seed the text is near to, looked for seed by seed. */
  method FindCluster<T(!new)>(clusters: seq<seq<T>>, item: T, getText: T -> string, threshold: real, ghost seeds: seq<T>)
    returns (k: nat)
    requires |clusters| == |seeds| && forall j :: 0 <= j < |seeds| ==> clusters[j] != [] && clusters[j][0] == seeds[j]
    ensures k == FirstNear(seeds, item, Near(getText, threshold))
  {
    k := 0;
    var text := getText(item);
    ghost var near := Near(getText, threshold);
    ghost var first := FirstNear(seeds, item, near);
    while k < |clusters|
      invariant k <= first
    {
      var score := ComputeSimilarity(text, getText(clusters[k][0]));
      assert near(item, seeds[k]) <==> score >= threshold;
      if score >= threshold { break; }
      k := k + 1;
    }
  }

  /** One more item: it joins the first cluster whose seed it is near to, or starts one. */
  method PlaceItem<T(!new)>(clusters: seq<seq<T>>, item: T, getText: T -> string, threshold: real,
                            ghost items: seq<T>, ghost near: (T, T) -> bool)
    returns (more: seq<seq<T>>)
    requires near == Near(getText, threshold) && clusters == Clusters(items, near, |Seeds(items, near)|)
    ensures more == Clusters(items + [item], near, |Seeds(items + [item], near)|)
  {
    ghost var seeds := Seeds(items, near);
    forall j | 0 <= j < |seeds| ensures clusters[j] != [] && clusters[j][0] == seeds[j] { ClusterBegins(items, near, j); }
    var k := FindCluster(clusters, item, getText, threshold, seeds);
    Placed(items, item, near, clusters, k);
    more := if k < |clusters| then clusters[k := clusters[k] + [item]] else clusters + [[item]];
  }

  method ClusterBySimilarity<T(!new)>(items: seq<T>, getText: T -> string, threshold: real) returns (clusters: seq<seq<T>>)
    ensures var near := Near(getText, threshold); clusters == Clusters(items, near, |Seeds(items, near)|)
    ensures ByThreshold(clusters, getText, threshold) && multiset(Flatten(clusters)) == multiset(items)
  {
    clusters := [];
    ghost var near, seen: seq<T> := Near(getText, threshold), [];
    for i := 0 to |items|
      invariant seen == items[..i] && clusters == Clusters(seen, near, |Seeds(seen, near)|)
    {
      clusters := PlaceItem(clusters, items[i], getText, threshold, seen, near);
      seen := OneMore(items, i, seen);
    }
    assert seen == items;
    ClustersByThreshold(items, near, clusters, getText, threshold);
    ClustersPartition(items, near, |clusters|);
  }

  /** No cluster is empty; each member after the first scores at least the threshold against the first, and every member
      scores less against the first of each earlier cluster. */
  predicate ByThreshold<T(!new)>(clusters: seq<seq<T>>, getText: T -> string, threshold: real) {
    && (forall k :: 0 <= k < |clusters| ==> clusters[k] != [])
    && (forall k, m :: 0 <= k < |clusters| && 0 < m < |clusters[k]| ==>
          Similarity(getText(clusters[k][m]), getText(clusters[k][0])) >= threshold)
    && (forall j, k, m :: 0 <= j < k < |clusters| && 0 <= m < |clusters[k]| ==>
          clusters[j] != [] && Similarity(getText(clusters[k][m]), getText(clusters[j][0])) < threshold)
  }

  lemma ClustersByThreshold<T(!new)>(items: seq<T>, near: (T, T) -> bool, clusters: seq<seq<T>>, getText: T -> string, threshold: real)
    requires near == Near(getText, threshold) && clusters == Clusters(items, near, |Seeds(items, near)|)
    ensures ByThreshold(clusters, getText, threshold)
  {
    forall k | 0 <= k < |clusters| ensures clusters[k] != [] && clusters[k][0] == Seeds(items, near)[k] {
      ClusterBegins(items, near, k);
    }
    forall k, m | 0 <= k < |clusters| && 0 <= m < |clusters[k]|
      ensures 0 < m ==> near(clusters[k][m], clusters[k][0])
      ensures forall j :: 0 <= j < k ==> !near(clusters[k][m], clusters[j][0])
    {
      MemberNear(items, near, k, m, clusters[k]);
    }
  }

  /** A member is near its cluster's seed, unless it is the first, and near no earlier seed. */
  lemma {:induction false} MemberNear<T>(items: seq<T>, near: (T, T) -> bool, k: nat, m: nat, members: seq<T>)
    requires members == Members(items, Places(items, near), k) && m < |members| && k < |Seeds(items, near)|
    ensures m > 0 ==> near(members[m], Seeds(items, near)[k])
    ensures forall j :: 0 <= j < k ==> !near(members[m], Seeds(items, near)[j])
  {
    var front, last := items[..|items| - 1], items[|items| - 1];
    assert items == front + [last];
    MembersNext(front, last, near, k);
    var before := Members(front, Places(front, near), k);
    ClusterBegins(front, near, k);
    if m < |before| { MemberNear(front, near, k, m, before); }
  }

  /** These are places of items in cluster k, in order, and the members are what stands there. */
  ghost predicate TakenFrom<T>(members: seq<T>, items: seq<T>, places: seq<nat>, k: nat, from: seq<nat>) {
    && |from| == |members| && |items| == |places|
    && (forall m :: 0 <= m < |from| ==> from[m] < |items| && places[from[m]] == k && members[m] == items[from[m]])
    && forall m, n :: 0 <= m < n < |from| ==> from[m] < from[n]
  }

  lemma OneMoreTaken<T>(members: seq<T>, items: seq<T>, places: seq<nat>, k: nat, from: seq<nat>, item: T, place: nat)
    requires TakenFrom(members, items, places, k, from)
    ensures TakenFrom(members, items + [item], places + [place], k, from)
    ensures place == k ==> TakenFrom(members + [item], items + [item], places + [place], k, from + [|items|])
  {
  }

  /** The members of a cluster are items, each at its own place, in input order. */
  lemma {:induction false} MembersInOrder<T>(items: seq<T>, places: seq<nat>, k: nat) returns (from: seq<nat>)
    requires |items| == |places|
    ensures TakenFrom(Members(items, places, k), items, places, k, from)
  {
    from := [];
    if items != [] {
      var front, before := items[..|items| - 1], places[..|items| - 1];
      var item, place := items[|items| - 1], places[|items| - 1];
      from := MembersInOrder(front, before, k);
      OneMoreTaken(Members(front, before, k), front, before, k, from, item, place);
      assert items == front + [item] && places == before + [place];
      if place == k { from := from + [|front|]; }
    }
  }

  lemma OneMore<T>(items: seq<T>, i: nat, seen: seq<T>) returns (more: seq<T>)
    requires i < |items| && seen == items[..i]
    ensures more == seen + [items[i]] == items[..i + 1]
  {
    more := seen + [items[i]];
  }

  /** Joining the first near cluster, or starting one. */
  lemma Placed<T>(items: seq<T>, item: T, near: (T, T) -> bool, clusters: seq<seq<T>>, k: nat)
    requires clusters == Clusters(items, near, |Seeds(items, near)|) && k == FirstNear(Seeds(items, near), item, near)
    ensures var more := items + [item];
            Clusters(more, near, |Seeds(more, near)|)
            == if k < |clusters| then clusters[k := clusters[k] + [item]] else clusters + [[item]]
  {
    var more := items + [item];
    assert more[..|items|] == items;
    var after := Clusters(more, near, |Seeds(more, near)|);
    var expected := if k < |clusters| then clusters[k := clusters[k] + [item]] else clusters + [[item]];
    forall j | 0 <= j < |after| ensures after[j] == expected[j] {
      MembersNext(items, item, near, j);
      ClusterBegins(items, near, j);
    }
  }

  // ---------------------------------------------------------------- what the clusters are

  /** Each item is in the cluster of the first seed it is near to: near to its own seed, unless it is that seed, and
      near to no earlier one. */
  lemma {:induction false} PlacedByThreshold<T>(items: seq<T>, near: (T, T) -> bool, i: nat)
    requires i < |items|
    ensures var k, seeds := Places(items, near)[i], Seeds(items, near);
            && k < |seeds|
            && (near(items[i], seeds[k]) || items[i] == seeds[k])
            && forall j :: 0 <= j < k ==> !near(items[i], seeds[j])
  {
    var front := items[..|items| - 1];
    if i < |items| - 1 { PlacedByThreshold(front, near, i); }
  }

  predicate FarApart<T>(items: seq<T>, near: (T, T) -> bool) {
    forall j, k :: 0 <= j < k < |items| ==> !near(items[k], items[j])
  }

  lemma OneMoreFarApart<T>(seeds: seq<T>, item: T, near: (T, T) -> bool)
    requires FarApart(seeds, near) && FirstNear(seeds, item, near) == |seeds|
    ensures FarApart(seeds + [item], near)
  {
    var more := seeds + [item];
    forall j, k | 0 <= j < k < |more| ensures !near(more[k], more[j]) {
      if k == |seeds| { assert !near(item, seeds[j]); } else { assert !near(seeds[k], seeds[j]); }
    }
  }

  /** Seeds are pairwise far apart. */
  lemma {:induction false} SeedsFarApart<T>(items: seq<T>, near: (T, T) -> bool)
    ensures FarApart(Seeds(items, near), near)
  {
    if items != [] {
      var seeds, last := Seeds(items[..|items| - 1], near), items[|items| - 1];
      SeedsFarApart(items[..|items| - 1], near);
      if FirstNear(seeds, last, near) == |seeds| { OneMoreFarApart(seeds, last, near); }
    }
  }

  /** Every item is in exactly one cluster, and no cluster holds anything else. */
  lemma {:induction false} ClustersPartition<T>(items: seq<T>, near: (T, T) -> bool, n: nat)
    requires n == |Seeds(items, near)|
    ensures multiset(Flatten(Clusters(items, near, n))) == multiset(items)
  {
    forall i | 0 <= i < |items| ensures Places(items, near)[i] < n { PlacedByThreshold(items, near, i); }
    MembersPartition(items, Places(items, near), n);
    FlattenMembers(items, Places(items, near), Clusters(items, near, n), n);
  }

  function Flatten<T>(lists: seq<seq<T>>): seq<T> {
    if lists == [] then [] else Flatten(lists[..|lists| - 1]) + lists[|lists| - 1]
  }

  /** The items placed in the first n clusters. */
  function UpTo<T>(items: seq<T>, places: seq<nat>, n: nat): multiset<T>
    requires |items| == |places|
  {
    if n == 0 then multiset{} else UpTo(items, places, n - 1) + multiset(Members(items, places, n - 1))
  }

  lemma MembersMore<T>(items: seq<T>, places: seq<nat>, item: T, place: nat, k: nat)
    requires |items| == |places|
    ensures multiset(Members(items + [item], places + [place], k))
            == multiset(Members(items, places, k)) + Maybe(item, place == k)
  {
    assert (items + [item])[..|items|] == items && (places + [place])[..|items|] == places;
  }

  lemma {:induction false} UpToNext<T>(items: seq<T>, places: seq<nat>, item: T, place: nat, n: nat,
                                       more: seq<T>, morePlaces: seq<nat>)
    requires |items| == |places| && more == items + [item] && morePlaces == places + [place]
    ensures UpTo(more, morePlaces, n) == UpTo(items, places, n) + Maybe(item, place < n)
  {
    if n > 0 {
      var a, b := UpTo(items, places, n - 1), multiset(Members(items, places, n - 1));
      UpToNext(items, places, item, place, n - 1, more, morePlaces);
      MembersMore(items, places, item, place, n - 1);
      Gathered(a, b, item, place, n, UpTo(more, morePlaces, n - 1), multiset(Members(more, morePlaces, n - 1)));
    }
  }

  lemma Gathered<T>(a: multiset<T>, b: multiset<T>, item: T, place: nat, n: nat, c: multiset<T>, d: multiset<T>)
    requires n > 0 && c == a + Maybe(item, place < n - 1) && d == b + Maybe(item, place == n - 1)
    ensures c + d == (a + b) + Maybe(item, place < n)
  {
  }

  function Maybe<T>(item: T, there: bool): multiset<T> {
    if there then multiset{item} else multiset{}
  }

  lemma {:induction false} UpToNone<T>(n: nat)
    ensures UpTo<T>([], [], n) == multiset{}
  {
    if n > 0 { UpToNone<T>(n - 1); }
  }

  lemma {:induction false} MembersPartition<T>(items: seq<T>, places: seq<nat>, n: nat)
    requires |items| == |places| && forall i :: 0 <= i < |places| ==> places[i] < n
    ensures UpTo(items, places, n) == multiset(items)
  {
    if items == [] {
      UpToNone<T>(n);
      assert places == [];
    } else {
      var front, last := items[..|items| - 1], items[|items| - 1];
      var before, place := places[..|items| - 1], places[|items| - 1];
      MembersPartition(front, before, n);
      WithLast(items, front, last);
      WithLast(places, before, place);
      UpToNext(front, before, last, place, n, items, places);
    }
  }

  lemma WithLast<T>(items: seq<T>, front: seq<T>, last: T)
    requires |items| > 0 && front == items[..|items| - 1] && last == items[|items| - 1]
    ensures items == front + [last] && multiset(items) == multiset(front) + Maybe(last, true)
  {
    assert items == front + [last];
  }

  lemma {:induction false} FlattenMembers<T>(items: seq<T>, places: seq<nat>, clusters: seq<seq<T>>, n: nat)
    requires |items| == |places| && |clusters| == n
    requires forall k :: 0 <= k < n ==> clusters[k] == Members(items, places, k)
    ensures multiset(Flatten(clusters)) == UpTo(items, places, n)
  {
    if n > 0 { FlattenMembers(items, places, clusters[..n - 1], n - 1); }
  }

  /** Clustering the seeds alone puts each in a cluster of its own. */
  lemma SeedsStandAlone<T>(items: seq<T>, near: (T, T) -> bool)
    ensures var seeds := Seeds(items, near);
            Clusters(seeds, near, |Seeds(seeds, near)|) == seq(|seeds|, k requires 0 <= k < |seeds| => [seeds[k]])
  {
    var seeds := Seeds(items, near);
    SeedsFarApart(items, near);
    FarApartAlone(seeds, near);
    forall k | 0 <= k < |seeds| ensures Members(seeds, Places(seeds, near), k) == [seeds[k]] { AloneAt(seeds, near, k); }
  }

  lemma {:induction false} FarApartAlone<T>(items: seq<T>, near: (T, T) -> bool)
    requires FarApart(items, near)
    ensures Seeds(items, near) == items
  {
    if items != [] {
      var front := items[..|items| - 1];
      FarApartAlone(front, near);
      assert items == front + [items[|items| - 1]];
    }
  }

  lemma {:induction false} AloneAt<T>(items: seq<T>, near: (T, T) -> bool, k: nat)
    requires FarApart(items, near) && k < |items|
    ensures Members(items, Places(items, near), k) == [items[k]]
  {
    var front, last := items[..|items| - 1], items[|items| - 1];
    assert items == front + [last];
    FarApartAlone(front, near);
    MembersNext(front, last, near, k);
    ClusterBegins(front, near, k);
    if k < |front| { AloneAt(front, near, k); }
  }

  /** Texts without words are near to nothing, not even to each other, unless the threshold is 0 or less. */
  lemma BlankTextsStandAlone(a: string, b: string, threshold: real)
    requires Tokens(a) == {} && threshold > 0.0
    ensures Similarity(a, b) < threshold && Similarity(b, a) < threshold
  {
    ScoreBounds(Tokens(a), Tokens(b));
  }

  /** A text is near to itself, and so joins an earlier copy of itself, if and only if the threshold is 0 or less, or the
      text has words and the threshold is at most 1. */
  lemma NearItselfIff(a: string, threshold: real)
    ensures Similarity(a, a) >= threshold <==> threshold <= 0.0 || (Tokens(a) != {} && threshold <= 1.0)
  {
    ScoreBounds(Tokens(a), Tokens(a));
    if Tokens(a) == {} { assert |Tokens(a)| == 0; }
  }
}
