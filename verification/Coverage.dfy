// The coverage gate's displayed number: widened until it cannot contradict the decision.
module Coverage {

  /** Ten to the power of the number of decimals shown. */
  function Unit(dp: nat): real
    requires 1 <= dp <= 6
  {
    if dp == 1 then 10.0 else if dp == 2 then 100.0 else if dp == 3 then 1000.0
    else if dp == 4 then 10000.0 else if dp == 5 then 100000.0 else 1000000.0
  }

  const HUGE := 1000000000000000000000.0

  /** Number(x.toFixed(dp)), section 21.1.3.3 of ECMA-262: the sign aside, the nearest multiple of the unit, the
      larger one when two are as near; numbers of 10^21 and more are shown as they are. */
  function Fixed(x: real, dp: nat): real
    requires 1 <= dp <= 6
  {
    if x >= HUGE || -x >= HUGE then x
    else if x < 0.0 then -((-x * Unit(dp) + 0.5).Floor as real / Unit(dp))
    else (x * Unit(dp) + 0.5).Floor as real / Unit(dp)
  }

  /** The number is on the side of the threshold that the decision says. */
  predicate Agrees(shown: real, threshold: real, pass: bool) {
    if pass then shown >= threshold else shown < threshold
  }

  /** Rounded away from the threshold at the sixth decimal. */
  function Safe(x: real, pass: bool): real {
    if pass then -((-x * 1000000.0).Floor as real / 1000000.0) else (x * 1000000.0).Floor as real / 1000000.0
  }

  /** What is shown: a rounded number with its decimals, or the fallback when six were not enough. */
  datatype Shown = Rounded(value: real, dp: nat) | Fallback(value: real)

  function ShownFrom(x: real, threshold: real, pass: bool, dp: nat): (r: Shown)
    requires 1 <= dp <= 7
    ensures r.Rounded? ==> dp <= r.dp <= 6 && r.value == Fixed(x, r.dp) && Agrees(r.value, threshold, pass)
    ensures r.Fallback? ==> r.value == Safe(x, pass)
    ensures forall e :: dp <= e <= (if r.Rounded? then r.dp - 1 else 6) ==> !Agrees(Fixed(x, e), threshold, pass)
    decreases 7 - dp
  {
    if dp == 7 then Fallback(Safe(x, pass))
    else if Agrees(Fixed(x, dp), threshold, pass) then Rounded(Fixed(x, dp), dp)
    else ShownFrom(x, threshold, pass, dp + 1)
  }

  method FormatCoveragePct(linesPct: real, threshold: real, pass: bool) returns (shown: Shown)
    ensures shown == ShownFrom(linesPct, threshold, pass, 1)
  {
    for dp := 1 to 7
      invariant ShownFrom(linesPct, threshold, pass, 1) == ShownFrom(linesPct, threshold, pass, dp)
    {
      var rounded := Fixed(linesPct, dp);
      if (if pass then rounded >= threshold else rounded < threshold) { return Rounded(rounded, dp); }
    }
    shown := Fallback(if pass then -((-linesPct * 1000000.0).Floor as real / 1000000.0)
                      else (linesPct * 1000000.0).Floor as real / 1000000.0);
  }

  datatype Status = Status(success: bool, shown: Shown)

  /** The gate's decision, exact, and the number displayed with it. */
  method CoverageStatusContent(linesPct: real, threshold: real) returns (status: Status)
    ensures status.success <==> linesPct >= threshold
    ensures Agrees(status.shown.value, threshold, status.success)
    ensures status.shown == ShownFrom(linesPct, threshold, linesPct >= threshold, 1)
  {
    var pass := linesPct >= threshold;
    var shown := FormatCoveragePct(linesPct, threshold, pass);
    DisplayNeverContradicts(linesPct, threshold);
    status := Status(pass, shown);
  }

  // ---------------------------------------------------------------- rounding

  function Distance(a: real, b: real): (d: real)
    ensures d >= 0.0 && (d == a - b || d == b - a)
  {
    if a >= b then a - b else b - a
  }

  /** Each decimal is worth a tenth of the one before. */
  lemma UnitIsPower(dp: nat)
    requires 1 <= dp < 6
    ensures Unit(1) == 10.0 && Unit(dp + 1) == 10.0 * Unit(dp)
  {
  }

  /** A whole number of units, at most half a unit away, and of two that are as near the one further from zero; a
      number too large to round is itself. */
  lemma FixedIsNearest(x: real, dp: nat)
    requires 1 <= dp <= 6
    ensures x >= 1000000000000000000000.0 || x <= -1000000000000000000000.0 ==> Fixed(x, dp) == x
    ensures -1000000000000000000000.0 < x < 1000000000000000000000.0 ==>
              var n := Fixed(x, dp) * Unit(dp);
              && n == n.Floor as real
              && (x >= 0.0 ==> -0.5 < n - x * Unit(dp) <= 0.5)
              && (x <= 0.0 ==> -0.5 <= n - x * Unit(dp) < 0.5)
  {
    var above, below := (x * Unit(dp) + 0.5).Floor, (-x * Unit(dp) + 0.5).Floor;
    Whole(above, Unit(dp));
    Whole(below, Unit(dp));
  }

  lemma Whole(n: int, unit: real)
    requires unit > 0.0
    ensures (n as real / unit) * unit == n as real && -(n as real / unit) * unit == (-n) as real
  {
  }

  /** Rounding to dp decimals moves a number by at most half a unit of the last. */
  lemma HalfAUnit(x: real, dp: nat)
    requires 1 <= dp <= 6
    ensures Distance(Fixed(x, dp), x) <= 0.5 / Unit(dp)
  {
    if dp == 1 {} else if dp == 2 {} else if dp == 3 {} else if dp == 4 {} else if dp == 5 {} else {}
  }

  /** The fallback moves a number by less than a millionth, and never towards the threshold. */
  lemma SafeSide(x: real, pass: bool)
    ensures Distance(Safe(x, pass), x) < 0.000001
    ensures if pass then Safe(x, pass) >= x else Safe(x, pass) <= x
  {
  }

  /** And it is a whole number of millionths. */
  lemma SafeIsWhole(x: real, pass: bool)
    ensures Safe(x, pass) * 1000000.0 == (Safe(x, pass) * 1000000.0).Floor as real
  {
    var n := if pass then -((-x * 1000000.0).Floor) else (x * 1000000.0).Floor;
    Whole((-x * 1000000.0).Floor, 1000000.0);
    Whole((x * 1000000.0).Floor, 1000000.0);
    assert Safe(x, pass) * 1000000.0 == n as real;
  }

  /** For every coverage and threshold the number shown lies on the same side of the threshold as the decision, with
      the fewest of one to six decimals that does, within half a unit of its last place; beyond six, within a
      millionth. */
  lemma DisplayNeverContradicts(x: real, threshold: real)
    ensures var pass := x >= threshold; var shown := ShownFrom(x, threshold, pass, 1);
            && Agrees(shown.value, threshold, pass)
            && (shown.Rounded? ==> Distance(shown.value, x) <= 0.5 / Unit(shown.dp))
            && (shown.Fallback? ==> Distance(shown.value, x) < 0.000001)
            && forall e :: 1 <= e < (if shown.Rounded? then shown.dp else 7) ==> !Agrees(Fixed(x, e), threshold, pass)
  {
    var pass := x >= threshold;
    var shown := ShownFrom(x, threshold, pass, 1);
    if shown.Rounded? { HalfAUnit(x, shown.dp); } else { SafeSide(x, pass); }
  }

  /** One decimal whenever the coverage is more than half a tenth away from the threshold, and the fallback only
      within half a millionth of it. */
  lemma HowManyDecimals(x: real, threshold: real)
    ensures Distance(x, threshold) > 0.05 ==> ShownFrom(x, threshold, x >= threshold, 1) == Rounded(Fixed(x, 1), 1)
    ensures ShownFrom(x, threshold, x >= threshold, 1).Fallback? ==> Distance(x, threshold) <= 0.0000005
  {
    HalfAUnit(x, 1);
    HalfAUnit(x, 6);
  }

  /** 79.96 against 80 takes two decimals: one would show 80.0. */
  lemma NearMiss()
    ensures ShownFrom(79.96, 80.0, false, 1) == Rounded(79.96, 2)
  {
    assert Fixed(79.96, 1) == 80.0 by { assert (79.96 * 10.0 + 0.5).Floor == 800; }
    assert Fixed(79.96, 2) == 79.96 by { assert (79.96 * 100.0 + 0.5).Floor == 7996; }
    assert ShownFrom(79.96, 80.0, false, 1) == ShownFrom(79.96, 80.0, false, 2);
  }
}
