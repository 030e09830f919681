// Substituting an Examples row in any text whatever, brackets and nested placeholders included:
// when replacing one header after another is filling every placeholder at once.
module GherkinTexts {
  import opened Text
  import opened GherkinLines
  import opened GherkinParser
  import opened GherkinExamples

  /** The first column whose placeholder the text begins with. */
  function At(text: string, headers: seq<string>): (k: nat)
    ensures k <= |headers|
    ensures k < |headers| ==> StartsWith(text, Placeholder(headers[k]))
    ensures forall i :: 0 <= i < k ==> !StartsWith(text, Placeholder(headers[i]))
  {
    if headers == [] || StartsWith(text, Placeholder(headers[0])) then 0 else 1 + At(text, headers[1..])
  }

  /** The text read once, from left to right, with every placeholder of a header replaced by that column's cell. */
  function FillText(text: string, headers: seq<string>, row: seq<string>): string
    decreases |text|
  {
    if text == "" then ""
    else
      var k := At(text, headers);
      if k < |headers| then Cell(row, k) + FillText(text[|Placeholder(headers[k])|..], headers, row)
      else [text[0]] + FillText(text[1..], headers, row)
  }

  // ---------------------------------------------------------------- what a cell can bring together

  /** The text begins as some end of the pattern does: it lies inside the pattern, the empty text too, or begins with
      an end of it, so that what stands before it can complete the pattern. */
  predicate BeginsInside(text: string, pattern: string) {
    exists a :: 0 < a < |pattern| && (text <= pattern[a..] || pattern[a..] <= text)
  }

  /** Some text around the cell makes an occurrence of the pattern that the cell has a part in. */
  predicate Meets(text: string, pattern: string) {
    Touches(text, pattern) || BeginsInside(text, pattern)
  }

  /** The cell that fills a placeholder can bring about a later header's placeholder, which is then replaced by
      something else. */
  predicate Clash(headers: seq<string>, row: seq<string>, i: nat, j: nat)
    requires i < j < |headers|
  {
    Fills(headers, i) && Cell(row, j) != Placeholder(headers[j]) && Meets(Cell(row, i), Placeholder(headers[j]))
  }

  predicate NoClash(headers: seq<string>, row: seq<string>) {
    forall i, j :: 0 <= i < j < |headers| ==> !Clash(headers, row, i, j)
  }

  // ---------------------------------------------------------------- a text as its characters and placeholders

  function Parse(text: string, headers: seq<string>): seq<Piece>
    decreases |text|
  {
    if text == "" then []
    else
      var k := At(text, headers);
      if k < |headers| then [Hole(headers[k])] + Parse(text[|Placeholder(headers[k])|..], headers)
      else [Lit([text[0]])] + Parse(text[1..], headers)
  }

  /** Single characters where no placeholder begins, and placeholders of headers. */
  predicate Parsed(pieces: seq<Piece>, headers: seq<string>) {
    pieces == [] ||
    (Parsed(pieces[1..], headers)
     && match pieces[0]
        case Lit(text) => |text| == 1 && At(Show(pieces), headers) == |headers|
        case Hole(name) => IsName(name) && Column(name, headers) < |headers|)
  }

  lemma {:induction false} ColumnIs(headers: seq<string>, k: nat)
    requires k < |headers| && forall i :: 0 <= i < k ==> headers[i] != headers[k]
    ensures Column(headers[k], headers) == k
  {
    if k > 0 { ColumnIs(headers[1..], k - 1); }
  }

  /** The column found is the first of its header. */
  lemma AtFills(text: string, headers: seq<string>)
    requires At(text, headers) < |headers|
    ensures Column(headers[At(text, headers)], headers) == At(text, headers)
  {
    ColumnIs(headers, At(text, headers));
  }

  lemma {:induction false} ParseIs(text: string, headers: seq<string>, row: seq<string>)
    requires AllNames(headers)
    ensures var pieces := Parse(text, headers);
            Parsed(pieces, headers) && Show(pieces) == text && Fill(pieces, headers, row) == FillText(text, headers, row)
    decreases |text|
  {
    if text != "" {
      var k := At(text, headers);
      var piece := if k < |headers| then Hole(headers[k]) else Lit([text[0]]);
      var rest := text[|ShowPiece(piece)|..];
      assert text == ShowPiece(piece) + rest;
      ParseIs(rest, headers, row);
      assert Parse(text, headers)[1..] == Parse(rest, headers);
      if k < |headers| { AtFills(text, headers); }
    }
  }

  // ---------------------------------------------------------------- one column, in any text

  lemma FilledFirst(pieces: seq<Piece>, headers: seq<string>, row: seq<string>, n: nat)
    requires pieces != [] && n <= |headers|
    ensures Show(Filled(pieces, headers, row, n))
            == ShowPiece(FilledPiece(pieces[0], headers, row, n)) + Show(Filled(pieces[1..], headers, row, n))
  {
    assert Filled(pieces, headers, row, n)[1..] == Filled(pieces[1..], headers, row, n);
  }

  lemma NothingFilled(pieces: seq<Piece>, headers: seq<string>, row: seq<string>)
    ensures Filled(pieces, headers, row, 0) == pieces
  {
  }

  /** Filled cells cannot bring about what is left of a placeholder that has begun, unless one of them meets it. */
  lemma {:induction false} NothingCompleted(pieces: seq<Piece>, headers: seq<string>, row: seq<string>, n: nat, a: nat, q: string)
    requires Parsed(pieces, headers) && AllNames(headers) && n < |headers| && NoClash(headers, row)
    requires Cell(row, n) != Placeholder(headers[n])
    requires 0 < a <= |Placeholder(headers[n])| && q == Placeholder(headers[n])[a..] && !(q <= Show(pieces))
    ensures !(q <= Show(Filled(pieces, headers, row, n)))
    decreases |pieces|
  {
    if pieces != [] {
      var rest := Show(Filled(pieces[1..], headers, row, n));
      FilledFirst(pieces, headers, row, n);
      assert q != "" && q[0] == (headers[n] + ">")[a - 1] && q[0] != '<';
      match pieces[0]
      case Lit(text) =>
        if q <= text + rest {
          TailIn(q, text, rest);
          if q[1..] <= Show(pieces[1..]) { TailBack(q, text, Show(pieces[1..])); }
          NothingCompleted(pieces[1..], headers, row, n, a + 1, q[1..]);
        }
      case Hole(name) =>
        if Column(name, headers) < n {
          NoCellBegins(headers, row, name, n, a, q, rest);
        } else {
          assert (Placeholder(name) + rest)[0] == '<';
        }
    }
  }

  lemma NoCellBegins(headers: seq<string>, row: seq<string>, name: string, n: nat, a: nat, q: string, rest: string)
    requires n < |headers| && NoClash(headers, row) && Column(name, headers) < n && Cell(row, n) != Placeholder(headers[n])
    requires 0 < a < |Placeholder(headers[n])| && q == Placeholder(headers[n])[a..]
    ensures !(q <= Cell(row, Column(name, headers)) + rest)
  {
    var k := Column(name, headers);
    FirstColumn(name, headers);
    assert !Clash(headers, row, k, n) && !BeginsInside(Cell(row, k), Placeholder(headers[n]));
    if q <= Cell(row, k) + rest { Comparable(q, Cell(row, k), rest); }
  }

  lemma TailIn(q: string, head: string, rest: string)
    requires q != "" && |head| == 1 && q <= head + rest
    ensures q[0] == head[0] && q[1..] <= rest
  {
    assert q[0] == head[0] && (head + rest)[1..] == rest;
  }

  lemma TailBack(q: string, head: string, rest: string)
    requires q != "" && |head| == 1 && q[0] == head[0] && q[1..] <= rest
    ensures q <= head + rest
  {
    assert q == head + q[1..];
  }

  lemma Comparable(q: string, head: string, rest: string)
    requires q <= head + rest
    ensures q <= head || head <= q
  {
    if |q| <= |head| {
      assert q == (head + rest)[..|q|] == head[..|q|];
    } else {
      assert head == (head + rest)[..|head|] == q[..|head|];
    }
  }

  /** No placeholder begins at a character at which none began before. */
  lemma NoFalseStart(pieces: seq<Piece>, headers: seq<string>, row: seq<string>, n: nat, rest: string)
    requires Parsed(pieces, headers) && AllNames(headers) && n < |headers| && NoClash(headers, row)
    requires Cell(row, n) != Placeholder(headers[n]) && pieces != [] && pieces[0].Lit?
    requires rest == Show(Filled(pieces[1..], headers, row, n))
    ensures !StartsWith(pieces[0].text + rest, Placeholder(headers[n]))
  {
    var p, text := Placeholder(headers[n]), pieces[0].text;
    NotAt(Show(pieces), headers, n);
    assert Show(pieces) == text + Show(pieces[1..]);
    if StartsWith(text + rest, p) {
      TailIn(p, text, rest);
      if p[1..] <= Show(pieces[1..]) { TailBack(p, text, Show(pieces[1..])); }
      NothingCompleted(pieces[1..], headers, row, n, 1, p[1..]);
    }
  }

  lemma NotAt(text: string, headers: seq<string>, n: nat)
    requires At(text, headers) == |headers| && n < |headers|
    ensures !StartsWith(text, Placeholder(headers[n])) && !(Placeholder(headers[n]) <= text)
  {
  }

  /** Replacing the next header fills its placeholders and does nothing else. */
  lemma {:induction false} ColumnFilled(pieces: seq<Piece>, headers: seq<string>, row: seq<string>, n: nat)
    requires Parsed(pieces, headers) && AllNames(headers) && n < |headers| && NoClash(headers, row)
    requires Cell(row, n) != Placeholder(headers[n])
    ensures ReplaceAll(Show(Filled(pieces, headers, row, n)), Placeholder(headers[n]), Cell(row, n))
            == Show(Filled(pieces, headers, row, n + 1))
    decreases |pieces|
  {
    if pieces != [] {
      FilledFirst(pieces, headers, row, n);
      FilledFirst(pieces, headers, row, n + 1);
      ColumnFilled(pieces[1..], headers, row, n);
      PieceFilled(pieces, headers, row, n, Show(Filled(pieces[1..], headers, row, n)));
    }
  }

  lemma PieceFilled(pieces: seq<Piece>, headers: seq<string>, row: seq<string>, n: nat, rest: string)
    requires Parsed(pieces, headers) && AllNames(headers) && n < |headers| && NoClash(headers, row)
    requires Cell(row, n) != Placeholder(headers[n]) && pieces != []
    requires rest == Show(Filled(pieces[1..], headers, row, n))
    ensures ReplaceAll(ShowPiece(FilledPiece(pieces[0], headers, row, n)) + rest, Placeholder(headers[n]), Cell(row, n))
            == ShowPiece(FilledPiece(pieces[0], headers, row, n + 1)) + ReplaceAll(rest, Placeholder(headers[n]), Cell(row, n))
  {
    match pieces[0]
    case Lit(text) =>
      NoFalseStart(pieces, headers, row, n, rest);
      CharStays(text, rest, Placeholder(headers[n]), Cell(row, n));
    case Hole(name) =>
      HoleFilled(name, headers, row, n, rest);
  }

  lemma CharStays(text: string, rest: string, pattern: string, value: string)
    requires |text| == 1 && pattern != "" && !StartsWith(text + rest, pattern)
    ensures ReplaceAll(text + rest, pattern, value) == text + ReplaceAll(rest, pattern, value)
  {
    assert (text + rest)[0] == text[0] && (text + rest)[1..] == rest;
  }

  lemma HoleFilled(name: string, headers: seq<string>, row: seq<string>, n: nat, rest: string)
    requires IsName(name) && AllNames(headers) && n < |headers| && NoClash(headers, row)
    requires Cell(row, n) != Placeholder(headers[n])
    ensures ReplaceAll(ShowPiece(FilledPiece(Hole(name), headers, row, n)) + rest, Placeholder(headers[n]), Cell(row, n))
            == ShowPiece(FilledPiece(Hole(name), headers, row, n + 1)) + ReplaceAll(rest, Placeholder(headers[n]), Cell(row, n))
  {
    var k := Column(name, headers);
    if k < n {
      FirstColumn(name, headers);
      assert !Clash(headers, row, k, n);
      ReplaceSkips(Cell(row, k), rest, Placeholder(headers[n]), Cell(row, n));
    } else if k == n {
      ReplaceOwn(rest, headers[n], Cell(row, n));
    } else {
      ReplaceOther(name, rest, headers[n], Cell(row, n));
    }
  }

  /** A column whose cell is its own placeholder changes nothing. */
  lemma {:induction false} ReplaceSame(text: string, pattern: string)
    requires pattern != ""
    ensures ReplaceAll(text, pattern, pattern) == text
    decreases |text|
  {
    if text != "" {
      if StartsWith(text, pattern) {
        ReplaceSame(text[|pattern|..], pattern);
        assert pattern + text[|pattern|..] == text;
      } else {
        ReplaceSame(text[1..], pattern);
      }
    }
  }

  lemma {:induction false} OwnCellShown(pieces: seq<Piece>, headers: seq<string>, row: seq<string>, n: nat)
    requires n < |headers| && Cell(row, n) == Placeholder(headers[n])
    ensures Show(Filled(pieces, headers, row, n + 1)) == Show(Filled(pieces, headers, row, n))
  {
    if pieces != [] {
      OwnCellShown(pieces[1..], headers, row, n);
      FilledFirst(pieces, headers, row, n);
      FilledFirst(pieces, headers, row, n + 1);
      if pieces[0].Hole? && Column(pieces[0].name, headers) == n { assert headers[n] == pieces[0].name; }
    }
  }

  lemma NextColumn(pieces: seq<Piece>, headers: seq<string>, row: seq<string>, n: nat, before: string)
    requires Parsed(pieces, headers) && AllNames(headers) && NoClash(headers, row) && n < |headers|
    requires before == Show(Filled(pieces, headers, row, n))
    ensures ReplaceAll(before, Placeholder(headers[n]), Cell(row, n)) == Show(Filled(pieces, headers, row, n + 1))
  {
    if Cell(row, n) == Placeholder(headers[n]) {
      ReplaceSame(before, Placeholder(headers[n]));
      OwnCellShown(pieces, headers, row, n);
    } else {
      ColumnFilled(pieces, headers, row, n);
    }
  }

  lemma {:induction false} ColumnsFilled(pieces: seq<Piece>, headers: seq<string>, row: seq<string>, n: nat, text: string)
    requires Parsed(pieces, headers) && AllNames(headers) && NoClash(headers, row) && n <= |headers| && text == Show(pieces)
    ensures SubstitutedBy(text, headers, row, n) == Show(Filled(pieces, headers, row, n))
  {
    if n == 0 {
      NothingFilled(pieces, headers, row);
    } else {
      ColumnsFilled(pieces, headers, row, n - 1, text);
      NextColumn(pieces, headers, row, n - 1, SubstitutedBy(text, headers, row, n - 1));
    }
  }

  /** When no cell clashes with a later header, substitution fills every text right, whatever it holds. */
  lemma SubstitutionFillsText(text: string, headers: seq<string>, row: seq<string>)
    requires AllNames(headers) && NoClash(headers, row)
    ensures Substituted(text, headers, row) == FillText(text, headers, row)
  {
    var pieces := Parse(text, headers);
    ParseIs(text, headers, row);
    ColumnsFilled(pieces, headers, row, |headers|, text);
    FilledIsFill(pieces, headers, row);
  }

  // ---------------------------------------------------------------- texts that go wrong

  /** What to write around a cell that meets a placeholder, so that the placeholder occurs. */
  lemma Around(cell: string, header: string) returns (x: string, y: string)
    requires Meets(cell, Placeholder(header)) && IsName(header)
    ensures '>' !in x && '<' !in y && Occurs(x + cell + y, Placeholder(header))
  {
    var p := Placeholder(header);
    if Touches(cell, p) {
      x := "";
      y := Completion(cell, header);
      assert x + cell + y == cell + y;
    } else {
      var z;
      x, y, z := AroundInside(cell, header);
      assert StartsWith(p + z, p) by { assert (p + z)[..|p|] == p; }
    }
  }

  /** When it begins inside the placeholder, the placeholder stands at the front. */
  lemma AroundInside(cell: string, header: string) returns (x: string, y: string, z: string)
    requires BeginsInside(cell, Placeholder(header)) && IsName(header)
    ensures '>' !in x && '<' !in y && x + cell + y == Placeholder(header) + z && ('<' !in cell ==> '<' !in z)
  {
    var p := Placeholder(header);
    var a :| 0 < a < |p| && (cell <= p[a..] || p[a..] <= cell);
    x := p[..a];
    PartsPlain(header, a, p);
    if cell <= p[a..] {
      y, z := p[a..][|cell|..], "";
      Inside(p, a, cell);
    } else {
      y, z := "", cell[|p[a..]|..];
      Overhangs(p, a, cell);
    }
  }

  lemma PartsPlain(header: string, a: nat, p: string)
    requires IsName(header) && p == Placeholder(header) && 0 < a < |p|
    ensures '>' !in p[..a] && '<' !in p[a..]
  {
    assert forall i :: 0 <= i < a ==> p[..a][i] == p[i];
    assert forall i :: 0 <= i < |p| - a ==> p[a..][i] == p[a + i];
    assert forall i :: 1 <= i < |p| - 1 ==> p[i] == header[i - 1];
  }

  lemma Inside(p: string, a: nat, cell: string)
    requires a < |p| && cell <= p[a..]
    ensures p[..a] + cell + p[a..][|cell|..] == p + ""
  {
    assert cell + p[a..][|cell|..] == p[a..];
  }

  lemma Overhangs(p: string, a: nat, cell: string)
    requires a < |p| && p[a..] <= cell
    ensures p[..a] + cell + "" == p + cell[|p[a..]|..]
  {
    assert cell == p[a..] + cell[|p[a..]|..] && p[..a] + p[a..] == p;
  }

  // ---------------------------------------------------------------- a placeholder between two parts of another

  lemma {:induction false} OpenSkips(x: string, rest: string, header: string, value: string)
    requires '>' !in x && rest != "" && rest[0] == '<' && IsName(header)
    ensures ReplaceAll(x + rest, Placeholder(header), value) == x + ReplaceAll(rest, Placeholder(header), value)
  {
    if x == "" {
      assert x + rest == rest;
    } else {
      NoneOpens(x, rest, header);
      assert (x + rest)[0] == x[0] && (x + rest)[1..] == x[1..] + rest;
      OpenSkips(x[1..], rest, header, value);
      HeadBack(x, ReplaceAll(rest, Placeholder(header), value));
    }
  }

  /** No placeholder begins in text that is not closed before the next bracket opens. */
  lemma NoneOpens(x: string, rest: string, header: string)
    requires x != "" && '>' !in x && rest != "" && rest[0] == '<' && IsName(header)
    ensures !StartsWith(x + rest, Placeholder(header))
  {
    var p := Placeholder(header);
    assert p[|p| - 1] == '>' && (x + rest)[|x|] == '<';
    assert forall m :: 1 <= m < |p| - 1 ==> p[m] == header[m - 1];
    assert forall m :: 0 <= m < |x| ==> (x + rest)[m] == x[m];
  }

  lemma {:induction false} OpenFills(x: string, rest: string, headers: seq<string>, row: seq<string>)
    requires '>' !in x && rest != "" && rest[0] == '<' && AllNames(headers)
    ensures FillText(x + rest, headers, row) == x + FillText(rest, headers, row)
  {
    if x == "" {
      assert x + rest == rest;
    } else {
      if At(x + rest, headers) < |headers| { NoneOpens(x, rest, headers[At(x + rest, headers)]); }
      assert (x + rest)[0] == x[0] && (x + rest)[1..] == x[1..] + rest;
      OpenFills(x[1..], rest, headers, row);
      HeadBack(x, FillText(rest, headers, row));
    }
  }

  lemma {:induction false} PlainAt(y: string, headers: seq<string>)
    requires y != "" && y[0] != '<'
    ensures At(y, headers) == |headers|
  {
    if headers != [] {
      assert Placeholder(headers[0])[0] == '<';
      PlainAt(y, headers[1..]);
    }
  }

  lemma {:induction false} PlainFills(y: string, headers: seq<string>, row: seq<string>)
    requires '<' !in y
    ensures FillText(y, headers, row) == y
    decreases |y|
  {
    if y != "" {
      assert y[0] in y;
      PlainAt(y, headers);
      PlainFills(y[1..], headers, row);
    }
  }

  /** Filled at once, such a text holds its own column's cell, and nothing else changes. */
  lemma ContextFills(x: string, y: string, headers: seq<string>, row: seq<string>, i: nat)
    requires '>' !in x && '<' !in y && AllNames(headers) && i < |headers| && Fills(headers, i)
    ensures FillText(x + (Placeholder(headers[i]) + y), headers, row) == x + (Cell(row, i) + y)
  {
    var t := Placeholder(headers[i]) + y;
    AtPlaceholder(headers, i, y);
    OpenFills(x, t, headers, row);
    assert t[|Placeholder(headers[i])|..] == y;
    PlainFills(y, headers, row);
  }

  lemma AtPlaceholder(headers: seq<string>, i: nat, rest: string)
    requires AllNames(headers) && i < |headers| && Fills(headers, i)
    ensures At(Placeholder(headers[i]) + rest, headers) == i
  {
    var t := Placeholder(headers[i]) + rest;
    var k := At(t, headers);
    HoleMatches(headers[i], rest, headers[i]);
    if k < |headers| { HoleMatches(headers[i], rest, headers[k]); }
    assert forall m :: 0 <= m < i ==> headers[m] != headers[i];
  }

  /** The columns before its own leave it alone. */
  lemma {:induction false} ContextWaits(x: string, y: string, headers: seq<string>, row: seq<string>, i: nat, n: nat, text: string)
    requires '>' !in x && '<' !in y && AllNames(headers) && n <= i < |headers| && Fills(headers, i)
    requires text == x + (Placeholder(headers[i]) + y)
    ensures SubstitutedBy(text, headers, row, n) == text
  {
    if n > 0 {
      ContextWaits(x, y, headers, row, i, n - 1, text);
      assert headers[n - 1] != headers[i];
      OpenSkips(x, Placeholder(headers[i]) + y, headers[n - 1], Cell(row, n - 1));
      ReplaceOther(headers[i], y, headers[n - 1], Cell(row, n - 1));
      ReplacePlain(y, headers[n - 1], Cell(row, n - 1));
    }
  }

  lemma ContextAtOwn(x: string, y: string, headers: seq<string>, row: seq<string>, i: nat, text: string)
    requires '>' !in x && '<' !in y && AllNames(headers) && i < |headers| && Fills(headers, i)
    requires text == x + (Placeholder(headers[i]) + y)
    ensures SubstitutedBy(text, headers, row, i + 1) == x + (Cell(row, i) + y)
  {
    ContextWaits(x, y, headers, row, i, i, text);
    OpenSkips(x, Placeholder(headers[i]) + y, headers[i], Cell(row, i));
    ReplaceOwn(y, headers[i], Cell(row, i));
    ReplacePlain(y, headers[i], Cell(row, i));
  }

  lemma StaysThin(text: string, headers: seq<string>, row: seq<string>, i: nat, j: nat, whole: string)
    requires AllNames(headers) && i < j < |headers| && PlainBehind(headers, row, i)
    requires SubstitutedBy(text, headers, row, i + 1) == whole && Occurs(whole, Placeholder(headers[j]))
    ensures Substituted(text, headers, row) != whole
  {
    ThinnedBehind(text, headers, row, i, j, whole, |headers|);
  }

  /** A cell that clashes with a later header, with plain cells behind it: there is a text that substitution gets
      wrong. */
  lemma ClashingCellFails(headers: seq<string>, row: seq<string>, i: nat, j: nat) returns (text: string)
    requires AllNames(headers) && i < j < |headers| && Clash(headers, row, i, j) && PlainBehind(headers, row, i)
    ensures Substituted(text, headers, row) != FillText(text, headers, row)
  {
    var x, y := Around(Cell(row, i), headers[j]);
    text := x + (Placeholder(headers[i]) + y);
    ContextFills(x, y, headers, row, i);
    ContextAtOwn(x, y, headers, row, i, text);
    var whole := x + (Cell(row, i) + y);
    assert whole == x + Cell(row, i) + y;
    StaysThin(text, headers, row, i, j, whole);
  }

  // ---------------------------------------------------------------- the exact condition

  predicate Distinct(headers: seq<string>) {
    forall i, j :: 0 <= i < j < |headers| ==> headers[i] != headers[j]
  }

  lemma NestedStep(headers: seq<string>, row: seq<string>, j: nat, n: nat, z: string, before: string)
    requires AllNames(headers) && Distinct(headers) && j < |headers| && n < |headers| && '<' !in z
    requires n > j ==> !Touches(Cell(row, j), Placeholder(headers[n]))
    requires before == (if n <= j then Placeholder(headers[j]) else Cell(row, j)) + z
    ensures ReplaceAll(before, Placeholder(headers[n]), Cell(row, n))
            == (if n < j then Placeholder(headers[j]) else Cell(row, j)) + z
  {
    ReplacePlain(z, headers[n], Cell(row, n));
    if n < j {
      ReplaceOther(headers[j], z, headers[n], Cell(row, n));
    } else if n == j {
      ReplaceOwn(z, headers[j], Cell(row, j));
    } else {
      ReplaceSkips(Cell(row, j), z, Placeholder(headers[n]), Cell(row, n));
    }
  }

  /** The placeholder that a plain cell brought about stays until its column, and becomes that column's cell. */
  lemma {:induction false} Nested(headers: seq<string>, row: seq<string>, i: nat, j: nat, n: nat, z: string, text: string)
    requires AllNames(headers) && Distinct(headers) && i < j < |headers| && i < n <= |headers| && '<' !in z
    requires SubstitutedBy(text, headers, row, i + 1) == Placeholder(headers[j]) + z
    requires forall l :: j < l < |headers| ==> !Touches(Cell(row, j), Placeholder(headers[l]))
    ensures SubstitutedBy(text, headers, row, n) == (if n <= j then Placeholder(headers[j]) else Cell(row, j)) + z
  {
    if n > i + 1 {
      Nested(headers, row, i, j, n - 1, z, text);
      NestedStep(headers, row, j, n - 1, z, SubstitutedBy(text, headers, row, n - 1));
    }
  }

  /** A plain cell that clashes with a later header, whose own cell touches none behind it. */
  lemma NestedFails(headers: seq<string>, row: seq<string>, i: nat, j: nat) returns (text: string)
    requires AllNames(headers) && Distinct(headers) && i < j < |headers| && Clash(headers, row, i, j)
    requires '<' !in Cell(row, i) && forall l :: j < l < |headers| ==> !Touches(Cell(row, j), Placeholder(headers[l]))
    ensures Substituted(text, headers, row) != FillText(text, headers, row)
  {
    PlainUntouched(Cell(row, i), headers[j]);
    var x, y, z := AroundInside(Cell(row, i), headers[j]);
    text := x + (Placeholder(headers[i]) + y);
    ContextFills(x, y, headers, row, i);
    ContextAtOwn(x, y, headers, row, i, text);
    assert x + (Cell(row, i) + y) == Placeholder(headers[j]) + z;
    Nested(headers, row, i, j, |headers|, z, text);
    OtherFront(Cell(row, j), Placeholder(headers[j]), z);
  }

  lemma OtherFront(a: string, b: string, z: string)
    requires a != b
    ensures a + z != b + z
  {
    if |a| == |b| {
      assert (a + z)[..|a|] == a && (b + z)[..|b|] == b;
    }
  }

  /** For distinct headers and rows in which at most one cell holds an angle bracket: substitution fills every text
      right, whatever it holds, if and only if no cell clashes with a later header. */
  lemma FillsAllTextsIff(headers: seq<string>, row: seq<string>)
    requires AllNames(headers) && Distinct(headers) && OneAngled(headers, row)
    ensures (forall text :: Substituted(text, headers, row) == FillText(text, headers, row)) <==> NoClash(headers, row)
  {
    if NoClash(headers, row) {
      forall text ensures Substituted(text, headers, row) == FillText(text, headers, row) {
        SubstitutionFillsText(text, headers, row);
      }
    } else {
      var i: nat, j: nat :| i < j < |headers| && Clash(headers, row, i, j);
      var text := SomeTextFails(headers, row, i, j);
    }
  }

  lemma SomeTextFails(headers: seq<string>, row: seq<string>, i: nat, j: nat) returns (text: string)
    requires AllNames(headers) && Distinct(headers) && OneAngled(headers, row) && i < j < |headers| && Clash(headers, row, i, j)
    ensures Substituted(text, headers, row) != FillText(text, headers, row)
  {
    if PlainBehind(headers, row, i) {
      text := ClashingCellFails(headers, row, i, j);
    } else {
      var a :| i < a < |headers| && '<' in Cell(row, a);
      assert PlainBehind(headers, row, a) && '<' !in Cell(row, i);
      if l :| j < l < |headers| && Touches(Cell(row, j), Placeholder(headers[l])) {
        if '<' !in Cell(row, j) { PlainUntouched(Cell(row, j), headers[l]); }
        DistinctFills(headers, j);
        assert Clash(headers, row, j, l);
        text := ClashingCellFails(headers, row, j, l);
      } else {
        text := NestedFails(headers, row, i, j);
      }
    }
  }

  lemma DistinctFills(headers: seq<string>, i: nat)
    requires Distinct(headers) && i < |headers|
    ensures Fills(headers, i)
  {
    ColumnIs(headers, i);
  }

  // ---------------------------------------------------------------- several cells with angle brackets

  lemma {:induction false} ColumnByColumn(text: string, headers: seq<string>, row: seq<string>, left: seq<string>, cells: seq<string>,
                                          r: string, n: nat)
    requires headers != [] && row != [] && left == headers[1..] && cells == row[1..] && n <= |left|
    requires r == ReplaceAll(text, Placeholder(headers[0]), row[0])
    ensures SubstitutedBy(text, headers, row, n + 1) == SubstitutedBy(r, left, cells, n)
  {
    if n == 0 {
      assert SubstitutedBy(text, headers, row, 0) == text;
    } else {
      ColumnByColumn(text, headers, row, left, cells, r, n - 1);
      assert headers[n] == left[n - 1] && Cell(row, n) == Cell(cells, n - 1);
    }
  }

  /** A replacement by text that opens with a bracket brings about no other first character. */
  lemma FirstKept(text: string, pattern: string, value: string, r: string)
    requires pattern != "" && value != "" && value[0] == '<' && r == ReplaceAll(text, pattern, value)
    requires r != "" && r[0] != '<'
    ensures text != "" && text[0] == r[0] && r[1..] == ReplaceAll(text[1..], pattern, value)
  {
  }

  /** Nor any placeholder of one letter. */
  lemma NoneBroughtAbout(text: string, letter: char, pattern: string, value: string)
    requires text != "" && pattern != "" && value != "" && value[0] == '<' && letter != '<'
    requires !StartsWith(text, pattern) && !StartsWith(text, ['<', letter, '>'])
    ensures !StartsWith(ReplaceAll(text, pattern, value), ['<', letter, '>'])
  {
    var r := ReplaceAll(text, pattern, value);
    if |r| >= 3 && r[0] == '<' && r[1] == letter && r[2] == '>' {
      FirstKept(text[1..], pattern, value, r[1..]);
      FirstKept(text[2..], pattern, value, r[2..]);
    }
  }

  /** The row of the example: what the first cell holds, the later columns together leave as it is. */
  predicate Example(headers: seq<string>, row: seq<string>, left: seq<string>, cells: seq<string>) {
    && headers == ["a", "c", "b"] && row == ["<b><c>", "c>", "<b><"]
    && left == ["c", "b"] && cells == ["c>", "<b><"]
  }

  lemma LeftAt(text: string, headers: seq<string>, left: seq<string>)
    requires headers == ["a", "c", "b"] && left == ["c", "b"]
    ensures At(text, left) == if StartsWith(text, "<c>") then 0 else if StartsWith(text, "<b>") then 1 else 2
    ensures At(text, headers) == if StartsWith(text, "<a>") then 0 else 1 + At(text, left)
  {
    assert Placeholder("a") == "<a>" && Placeholder("b") == "<b>" && Placeholder("c") == "<c>";
    assert headers[1..] == left && left[1..] == ["b"] && ["b"][1..] == [];
  }

  lemma CellFills(rest: string, headers: seq<string>, row: seq<string>, left: seq<string>, cells: seq<string>)
    requires Example(headers, row, left, cells)
    ensures FillText("<b><c>" + rest, left, cells) == "<b><c>" + FillText(rest, left, cells)
  {
    var inner, outer := "<c>" + rest, "<b>" + ("<c>" + rest);
    assert Placeholder("b") == "<b>" && Placeholder("c") == "<c>";
    LeftAt(inner, headers, left);
    LeftAt(outer, headers, left);
    assert inner[..3] == "<c>" && inner[3..] == rest && outer[..3] == "<b>" && outer[3..] == inner;
    assert outer == "<b><c>" + rest;
    assert "<b><" + ("c>" + FillText(rest, left, cells)) == "<b><c>" + FillText(rest, left, cells);
  }

  lemma {:induction false} ExampleFills(text: string, headers: seq<string>, row: seq<string>, left: seq<string>, cells: seq<string>)
    requires Example(headers, row, left, cells)
    ensures FillText(ReplaceAll(text, "<a>", "<b><c>"), left, cells) == FillText(text, headers, row)
    decreases |text|
  {
    if text != "" {
      LeftAt(text, headers, left);
      if StartsWith(text, "<a>") {
        ExampleFills(text[3..], headers, row, left, cells);
        CellFills(ReplaceAll(text[3..], "<a>", "<b><c>"), headers, row, left, cells);
      } else if StartsWith(text, "<c>") {
        ExampleFills(text[3..], headers, row, left, cells);
        HoleWaits(text, "c", headers, left);
      } else if StartsWith(text, "<b>") {
        ExampleFills(text[3..], headers, row, left, cells);
        HoleWaits(text, "b", headers, left);
      } else {
        ExampleFills(text[1..], headers, row, left, cells);
        CharWaits(text, headers, left);
      }
    }
  }

  lemma HoleWaits(text: string, name: string, headers: seq<string>, left: seq<string>)
    requires headers == ["a", "c", "b"] && left == ["c", "b"] && name in left && StartsWith(text, Placeholder(name))
    ensures var r := ReplaceAll(text, "<a>", "<b><c>");
            |r| >= 3 && r[..3] == Placeholder(name) && r[3..] == ReplaceAll(text[3..], "<a>", "<b><c>")
            && At(r, left) == At(text, left)
  {
    var rest := text[3..];
    assert Placeholder(name) + rest == text && Placeholder("a") == "<a>";
    ReplaceOther(name, rest, "a", "<b><c>");
    LeftAt(text, headers, left);
    LeftAt(ReplaceAll(text, "<a>", "<b><c>"), headers, left);
  }

  lemma CharWaits(text: string, headers: seq<string>, left: seq<string>)
    requires headers == ["a", "c", "b"] && left == ["c", "b"] && text != "" && At(text, headers) == 3
    ensures var r := ReplaceAll(text, "<a>", "<b><c>");
            r == [text[0]] + ReplaceAll(text[1..], "<a>", "<b><c>") && At(r, left) == 2
  {
    LeftAt(text, headers, left);
    NoneBroughtAbout(text, 'c', "<a>", "<b><c>");
    NoneBroughtAbout(text, 'b', "<a>", "<b><c>");
    LeftAt(ReplaceAll(text, "<a>", "<b><c>"), headers, left);
  }

  lemma ExampleRight(text: string, headers: seq<string>, row: seq<string>, left: seq<string>, cells: seq<string>, r: string)
    requires Example(headers, row, left, cells) && AllNames(left) && NoClash(left, cells)
    requires r == ReplaceAll(text, "<a>", "<b><c>")
    ensures Substituted(text, headers, row) == FillText(text, headers, row)
  {
    assert headers[1..] == left && row[1..] == cells && Placeholder("a") == "<a>";
    ColumnByColumn(text, headers, row, left, cells, r, 2);
    SubstitutionFillsText(r, left, cells);
    ExampleFills(text, headers, row, left, cells);
  }

  /** With several such cells, clashing or touching no longer decides: a later column can undo what an earlier one
      did. Here the first cell holds both later placeholders, and yet every text comes out right. */
  lemma ClashYetAlwaysRight(headers: seq<string>, row: seq<string>)
    requires headers == ["a", "c", "b"] && row == ["<b><c>", "c>", "<b><"]
    ensures AllNames(headers) && Distinct(headers) && !Untouched(headers, row) && !NoClash(headers, row)
    ensures forall text :: Substituted(text, headers, row) == FillText(text, headers, row)
  {
    var left, cells := ["c", "b"], ["c>", "<b><"];
    ExampleClashes(headers, row);
    LeftClear(left, cells);
    forall text ensures Substituted(text, headers, row) == FillText(text, headers, row) {
      ExampleRight(text, headers, row, left, cells, ReplaceAll(text, "<a>", "<b><c>"));
    }
  }

  lemma ExampleClashes(headers: seq<string>, row: seq<string>)
    requires headers == ["a", "c", "b"] && row == ["<b><c>", "c>", "<b><"]
    ensures AllNames(headers) && !Untouched(headers, row) && !NoClash(headers, row)
  {
    assert Cell(row, 0) == "<b><c>" && Cell(row, 2) == "<b><" && Placeholder(headers[2]) == "<b>" <= "<b><c>";
    assert TouchesLater(headers, row, 0, 2) && Clash(headers, row, 0, 2);
  }

  lemma LeftClear(left: seq<string>, cells: seq<string>)
    requires left == ["c", "b"] && cells == ["c>", "<b><"]
    ensures AllNames(left) && NoClash(left, cells)
  {
    assert Cell(cells, 0) == "c>" && Placeholder(left[1]) == "<b>";
    PlainUntouched("c>", "b");
    assert "<b>"[1..] == "b>" && "<b>"[2..] == ">";
    assert !BeginsInside("c>", "<b>");
  }

  // ---------------------------------------------------------------- texts as an author means them

  lemma {:induction false} LitFills(lit: string, rest: string, headers: seq<string>, row: seq<string>)
    requires forall j :: 0 <= j < |headers| ==> !Touches(lit, Placeholder(headers[j]))
    ensures FillText(lit + rest, headers, row) == lit + FillText(rest, headers, row)
  {
    if lit == "" {
      assert lit + rest == rest;
    } else {
      var k := At(lit + rest, headers);
      if k < |headers| { NoMatch(lit, rest, Placeholder(headers[k])); }
      assert (lit + rest)[0] == lit[0] && (lit + rest)[1..] == lit[1..] + rest;
      LitFills(lit[1..], rest, headers, row);
      HeadBack(lit, FillText(rest, headers, row));
    }
  }

  lemma HoleFills(name: string, rest: string, headers: seq<string>, row: seq<string>)
    requires IsName(name) && AllNames(headers)
    ensures var k := Column(name, headers);
            FillText(Placeholder(name) + rest, headers, row)
            == (if k < |headers| then Cell(row, k) else Placeholder(name)) + FillText(rest, headers, row)
  {
    var k, text := Column(name, headers), Placeholder(name) + rest;
    if k < |headers| {
      FirstColumn(name, headers);
      AtPlaceholder(headers, k, rest);
      assert text[|Placeholder(name)|..] == rest;
    } else {
      var m := At(text, headers);
      if m < |headers| { HoleMatches(name, rest, headers[m]); }
      var tail := name + ">";
      assert text[0] == '<' && text[1..] == tail + rest;
      forall j | 0 <= j < |headers| ensures !Touches(tail, Placeholder(headers[j])) { PlainUntouched(tail, headers[j]); }
      LitFills(tail, rest, headers, row);
      assert ['<'] + (tail + FillText(rest, headers, row)) == Placeholder(name) + FillText(rest, headers, row);
    }
  }

  /** Filling such a text piece by piece is filling it as it stands. */
  lemma {:induction false} PiecesFill(pieces: seq<Piece>, headers: seq<string>, row: seq<string>)
    requires AllNames(headers) && GoodPieces(pieces, headers) && AllNamed(pieces)
    ensures FillText(Show(pieces), headers, row) == Fill(pieces, headers, row)
  {
    if pieces != [] {
      var rest := Show(pieces[1..]);
      forall j | 0 <= j < |headers| ensures Inert(pieces[1..], headers[j]) && InertPiece(pieces[0], headers[j]) {
        assert Inert(pieces, headers[j]);
      }
      PiecesFill(pieces[1..], headers, row);
      match pieces[0]
      case Lit(text) => LitFills(text, rest, headers, row);
      case Hole(name) => HoleFills(name, rest, headers, row);
    }
  }

  predicate AllNamed(pieces: seq<Piece>) {
    forall i :: 0 <= i < |pieces| && pieces[i].Hole? ==> IsName(pieces[i].name)
  }
}
