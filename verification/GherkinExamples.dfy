// What substituting an Examples row means: the source replaces one header after another, which
// fills every placeholder with its own cell as long as no cell brings in a placeholder.
module GherkinExamples {
  import opened Text
  import opened GherkinLines
  import opened GherkinParser

  /** Text as an author thinks of it: words, and placeholders named after columns. */
  datatype Piece = Lit(text: string) | Hole(name: string)

  function ShowPiece(piece: Piece): string {
    match piece
    case Lit(text) => text
    case Hole(name) => Placeholder(name)
  }

  function Show(pieces: seq<Piece>): string {
    if pieces == [] then "" else ShowPiece(pieces[0]) + Show(pieces[1..])
  }

  predicate IsName(s: string) { '<' !in s && '>' !in s }

  /** The column a placeholder names: the first with that header. */
  function Column(name: string, headers: seq<string>): (k: nat)
    ensures k <= |headers|
    ensures k < |headers| ==> headers[k] == name
    ensures forall i :: 0 <= i < k ==> headers[i] != name
  {
    if headers == [] || headers[0] == name then 0 else 1 + Column(name, headers[1..])
  }

  /** Every placeholder replaced at once by its cell; one that names no column stays. */
  function Fill(pieces: seq<Piece>, headers: seq<string>, row: seq<string>): string {
    if pieces == [] then ""
    else
      var k := if pieces[0].Hole? then Column(pieces[0].name, headers) else |headers|;
      (if k < |headers| then Cell(row, k) else ShowPiece(pieces[0])) + Fill(pieces[1..], headers, row)
  }

  /** The pieces once the first n columns are filled in. */
  function Filled(pieces: seq<Piece>, headers: seq<string>, row: seq<string>, n: nat): (r: seq<Piece>)
    requires n <= |headers|
    ensures |r| == |pieces|
  {
    seq(|pieces|, i requires 0 <= i < |pieces| => FilledPiece(pieces[i], headers, row, n))
  }

  function FilledPiece(piece: Piece, headers: seq<string>, row: seq<string>, n: nat): Piece
    requires n <= |headers|
  {
    if piece.Hole? && Column(piece.name, headers) < n then Lit(Cell(row, Column(piece.name, headers))) else piece
  }

  // ---------------------------------------------------------------- one replacement

  /** Some end of the text begins as the pattern does: it holds the pattern, or what follows can complete it. */
  predicate Touches(text: string, pattern: string) {
    text != "" && (text <= pattern || pattern <= text || Touches(text[1..], pattern))
  }

  lemma {:induction false} PlainUntouched(text: string, header: string)
    requires '<' !in text
    ensures !Touches(text, Placeholder(header))
  {
    if text != "" {
      assert text[0] in text && Placeholder(header)[0] == '<';
      PlainUntouched(text[1..], header);
    }
  }

  lemma {:induction false} ReplaceSkips(lit: string, rest: string, pattern: string, value: string)
    requires pattern != "" && !Touches(lit, pattern)
    ensures ReplaceAll(lit + rest, pattern, value) == lit + ReplaceAll(rest, pattern, value)
  {
    if lit == "" {
      assert lit + rest == rest;
    } else {
      var s := lit + rest;
      assert s[0] == lit[0] && s[1..] == lit[1..] + rest;
      NoMatch(lit, rest, pattern);
      ReplaceSkips(lit[1..], rest, pattern, value);
      HeadBack(lit, ReplaceAll(rest, pattern, value));
    }
  }

  lemma HeadBack(lit: string, rest: string)
    requires lit != ""
    ensures [lit[0]] + (lit[1..] + rest) == lit + rest
  {
  }

  lemma NoMatch(lit: string, rest: string, pattern: string)
    requires lit != "" && !(lit <= pattern) && !(pattern <= lit)
    ensures !StartsWith(lit + rest, pattern)
  {
    var s := lit + rest;
    if |pattern| <= |lit| {
      assert pattern == lit[..|pattern|] || s[..|pattern|] == lit[..|pattern|];
    } else {
      assert |pattern| <= |s| ==> s[..|pattern|][..|lit|] == lit;
    }
  }

  /** The text up to its first closing bracket, after the opening one. */
  lemma NameEnds(name: string, rest: string)
    requires IsName(name)
    ensures FirstIndex((Placeholder(name) + rest)[1..], '>') == |name|
    ensures (Placeholder(name) + rest)[1..][..|name|] == name
  {
    FirstIndexAfter(name, '>', rest);
    assert (Placeholder(name) + rest)[1..] == name + ([ '>' ] + rest);
  }

  lemma MatchedName(name: string, rest: string, header: string)
    requires IsName(name) && IsName(header) && StartsWith(Placeholder(name) + rest, Placeholder(header))
    ensures name == header
  {
    var s := Placeholder(name) + rest;
    var tail := s[|Placeholder(header)|..];
    assert s == Placeholder(header) + tail;
    NameEnds(name, rest);
    NameEnds(header, tail);
  }

  /** A placeholder matches a header's pattern exactly when it names that header. */
  lemma HoleMatches(name: string, rest: string, header: string)
    requires IsName(name) && IsName(header)
    ensures StartsWith(Placeholder(name) + rest, Placeholder(header)) <==> name == header
  {
    var s, p := Placeholder(name) + rest, Placeholder(header);
    if name == header { assert s[..|p|] == p; }
    if StartsWith(s, p) { MatchedName(name, rest, header); }
  }

  lemma ReplaceOther(name: string, rest: string, header: string, value: string)
    requires IsName(name) && IsName(header) && name != header
    ensures ReplaceAll(Placeholder(name) + rest, Placeholder(header), value)
            == Placeholder(name) + ReplaceAll(rest, Placeholder(header), value)
  {
    HoleMatches(name, rest, header);
    var s, tail := Placeholder(name) + rest, name + ">";
    assert s[1..] == tail + rest && s[0] == '<';
    PlainUntouched(tail, header);
    ReplaceSkips(tail, rest, Placeholder(header), value);
    assert ['<'] + (tail + ReplaceAll(rest, Placeholder(header), value))
        == Placeholder(name) + ReplaceAll(rest, Placeholder(header), value);
  }

  lemma ReplaceOwn(rest: string, header: string, value: string)
    requires IsName(header)
    ensures ReplaceAll(Placeholder(header) + rest, Placeholder(header), value)
            == value + ReplaceAll(rest, Placeholder(header), value)
  {
    HoleMatches(header, rest, header);
    assert (Placeholder(header) + rest)[|Placeholder(header)|..] == rest;
  }

  /** A piece with one header's placeholder replaced. */
  function PutPiece(piece: Piece, header: string, value: string): Piece {
    if piece == Hole(header) then Lit(value) else piece
  }

  function Put(pieces: seq<Piece>, header: string, value: string): (r: seq<Piece>)
    ensures |r| == |pieces|
  {
    if pieces == [] then [] else [PutPiece(pieces[0], header, value)] + Put(pieces[1..], header, value)
  }

  /** Holes are named, and no text between them touches the header's placeholder. */
  predicate Inert(pieces: seq<Piece>, header: string) {
    forall i :: 0 <= i < |pieces| ==> InertPiece(pieces[i], header)
  }

  predicate InertPiece(piece: Piece, header: string) {
    if piece.Lit? then !Touches(piece.text, Placeholder(header)) else IsName(piece.name)
  }

  /** Text as an author means it: for no header does the text between placeholders hold its placeholder, or end in the
      beginning of one. It may hold angle brackets otherwise. */
  predicate GoodPieces(pieces: seq<Piece>, headers: seq<string>) {
    forall j :: 0 <= j < |headers| ==> Inert(pieces, headers[j])
  }

  lemma {:induction false} ReplaceShown(pieces: seq<Piece>, header: string, value: string)
    requires Inert(pieces, header) && IsName(header)
    ensures ReplaceAll(Show(pieces), Placeholder(header), value) == Show(Put(pieces, header, value))
  {
    if pieces != [] {
      var rest := Show(pieces[1..]);
      assert InertPiece(pieces[0], header);
      assert Inert(pieces[1..], header);
      ReplaceShown(pieces[1..], header, value);
      assert Put(pieces, header, value)[1..] == Put(pieces[1..], header, value);
      match pieces[0]
      case Lit(text) => ReplaceSkips(text, rest, Placeholder(header), value);
      case Hole(name) =>
        if name == header { ReplaceOwn(rest, header, value); } else { ReplaceOther(name, rest, header, value); }
    }
  }

  lemma {:induction false} PutAt(pieces: seq<Piece>, header: string, value: string, i: nat)
    requires i < |pieces|
    ensures Put(pieces, header, value)[i] == PutPiece(pieces[i], header, value)
  {
    if i > 0 { PutAt(pieces[1..], header, value, i - 1); }
  }

  // ---------------------------------------------------------------- all the headers

  predicate AllNames(headers: seq<string>) {
    forall i :: 0 <= i < |headers| ==> IsName(headers[i])
  }

  /** The column is the first with its header: the one whose cell fills placeholders of that name. */
  predicate Fills(headers: seq<string>, i: nat)
    requires i < |headers|
  {
    Column(headers[i], headers) == i
  }

  predicate TouchesLater(headers: seq<string>, row: seq<string>, i: nat, j: nat)
    requires i < j < |headers|
  {
    Fills(headers, i) && Touches(Cell(row, i), Placeholder(headers[j]))
  }

  /** No cell that fills a placeholder holds a later header's placeholder, or ends in the start of one. */
  predicate Untouched(headers: seq<string>, row: seq<string>) {
    forall i, j :: 0 <= i < j < |headers| ==> !TouchesLater(headers, row, i, j)
  }

  lemma FilledNext(pieces: seq<Piece>, headers: seq<string>, row: seq<string>, n: nat)
    requires 0 < n <= |headers|
    ensures Filled(pieces, headers, row, n) == Put(Filled(pieces, headers, row, n - 1), headers[n - 1], Cell(row, n - 1))
  {
    var before := Filled(pieces, headers, row, n - 1);
    var after := Put(before, headers[n - 1], Cell(row, n - 1));
    forall i | 0 <= i < |pieces| ensures after[i] == Filled(pieces, headers, row, n)[i] {
      PutAt(before, headers[n - 1], Cell(row, n - 1), i);
    }
  }

  lemma FilledInert(pieces: seq<Piece>, headers: seq<string>, row: seq<string>, n: nat)
    requires GoodPieces(pieces, headers) && Untouched(headers, row) && n < |headers|
    ensures Inert(Filled(pieces, headers, row, n), headers[n])
  {
    assert Inert(pieces, headers[n]);
    forall i | 0 <= i < |pieces| ensures InertPiece(Filled(pieces, headers, row, n)[i], headers[n]) {
      assert InertPiece(pieces[i], headers[n]);
      if pieces[i].Hole? {
        var k := Column(pieces[i].name, headers);
        if k < n {
          FirstColumn(pieces[i].name, headers);
          assert !TouchesLater(headers, row, k, n);
        }
      }
    }
  }

  lemma {:induction false} FirstColumn(name: string, headers: seq<string>)
    requires Column(name, headers) < |headers|
    ensures Fills(headers, Column(name, headers))
  {
    assert headers[Column(name, headers)] == name;
  }

  lemma {:induction false} SubstitutedShown(pieces: seq<Piece>, headers: seq<string>, row: seq<string>, n: nat)
    requires GoodPieces(pieces, headers) && AllNames(headers) && Untouched(headers, row) && n <= |headers|
    ensures SubstitutedBy(Show(pieces), headers, row, n) == Show(Filled(pieces, headers, row, n))
  {
    if n == 0 {
      assert Filled(pieces, headers, row, 0) == pieces;
    } else {
      SubstitutedShown(pieces, headers, row, n - 1);
      FilledInert(pieces, headers, row, n - 1);
      FilledNext(pieces, headers, row, n);
      ReplaceShown(Filled(pieces, headers, row, n - 1), headers[n - 1], Cell(row, n - 1));
    }
  }

  lemma {:induction false} FilledIsFill(pieces: seq<Piece>, headers: seq<string>, row: seq<string>)
    ensures Show(Filled(pieces, headers, row, |headers|)) == Fill(pieces, headers, row)
  {
    if pieces != [] {
      FilledIsFill(pieces[1..], headers, row);
      assert Filled(pieces, headers, row, |headers|)[1..] == Filled(pieces[1..], headers, row, |headers|);
    }
  }

  /** When no cell touches a later header, replacing header after header fills every placeholder, all at once, with its
      own column's cell: cells may hold angle brackets, and placeholders of earlier headers. */
  lemma SubstitutionFillsHoles(pieces: seq<Piece>, headers: seq<string>, row: seq<string>)
    requires GoodPieces(pieces, headers) && AllNames(headers) && Untouched(headers, row)
    ensures Substituted(Show(pieces), headers, row) == Fill(pieces, headers, row)
  {
    SubstitutedShown(pieces, headers, row, |headers|);
    FilledIsFill(pieces, headers, row);
  }

  // ---------------------------------------------------------------- cells that touch a later header

  predicate Occurs(text: string, pattern: string) {
    text != "" && (StartsWith(text, pattern) || Occurs(text[1..], pattern))
  }

  function Angles(text: string): nat {
    if text == "" then 0 else (if text[0] == '<' then 1 else 0) + Angles(text[1..])
  }

  lemma {:induction false} AnglesAppend(a: string, b: string)
    ensures Angles(a + b) == Angles(a) + Angles(b)
  {
    if a == "" {
      assert a + b == b;
    } else {
      assert (a + b)[1..] == a[1..] + b;
      AnglesAppend(a[1..], b);
    }
  }

  lemma {:induction false} NoAngles(text: string)
    requires '<' !in text
    ensures Angles(text) == 0
  {
    if text != "" { NoAngles(text[1..]); }
  }

  lemma OneAngle(header: string)
    requires IsName(header)
    ensures Angles(Placeholder(header)) == 1
  {
    var tail := header + ">";
    NoAngles(tail);
    assert Placeholder(header) == ['<'] + tail && Placeholder(header)[1..] == tail;
  }

  lemma Beginning(text: string, pattern: string)
    requires StartsWith(text, pattern)
    ensures Angles(text) == Angles(pattern) + Angles(text[|pattern|..])
  {
    AnglesAppend(pattern, text[|pattern|..]);
    assert pattern + text[|pattern|..] == text;
  }

  /** A replacement by plain text leaves the text alone or takes angle brackets away; it does the latter where the
      pattern occurs. */
  lemma {:induction false} ReplaceThins(text: string, header: string, value: string)
    requires IsName(header) && '<' !in value
    ensures var after := ReplaceAll(text, Placeholder(header), value);
            (after == text && !Occurs(text, Placeholder(header))) || Angles(after) < Angles(text)
    decreases |text|
  {
    var pattern := Placeholder(header);
    if text == "" {
    } else if StartsWith(text, pattern) {
      var rest := text[|pattern|..];
      ReplaceThins(rest, header, value);
      Beginning(text, pattern);
      OneAngle(header);
      AnglesAppend(value, ReplaceAll(rest, pattern, value));
      NoAngles(value);
    } else {
      ReplaceThins(text[1..], header, value);
      var after := ReplaceAll(text[1..], pattern, value);
      AnglesAppend([text[0]], after);
      AnglesAppend([text[0]], text[1..]);
      assert [text[0]] + text[1..] == text;
    }
  }

  /** What to write behind a text that touches a placeholder, so that the placeholder occurs. */
  lemma {:induction false} Completion(text: string, header: string) returns (rest: string)
    requires Touches(text, Placeholder(header)) && IsName(header)
    ensures '<' !in rest && Occurs(text + rest, Placeholder(header))
  {
    var pattern := Placeholder(header);
    if pattern <= text {
      rest := "";
      assert text + rest == text && text[..|pattern|] == pattern;
    } else if text <= pattern {
      rest := pattern[|text|..];
      assert text + rest == pattern && pattern[..|pattern|] == pattern;
      assert forall i :: 1 <= i < |pattern| ==> pattern[i] == (header + ">")[i - 1];
    } else {
      rest := Completion(text[1..], header);
      assert (text + rest)[1..] == text[1..] + rest;
    }
  }

  /** The cells behind column i hold no angle bracket. */
  predicate PlainBehind(headers: seq<string>, row: seq<string>, i: nat) {
    forall k :: i < k < |headers| ==> '<' !in Cell(row, k)
  }

  /** A placeholder and the text behind it, up to the replacement of its own column. */
  lemma {:induction false} UntilOwn(headers: seq<string>, row: seq<string>, i: nat, rest: string, n: nat)
    requires AllNames(headers) && i < |headers| && Fills(headers, i) && '<' !in rest && n <= i
    ensures SubstitutedBy(Placeholder(headers[i]) + rest, headers, row, n) == Placeholder(headers[i]) + rest
  {
    if n > 0 {
      UntilOwn(headers, row, i, rest, n - 1);
      assert headers[n - 1] != headers[i];
      ReplaceOther(headers[i], rest, headers[n - 1], Cell(row, n - 1));
      ReplacePlain(rest, headers[n - 1], Cell(row, n - 1));
    }
  }

  lemma ReplacePlain(rest: string, header: string, value: string)
    requires '<' !in rest
    ensures ReplaceAll(rest, Placeholder(header), value) == rest
  {
    PlainUntouched(rest, header);
    ReplaceSkips(rest, "", Placeholder(header), value);
    assert rest + "" == rest;
  }

  lemma AtOwn(headers: seq<string>, row: seq<string>, i: nat, rest: string)
    requires AllNames(headers) && i < |headers| && Fills(headers, i) && '<' !in rest
    ensures SubstitutedBy(Placeholder(headers[i]) + rest, headers, row, i + 1) == Cell(row, i) + rest
  {
    UntilOwn(headers, row, i, rest, i);
    ReplaceOwn(rest, headers[i], Cell(row, i));
    ReplacePlain(rest, headers[i], Cell(row, i));
  }

  /** From then on the text is thinned for good at the latest by the column whose placeholder occurs. */
  lemma {:induction false} ThinnedBehind(text: string, headers: seq<string>, row: seq<string>, i: nat, j: nat, whole: string, n: nat)
    requires AllNames(headers) && i < j < |headers| && i < n <= |headers| && PlainBehind(headers, row, i)
    requires SubstitutedBy(text, headers, row, i + 1) == whole && Occurs(whole, Placeholder(headers[j]))
    ensures var now := SubstitutedBy(text, headers, row, n);
            Angles(now) < Angles(whole) || (now == whole && n <= j)
  {
    if n > i + 1 {
      ThinnedBehind(text, headers, row, i, j, whole, n - 1);
      ReplaceThins(SubstitutedBy(text, headers, row, n - 1), headers[n - 1], Cell(row, n - 1));
    }
  }

  /** A cell that touches a later header, with plain cells behind it: there is a text that substitution gets wrong. */
  lemma TouchingCellFails(headers: seq<string>, row: seq<string>, i: nat, j: nat) returns (pieces: seq<Piece>)
    requires AllNames(headers) && i < j < |headers| && TouchesLater(headers, row, i, j) && PlainBehind(headers, row, i)
    ensures GoodPieces(pieces, headers) && Substituted(Show(pieces), headers, row) != Fill(pieces, headers, row)
  {
    var rest := Completion(Cell(row, i), headers[j]);
    pieces := [Hole(headers[i]), Lit(rest)];
    Pair(headers[i], rest, headers, row);
    AtOwn(headers, row, i, rest);
    ThinnedBehind(Placeholder(headers[i]) + rest, headers, row, i, j, Cell(row, i) + rest, |headers|);
  }

  lemma Pair(name: string, rest: string, headers: seq<string>, row: seq<string>)
    requires Column(name, headers) < |headers| && IsName(name) && '<' !in rest
    ensures var pieces := [Hole(name), Lit(rest)];
            && GoodPieces(pieces, headers) && Show(pieces) == Placeholder(name) + rest
            && Fill(pieces, headers, row) == Cell(row, Column(name, headers)) + rest
  {
    var pieces := [Hole(name), Lit(rest)];
    assert pieces[1..] == [Lit(rest)] && [Lit(rest)][1..] == [];
    assert Show([Lit(rest)]) == rest + "" == rest;
    assert Fill([Lit(rest)], headers, row) == rest + "" == rest;
    forall j | 0 <= j < |headers| ensures Inert(pieces, headers[j]) { PlainUntouched(rest, headers[j]); }
  }

  /** At most one cell of the row holds an angle bracket. */
  predicate OneAngled(headers: seq<string>, row: seq<string>) {
    forall i, j :: 0 <= i < j < |headers| ==> '<' !in Cell(row, i) || '<' !in Cell(row, j)
  }

  /** For rows in which at most one cell holds an angle bracket: substitution fills every text right whose words bring in
      no part of a placeholder if and only if no cell touches a later header. */
  lemma FillsGoodTextsIff(headers: seq<string>, row: seq<string>)
    requires AllNames(headers) && OneAngled(headers, row)
    ensures (forall pieces :: GoodPieces(pieces, headers) ==> Substituted(Show(pieces), headers, row) == Fill(pieces, headers, row))
            <==> Untouched(headers, row)
  {
    if Untouched(headers, row) {
      forall pieces | GoodPieces(pieces, headers) ensures Substituted(Show(pieces), headers, row) == Fill(pieces, headers, row) {
        SubstitutionFillsHoles(pieces, headers, row);
      }
    } else {
      var i: nat, j: nat :| i < j < |headers| && TouchesLater(headers, row, i, j);
      if '<' !in Cell(row, i) { PlainUntouched(Cell(row, i), headers[j]); }
      assert PlainBehind(headers, row, i);
      var pieces := TouchingCellFails(headers, row, i, j);
    }
  }
}
