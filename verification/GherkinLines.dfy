// The lines of a feature file: splitting the source into lines and telling what each line is.
module GherkinLines {
  import opened Text
  import opened GherkinRow

  /** What a line is, outside a doc string. Prose is what no other form matches. */
  datatype Line =
    | Empty
    | Comment
    | Tags(tags: seq<string>)
    | FeatureHead(name: string)
    | BackgroundHead
    | OutlineHead(name: string)
    | ScenarioHead(name: string)
    | ExamplesHead
    | Row(cells: seq<string>)
    | FenceMark(fence: string)
    | StepLine(keyword: string, text: string)
    | Prose

  // ---------------------------------------------------------------- splitting

  /** source.split(/\r?\n/), given the text of the line being read. */
  function SplitLines(s: string, line: string): (r: seq<string>)
    ensures r != []
  {
    if s == "" then [line]
    else if s[0] == '\n' then [line] + SplitLines(s[1..], "")
    else if s[0] == '\r' && |s| > 1 && s[1] == '\n' then [line] + SplitLines(s[2..], "")
    else SplitLines(s[1..], line + [s[0]])
  }

  /** A line end the splitter accepts. */
  predicate LineEnd(eol: string) { eol == "\n" || eol == "\r\n" }

  /** Text that survives as one line. */
  predicate OneLine(s: string) {
    '\n' !in s && (s == "" || s[|s| - 1] != '\r')
  }

  lemma {:induction false} SplitLine(s: string, eol: string, rest: string, line: string)
    requires OneLine(s) && LineEnd(eol)
    ensures SplitLines(s + (eol + rest), line) == [line + s] + SplitLines(rest, "")
  {
    var whole := s + (eol + rest);
    if s == "" {
      assert whole == eol + rest && line + s == line;
      assert whole[|eol|..] == rest;
    } else {
      assert whole[1..] == s[1..] + (eol + rest);
      assert s[0] in s && whole[0] == s[0];
      assert s[0] == '\r' ==> |s| > 1 && s[1] in s && whole[1] == s[1];
      assert OneLine(s[1..]);
      SplitLine(s[1..], eol, rest, line + [s[0]]);
      assert line + [s[0]] + s[1..] == line + s;
    }
  }

  lemma {:induction false} SplitLast(s: string, line: string)
    requires OneLine(s)
    ensures SplitLines(s, line) == [line + s]
  {
    if s == "" {
      assert line + s == line;
    } else {
      assert s[0] in s;
      assert |s| > 1 ==> s[1] in s;
      SplitLast(s[1..], line + [s[0]]);
      assert line + [s[0]] + s[1..] == line + s;
    }
  }

  /** Splitting undoes joining, with either line end. */
  lemma {:induction false} SplitJoined(lines: seq<string>, eol: string)
    requires lines != [] && LineEnd(eol) && forall i :: 0 <= i < |lines| ==> OneLine(lines[i])
    ensures SplitLines(Join(lines, eol), "") == lines
  {
    assert "" + lines[0] == lines[0];
    if |lines| == 1 {
      SplitLast(lines[0], "");
    } else {
      Regroup3(lines[0], eol, Join(lines[1..], eol));
      SplitLine(lines[0], eol, Join(lines[1..], eol), "");
      SplitJoined(lines[1..], eol);
      assert [lines[0]] + lines[1..] == lines;
    }
  }

  // ---------------------------------------------------------------- keywords

  function FoldChar(c: char): char {
    if 'A' <= c <= 'Z' then c - 'A' + 'a' else c
  }

  /** The capital letters become the small ones, place by place, and everything else stays. */
  lemma FoldCharIs(c: char)
    ensures if 'A' <= c <= 'Z' then CaseOf(c, FoldChar(c)) else FoldChar(c) == c
  {
  }

  /** ASCII lower case: what the i flag compares for ASCII patterns. */
  function Fold(s: string): (r: string)
    ensures |r| == |s| && forall i :: 0 <= i < |s| ==> r[i] == FoldChar(s[i])
  {
    seq(|s|, i requires 0 <= i < |s| => FoldChar(s[i]))
  }

  predicate StartsWith(line: string, prefix: string) {
    |prefix| <= |line| && line[..|prefix|] == prefix
  }

  /** A keyword at the start of the line, in any case. */
  predicate Opens(line: string, keyword: string) {
    |keyword| <= |line| && Fold(line[..|keyword|]) == keyword
  }

  const FEATURE := "feature:"
  const BACKGROUND := "background:"
  const OUTLINE := "scenario outline:"
  const TEMPLATE := "scenario template:"
  const SCENARIO := "scenario:"
  const EXAMPLE := "example:"
  const EXAMPLES := "examples:"
  const SCENARIOS := "scenarios:"

  const STEP_KEYWORDS := ["Given", "When", "Then", "And", "But", "*"]

  const QUOTES := "\"\"\""
  const TICKS := "```"

  /** What follows the first n characters, trimmed. */
  function Rest(line: string, n: nat): string
    requires n <= |line|
  {
    Trim(line[n..])
  }

  predicate IsStep(trimmed: string, keyword: string) {
    trimmed == keyword || StartsWith(trimmed, keyword + " ")
  }

  function FirstKeyword(trimmed: string, keywords: seq<string>): (r: Option<string>)
    ensures r.Some? ==> r.value in keywords && IsStep(trimmed, r.value)
  {
    if keywords == [] then None
    else if IsStep(trimmed, keywords[0]) then Some(keywords[0])
    else FirstKeyword(trimmed, keywords[1..])
  }

  predicate NoSpace(s: string) {
    forall i :: 0 <= i < |s| ==> !IsSpace(s[i])
  }

  /** A fence, alone or with a media type after it. */
  function FenceOf(trimmed: string): Option<string> {
    if StartsWith(trimmed, QUOTES) && NoSpace(trimmed[3..]) then Some(QUOTES)
    else if StartsWith(trimmed, TICKS) && NoSpace(trimmed[3..]) then Some(TICKS)
    else None
  }

  function TagsAmong(words: seq<string>): seq<string> {
    if words == [] then []
    else if StartsWith(words[0], "@") then [words[0]] + TagsAmong(words[1..])
    else TagsAmong(words[1..])
  }

  function Classify(raw: string): Line {
    var trimmed := Trim(raw);
    if trimmed == "" then Empty
    else if trimmed[0] == '#' then Comment
    else if trimmed[0] == '@' then Tags(TagsAmong(Words(trimmed, "")))
    else if Opens(trimmed, FEATURE) then FeatureHead(Rest(trimmed, |FEATURE|))
    else if Opens(trimmed, BACKGROUND) then BackgroundHead
    else if Opens(trimmed, OUTLINE) then OutlineHead(Rest(trimmed, |OUTLINE|))
    else if Opens(trimmed, TEMPLATE) then OutlineHead(Rest(trimmed, |TEMPLATE|))
    else if Opens(trimmed, SCENARIO) then ScenarioHead(Rest(trimmed, |SCENARIO|))
    else if Opens(trimmed, EXAMPLE) then ScenarioHead(Rest(trimmed, |EXAMPLE|))
    else if Opens(trimmed, EXAMPLES) || Opens(trimmed, SCENARIOS) then ExamplesHead
    else ClassifyBody(raw, trimmed)
  }

  /** The lines that carry content: table rows, fences, steps, and prose. */
  function ClassifyBody(raw: string, trimmed: string): Line
    requires trimmed != ""
  {
    if trimmed[0] == '|' then Row(TableRow(raw))
    else if FenceOf(trimmed).Some? then FenceMark(FenceOf(trimmed).value)
    else
      var keyword := FirstKeyword(trimmed, STEP_KEYWORDS);
      if keyword.Some? then StepLine(keyword.value, Rest(trimmed, |keyword.value|)) else Prose
  }

  // ---------------------------------------------------------------- writing lines

  /** A keyword and what follows it. */
  function Head(word: string, text: string): string {
    if text == "" then word else word + " " + text
  }

  /** Text that can follow a keyword: trimmed, on one line. */
  predicate Inline(s: string) { Trimmed(s) && '\n' !in s }

  lemma TrimSame(s: string)
    requires Trimmed(s)
    ensures Trim(s) == s
  {
    TrimPadded("", s, "");
    assert "" + s + "" == s;
  }

  lemma HeadTrimmed(word: string, text: string)
    requires word != "" && Trimmed(word) && Trimmed(text)
    ensures Trim(Head(word, text)) == Head(word, text)
    ensures StartsWith(Head(word, text), word) && Rest(Head(word, text), |word|) == text
  {
    var line := Head(word, text);
    TrimSame(line);
    if text == "" {
      assert line[|word|..] == "";
    } else {
      assert line[|word|..] == " " + text;
      TrimPadded(" ", text, "");
      assert " " + text + "" == " " + text;
    }
  }

  lemma Mismatch(line: string, keyword: string, i: nat)
    requires i < |keyword| && (i < |line| ==> FoldChar(line[i]) != keyword[i])
    ensures !Opens(line, keyword)
  {
    if |keyword| <= |line| {
      assert Fold(line[..|keyword|])[i] == FoldChar(line[i]);
    }
  }

  /** Another keyword's line does not open with this keyword, when they differ at i. */
  lemma OtherHead(line: string, word: string, other: string, i: nat)
    requires StartsWith(line, word) && i < |word| && i < |other| && FoldChar(word[i]) != other[i]
    ensures !Opens(line, other)
  {
    assert line[i] == word[i];
    Mismatch(line, other, i);
  }

  /** A line that opens with a word opens with that word's keyword. */
  lemma OwnHead(line: string, word: string, keyword: string)
    requires StartsWith(line, word) && Fold(word) == keyword
    ensures Opens(line, keyword)
  {
  }

  /** The word is the keyword in some mixture of cases. */
  predicate Spells(word: string, keyword: string) { Fold(word) == keyword }

  /** The keyword and its first character, without white space at its ends. */
  lemma SpelledTrimmed(word: string, keyword: string)
    requires Spells(word, keyword) && keyword != "" && 'a' <= keyword[0] <= 'z' && keyword[|keyword| - 1] == ':'
    ensures word != "" && Trimmed(word) && FoldChar(word[0]) == keyword[0]
    ensures word[0] != '#' && word[0] != '@'
  {
    assert Fold(word)[0] == FoldChar(word[0]);
    assert Fold(word)[|word| - 1] == FoldChar(word[|word| - 1]);
  }

  lemma FeatureLine(word: string, name: string)
    requires Spells(word, FEATURE) && Trimmed(name)
    ensures Classify(Head(word, name)) == FeatureHead(name)
  {
    SpelledTrimmed(word, FEATURE);
    HeadTrimmed(word, name);
    OwnHead(Head(word, name), word, FEATURE);
  }

  lemma BackgroundLine(word: string, name: string)
    requires Spells(word, BACKGROUND) && Trimmed(name)
    ensures Classify(Head(word, name)) == BackgroundHead
  {
    SpelledTrimmed(word, BACKGROUND);
    HeadTrimmed(word, name);
    OtherHead(Head(word, name), word, FEATURE, 0);
    OwnHead(Head(word, name), word, BACKGROUND);
  }

  lemma OutlineLine(word: string, name: string)
    requires (Spells(word, OUTLINE) || Spells(word, TEMPLATE)) && Trimmed(name)
    ensures Classify(Head(word, name)) == OutlineHead(name)
  {
    var line := Head(word, name);
    if Spells(word, OUTLINE) {
      SpelledTrimmed(word, OUTLINE);
      OwnHead(line, word, OUTLINE);
    } else {
      SpelledTrimmed(word, TEMPLATE);
      OwnHead(line, word, TEMPLATE);
    }
    HeadTrimmed(word, name);
    OtherHead(line, word, FEATURE, 0);
    OtherHead(line, word, BACKGROUND, 0);
    if Spells(word, TEMPLATE) {
      assert FoldChar(word[9]) == Fold(word)[9] == TEMPLATE[9] == 't';
      OtherHead(line, word, OUTLINE, 9);
    }
  }

  lemma ScenarioLine(word: string, name: string)
    requires (Spells(word, SCENARIO) || Spells(word, EXAMPLE)) && Trimmed(name)
    ensures Classify(Head(word, name)) == ScenarioHead(name)
  {
    var line := Head(word, name);
    if Spells(word, SCENARIO) {
      SpelledTrimmed(word, SCENARIO);
      OwnHead(line, word, SCENARIO);
      assert FoldChar(word[8]) == Fold(word)[8] == SCENARIO[8] == ':';
      OtherHead(line, word, OUTLINE, 8);
      OtherHead(line, word, TEMPLATE, 8);
    } else {
      SpelledTrimmed(word, EXAMPLE);
      OwnHead(line, word, EXAMPLE);
      OtherHead(line, word, OUTLINE, 0);
      OtherHead(line, word, TEMPLATE, 0);
      OtherHead(line, word, SCENARIO, 0);
    }
    HeadTrimmed(word, name);
    OtherHead(line, word, FEATURE, 0);
    OtherHead(line, word, BACKGROUND, 0);
  }

  lemma ExamplesLine(word: string, name: string)
    requires (Spells(word, EXAMPLES) || Spells(word, SCENARIOS)) && Trimmed(name)
    ensures Classify(Head(word, name)) == ExamplesHead
  {
    var line := Head(word, name);
    if Spells(word, EXAMPLES) {
      SpelledTrimmed(word, EXAMPLES);
      OwnHead(line, word, EXAMPLES);
      assert FoldChar(word[7]) == Fold(word)[7] == EXAMPLES[7] == 's';
      OtherHead(line, word, OUTLINE, 0);
      OtherHead(line, word, TEMPLATE, 0);
      OtherHead(line, word, SCENARIO, 0);
      OtherHead(line, word, EXAMPLE, 7);
    } else {
      SpelledTrimmed(word, SCENARIOS);
      OwnHead(line, word, SCENARIOS);
      assert FoldChar(word[8]) == Fold(word)[8] == SCENARIOS[8] == 's';
      OtherHead(line, word, OUTLINE, 8);
      OtherHead(line, word, TEMPLATE, 8);
      OtherHead(line, word, SCENARIO, 8);
      OtherHead(line, word, EXAMPLE, 0);
    }
    HeadTrimmed(word, name);
    OtherHead(line, word, FEATURE, 0);
    OtherHead(line, word, BACKGROUND, 0);
  }

  /** A line opens with a keyword exactly when it starts with some spelling of it. */
  lemma OpensIff(line: string, keyword: string)
    ensures Opens(line, keyword) <==> exists word :: Spells(word, keyword) && StartsWith(line, word)
  {
    if Opens(line, keyword) {
      var word := line[..|keyword|];
      assert Spells(word, keyword) && StartsWith(line, word);
    }
    if word :| Spells(word, keyword) && StartsWith(line, word) { OwnHead(line, word, keyword); }
  }

  /** A line is one of the six headers only if it starts, but for white space, with a spelling of their keywords. */
  lemma HeaderNeedsKeyword(raw: string) returns (word: string)
    requires var line := Classify(raw);
             line.FeatureHead? || line.BackgroundHead? || line.OutlineHead? || line.ScenarioHead? || line.ExamplesHead?
    ensures StartsWith(Trim(raw), word)
    ensures match Classify(raw)
            case FeatureHead(_) => Fold(word) == "feature:"
            case BackgroundHead => Fold(word) == "background:"
            case OutlineHead(_) => Fold(word) in {"scenario outline:", "scenario template:"}
            case ScenarioHead(_) => Fold(word) in {"scenario:", "example:"}
            case ExamplesHead => Fold(word) in {"examples:", "scenarios:"}
            case _ => true
  {
    var line := Trim(raw);
    var keyword := if Opens(line, FEATURE) then FEATURE else if Opens(line, BACKGROUND) then BACKGROUND
                   else if Opens(line, OUTLINE) then OUTLINE else if Opens(line, TEMPLATE) then TEMPLATE
                   else if Opens(line, SCENARIO) then SCENARIO else if Opens(line, EXAMPLE) then EXAMPLE
                   else if Opens(line, EXAMPLES) then EXAMPLES else SCENARIOS;
    word := if |keyword| <= |line| then line[..|keyword|] else "";
  }

  /** A character that begins no keyword line but, perhaps, a background's. */
  predicate Bodily(c: char) {
    && c != '#' && c != '@'
    && FoldChar(c) !in "fse"
  }

  /** A line that begins no keyword line is a content line. */
  lemma BodyLine(raw: string)
    requires Trim(raw) != "" && Bodily(Trim(raw)[0]) && !Opens(Trim(raw), BACKGROUND)
    ensures Classify(raw) == ClassifyBody(raw, Trim(raw))
  {
    var line := Trim(raw);
    Mismatch(line, FEATURE, 0);
    Mismatch(line, OUTLINE, 0);
    Mismatch(line, TEMPLATE, 0);
    Mismatch(line, SCENARIO, 0);
    Mismatch(line, EXAMPLE, 0);
    Mismatch(line, EXAMPLES, 0);
    Mismatch(line, SCENARIOS, 0);
  }

  lemma RowLine(cells: seq<string>, pad: string)
    requires AllTrimmed(cells) && Blank(pad)
    ensures Classify(WriteRow(cells, pad)) == Row(cells)
  {
    var line := WriteRow(cells, pad);
    RowTrimmed(cells, pad);
    TrimSame(line);
    Mismatch(line, BACKGROUND, 0);
    BodyLine(line);
    RowRoundTrip(cells, pad, "", "");
    assert "" + line + "" == line;
  }

  predicate IsFence(fence: string) { fence == QUOTES || fence == TICKS }

  lemma FenceLine(fence: string, media: string)
    requires IsFence(fence) && NoSpace(media)
    ensures Classify(fence + media) == FenceMark(fence)
  {
    var line := fence + media;
    assert NoSpace(fence);
    assert forall i :: 0 <= i < |line| ==> line[i] == if i < 3 then fence[i] else media[i - 3];
    TrimSame(line);
    Mismatch(line, BACKGROUND, 0);
    BodyLine(line);
    assert line[3..] == media && line[..3] == fence;
    assert line[0] == fence[0] && QUOTES[0] == '"' && TICKS[0] == '`';
  }

  lemma StartsAlike(line: string, prefix: string)
    requires StartsWith(line, prefix) && prefix != ""
    ensures line != "" && line[0] == prefix[0]
  {
    assert line[..|prefix|][0] == line[0];
  }

  lemma StepStarts(line: string, other: string)
    requires IsStep(line, other) && other != ""
    ensures line != "" && line[0] == other[0]
  {
    if line != other { StartsAlike(line, other + " "); }
  }

  lemma NotStep(line: string, keyword: string, other: string)
    requires StartsWith(line, keyword) && keyword != "" && other != "" && keyword[0] != other[0]
    ensures !IsStep(line, other)
  {
    StartsAlike(line, keyword);
    if IsStep(line, other) { StepStarts(line, other); }
  }

  lemma KeywordFound(line: string, keyword: string)
    requires keyword in STEP_KEYWORDS && IsStep(line, keyword)
    ensures FirstKeyword(line, STEP_KEYWORDS) == Some(keyword)
  {
    assert StartsWith(line, keyword) by {
      if line != keyword { assert line[..|keyword|] == (keyword + " ")[..|keyword|] == keyword; }
    }
    var found := FirstKeyword(line, STEP_KEYWORDS);
    KeywordExists(line, keyword, STEP_KEYWORDS);
    forall other | other in STEP_KEYWORDS && other != keyword ensures !IsStep(line, other) {
      NotStep(line, keyword, other);
    }
  }

  lemma {:induction false} KeywordExists(line: string, keyword: string, keywords: seq<string>)
    requires keyword in keywords && IsStep(line, keyword)
    ensures FirstKeyword(line, keywords).Some?
  {
    if !IsStep(line, keywords[0]) { KeywordExists(line, keyword, keywords[1..]); }
  }

  lemma StepHead(keyword: string, text: string)
    requires keyword in STEP_KEYWORDS && Trimmed(text)
    ensures Classify(Head(keyword, text)) == StepLine(keyword, text)
  {
    var line := Head(keyword, text);
    KeywordOpens(keyword);
    HeadTrimmed(keyword, text);
    assert line[0] == keyword[0];
    NoBackground(line, keyword);
    BodyLine(line);
    HeadIsStep(keyword, text);
    KeywordFound(line, keyword);
    NoFence(line);
  }

  lemma NoFence(line: string)
    requires line != "" && line[0] != QUOTES[0] && line[0] != TICKS[0]
    ensures FenceOf(line).None?
  {
    if |line| >= 3 { assert line[..3][0] == line[0]; }
  }

  lemma HeadIsStep(keyword: string, text: string)
    ensures IsStep(Head(keyword, text), keyword)
  {
    if text != "" { assert Head(keyword, text)[..|keyword + " "|] == keyword + " "; }
  }

  /** No step keyword begins a background line: the nearest, But, differs in its second letter. */
  lemma NoBackground(line: string, keyword: string)
    requires keyword in STEP_KEYWORDS && StartsWith(line, keyword)
    ensures !Opens(line, BACKGROUND)
  {
    OtherHead(line, keyword, BACKGROUND, if keyword == "But" then 1 else 0);
  }

  lemma KeywordOpens(keyword: string)
    requires keyword in STEP_KEYWORDS
    ensures Trimmed(keyword) && keyword != "" && Bodily(keyword[0])
    ensures keyword[0] != '|' && keyword[0] != QUOTES[0] && keyword[0] != TICKS[0]
  {
  }

  // ---------------------------------------------------------------- tags

  predicate IsTag(tag: string) { tag != "" && tag[0] == '@' && NoSpace(tag) }

  predicate AllTags(tags: seq<string>) { forall i :: 0 <= i < |tags| ==> IsTag(tags[i]) }

  lemma {:induction false} WordRead(s: string, rest: string, word: string)
    requires NoSpace(s)
    ensures Words(s + rest, word) == Words(rest, word + s)
  {
    if s == "" {
      assert s + rest == rest && word + s == word;
    } else {
      assert (s + rest)[1..] == s[1..] + rest;
      WordRead(s[1..], rest, word + [s[0]]);
      assert word + [s[0]] + s[1..] == word + s;
    }
  }

  lemma {:induction false} TagsRead(tags: seq<string>)
    requires AllTags(tags)
    ensures Words(Join(tags, " "), "") == tags
  {
    if |tags| == 0 {
    } else {
      var tag := tags[0];
      assert "" + tag == tag;
      if |tags| == 1 {
        WordRead(tag, "", "");
        assert tag + "" == tag;
      } else {
        var rest := " " + Join(tags[1..], " ");
        Regroup3(tag, " ", Join(tags[1..], " "));
        WordRead(tag, rest, "");
        assert rest[1..] == Join(tags[1..], " ");
        TagsRead(tags[1..]);
      }
    }
  }

  lemma {:induction false} AllAreTags(tags: seq<string>)
    requires AllTags(tags)
    ensures TagsAmong(tags) == tags
  {
    if tags != [] {
      assert tags[0][..1] == "@";
      AllAreTags(tags[1..]);
    }
  }

  lemma {:induction false} TagsTrimmed(tags: seq<string>)
    requires AllTags(tags) && tags != []
    ensures var line := Join(tags, " "); line != "" && line[0] == '@' && !IsSpace(line[|line| - 1])
  {
    if |tags| > 1 { TagsTrimmed(tags[1..]); }
  }

  /** A line of tags is read as those tags. */
  lemma TagLine(tags: seq<string>)
    requires AllTags(tags) && tags != []
    ensures Classify(Join(tags, " ")) == Tags(tags)
  {
    TagsTrimmed(tags);
    TrimSame(Join(tags, " "));
    TagsRead(tags);
    AllAreTags(tags);
  }

  // ---------------------------------------------------------------- layout

  /** What a line is depends on its trimmed text alone: indentation changes nothing. */
  lemma IndentationIgnored(left: string, line: string, right: string)
    requires Trimmed(line) && Blank(left) && Blank(right)
    ensures Classify(left + line + right) == Classify(line)
  {
    TrimPadded(left, line, right);
    TrimSame(line);
  }
}
