// The canonical JSON text that the audit chain hashes: object keys are sorted at every
// depth, so the text does not depend on the key order a value happens to be stored in.
module Json {
  import opened Text

  /** A JavaScript value as `canonicalJson` distinguishes them. An object keeps its members in
      stored order; a number is held by its ECMAScript decimal text. */
  datatype Value =
    | Missing // undefined, a function, a symbol, NaN or an infinity: no JSON text of its own
    | Null
    | Bool(b: bool)
    | Number(text: string)
    | Str(s: string)
    | Array(items: seq<Value>)
    | Object(members: seq<Member>)

  datatype Member = Member(key: string, value: Value)

  predicate NumeralChar(c: char) { IsDigit(c) || c in "+-.eE" }

  predicate Numeral(t: string) {
    t != "" && (IsDigit(t[0]) || t[0] == '-') && forall c :: c in t ==> NumeralChar(c)
  }

  /** Numbers hold numerals and no object repeats a key, as in any JavaScript value. */
  predicate WellFormed(v: Value) {
    match v
    case Number(t) => Numeral(t)
    case Array(items) => forall i :: 0 <= i < |items| ==> WellFormed(items[i])
    case Object(ms) =>
      && (forall i, j :: 0 <= i < j < |ms| ==> ms[i].key != ms[j].key)
      && forall i :: 0 <= i < |ms| ==> WellFormed(ms[i].value)
    case _ => true
  }

  /** A value that can be stored: what the lemmas below speak about. */
  type Stored = v: Value | WellFormed(v) witness Null

  // ---------------------------------------------------------------- equality up to key order

  /** Two values are the same JSON up to the order of object keys at every depth. */
  ghost predicate Same(a: Value, b: Value)
    decreases a
  {
    match a
    case Missing => b.Missing? || b.Null?
    case Null => b.Missing? || b.Null?
    case Array(xs) =>
      b.Array? && |xs| == |b.items| && forall i :: 0 <= i < |xs| ==> Same(xs[i], b.items[i])
    case Object(ms) =>
      && b.Object?
      && Keys(ms) == Keys(b.members)
      && forall i, j :: 0 <= i < |ms| && 0 <= j < |b.members| && ms[i].key == b.members[j].key ==>
           Same(ms[i].value, b.members[j].value)
    case _ => a == b
  }

  ghost function Keys(ms: seq<Member>): set<string> {
    set i | 0 <= i < |ms| :: ms[i].key
  }

  // ---------------------------------------------------------------- key order

  /** The rank of a character when text is compared by UTF-16 code units: a supplementary
      character starts with a surrogate and so sorts below U+E000. */
  function Utf16Rank(c: char): int {
    var n := c as int;
    if n < 0xE000 then n else if n >= 0x10000 then n - 0x2000 else n + 0x110000
  }

  /** Array.prototype.sort on strings: by code units, a proper prefix first. */
  predicate KeyBefore(a: string, b: string) {
    if b == "" then false
    else if a == "" then true
    else if a[0] != b[0] then Utf16Rank(a[0]) < Utf16Rank(b[0])
    else KeyBefore(a[1..], b[1..])
  }

  lemma {:induction false} KeyOrderTotal(a: string, b: string)
    ensures a == b || KeyBefore(a, b) || KeyBefore(b, a)
  {
    if a != "" && b != "" && a[0] == b[0] {
      KeyOrderTotal(a[1..], b[1..]);
      assert a == [a[0]] + a[1..] && b == [b[0]] + b[1..];
    }
  }

  lemma {:induction false} KeyOrderAsymmetric(a: string, b: string)
    requires KeyBefore(a, b)
    ensures a != b && !KeyBefore(b, a)
  {
    if a != "" && a[0] == b[0] { KeyOrderAsymmetric(a[1..], b[1..]); }
  }

  lemma {:induction false} KeyOrderTransitive(a: string, b: string, c: string)
    requires KeyBefore(a, b) && KeyBefore(b, c)
    ensures KeyBefore(a, c)
  {
    if a != "" && b[0] == a[0] && c[0] == b[0] { KeyOrderTransitive(a[1..], b[1..], c[1..]); }
  }

  // ---------------------------------------------------------------- sorting members

  function Size(v: Value): nat {
    match v
    case Array(items) => 1 + SizeAll(items)
    case Object(ms) => 1 + SizeMembers(ms)
    case _ => 1
  }

  function SizeAll(items: seq<Value>): nat {
    if items == [] then 0 else 1 + Size(items[0]) + SizeAll(items[1..])
  }

  function SizeMembers(ms: seq<Member>): nat {
    if ms == [] then 0 else 1 + Size(ms[0].value) + SizeMembers(ms[1..])
  }

  function InsertMember(m: Member, sorted: seq<Member>): (r: seq<Member>)
    ensures multiset(r) == multiset(sorted) + multiset{m}
    ensures SizeMembers(r) == SizeMembers(sorted) + 1 + Size(m.value)
  {
    if sorted == [] then [m]
    else if KeyBefore(m.key, sorted[0].key) then [m] + sorted
    else
      assert sorted == [sorted[0]] + sorted[1..];
      [sorted[0]] + InsertMember(m, sorted[1..])
  }

  function SortMembers(ms: seq<Member>): (r: seq<Member>)
    ensures multiset(r) == multiset(ms)
    ensures SizeMembers(r) == SizeMembers(ms)
  {
    if ms == [] then []
    else
      assert ms == [ms[0]] + ms[1..];
      InsertMember(ms[0], SortMembers(ms[1..]))
  }

  ghost predicate Ascending(ms: seq<Member>) {
    forall i, j :: 0 <= i < j < |ms| ==> KeyBefore(ms[i].key, ms[j].key)
  }

  // ---------------------------------------------------------------- canonical text

  const HEX := "0123456789abcdef"

  /** One character inside a JSON string, as JSON.stringify writes it. */
  function EscapeChar(c: char): (t: string)
    ensures t != ""
  {
    if c == '"' then "\\\""
    else if c == '\\' then "\\\\"
    else if c == '\U{0008}' then "\\b"
    else if c == '\U{000C}' then "\\f"
    else if c == '\n' then "\\n"
    else if c == '\r' then "\\r"
    else if c == '\t' then "\\t"
    else if c < ' ' then "\\u00" + [HEX[c as int / 16], HEX[c as int % 16]]
    else [c]
  }

  function Escape(s: string): string {
    if s == "" then "" else EscapeChar(s[0]) + Escape(s[1..])
  }

  function Quote(s: string): string {
    "\"" + Escape(s) + "\""
  }

  function CanonicalJson(v: Value): string
    decreases Size(v), 1
  {
    match v
    case Missing => "null"
    case Null => "null"
    case Bool(b) => if b then "true" else "false"
    case Number(t) => t
    case Str(s) => Quote(s)
    case Array(items) => "[" + Elements(items) + "]"
    case Object(ms) => "{" + Members(SortMembers(ms)) + "}"
  }

  function Elements(items: seq<Value>): string
    decreases SizeAll(items), 0
  {
    if items == [] then ""
    else if |items| == 1 then CanonicalJson(items[0])
    else CanonicalJson(items[0]) + "," + Elements(items[1..])
  }

  function Members(ms: seq<Member>): string
    decreases SizeMembers(ms), 0
  {
    if ms == [] then ""
    else if |ms| == 1 then MemberText(ms[0].key, CanonicalJson(ms[0].value))
    else MemberText(ms[0].key, CanonicalJson(ms[0].value)) + "," + Members(ms[1..])
  }

  /** An array's text: the texts of its items with commas between. */
  lemma {:induction false} ElementsJoined(items: seq<Value>, texts: seq<string>)
    requires |texts| == |items| && forall i :: 0 <= i < |items| ==> texts[i] == CanonicalJson(items[i])
    ensures Elements(items) == Join(texts, ",")
  {
    if |items| > 1 { ElementsJoined(items[1..], texts[1..]); }
  }

  /** How JSON.stringify writes a character: a quotation mark, a backslash and the control characters are escaped, the
      latter by a letter where there is one and in hexadecimal otherwise, and nothing else is. */
  lemma EscapedAs(c: char)
    ensures c in "\"\\" ==> EscapeChar(c) == ['\\', c]
    ensures c == '\U{0008}' ==> EscapeChar(c) == "\\b"
    ensures c == '\U{0009}' ==> EscapeChar(c) == "\\t"
    ensures c == '\U{000A}' ==> EscapeChar(c) == "\\n"
    ensures c == '\U{000C}' ==> EscapeChar(c) == "\\f"
    ensures c == '\U{000D}' ==> EscapeChar(c) == "\\r"
    ensures c < '\U{0020}' && c !in "\U{0008}\U{0009}\U{000A}\U{000C}\U{000D}" ==>
              |EscapeChar(c)| == 6 && EscapeChar(c)[..4] == "\\u00"
              && HexValue(EscapeChar(c)[4]) * 16 + HexValue(EscapeChar(c)[5]) == c as int
    ensures c >= '\U{0020}' && c !in "\"\\" ==> EscapeChar(c) == [c]
  {
    if c < '\U{0020}' {
      HexBack(c as int / 16);
      HexBack(c as int % 16);
    }
  }

  /** The code units of a character in UTF-16. */
  function Units(c: char): seq<int> {
    var n := c as int;
    if n < 0x10000 then [n] else [0xD800 + (n - 0x10000) / 0x400, 0xDC00 + (n - 0x10000) % 0x400]
  }

  /** Characters are ranked as their code units are, compared from the first on. */
  lemma RankIsUnits(c: char, d: char)
    ensures Utf16Rank(c) < Utf16Rank(d)
            <==> Units(c)[0] < Units(d)[0] || (|Units(c)| == |Units(d)| == 2 && Units(c)[0] == Units(d)[0] && Units(c)[1] < Units(d)[1])
  {
  }

  function MemberText(key: string, valueText: string): string {
    Quote(key) + ":" + valueText
  }

  // ---------------------------------------------------------------- normal form

  /** The value with every object's members in key order and no undefined part: what a reader
      of the canonical text gets back. */
  function Normal(v: Value): Value
    decreases Size(v), 1
  {
    match v
    case Missing => Null
    case Array(items) => Array(NormalAll(items))
    case Object(ms) => Object(NormalMembers(SortMembers(ms)))
    case _ => v
  }

  function NormalAll(items: seq<Value>): (r: seq<Value>)
    ensures |r| == |items|
    decreases SizeAll(items), 0
  {
    if items == [] then [] else [Normal(items[0])] + NormalAll(items[1..])
  }

  function NormalMembers(ms: seq<Member>): (r: seq<Member>)
    ensures |r| == |ms|
    decreases SizeMembers(ms), 0
  {
    if ms == [] then [] else [Member(ms[0].key, Normal(ms[0].value))] + NormalMembers(ms[1..])
  }

  // ---------------------------------------------------------------- the reader

  datatype Parsed<+T> = NoParse | Parse(value: T, rest: string)

  function HexValue(c: char): int {
    if '0' <= c <= '9' then c as int - '0' as int
    else if 'a' <= c <= 'f' then c as int - 'a' as int + 10
    else -1
  }

  /** What a two-character escape stands for, by its second character. */
  function ShortEscape(c: char): Option<char> {
    if c in "\"\\/" then Some(c)
    else if c == 'b' then Some('\U{0008}')
    else if c == 'f' then Some('\U{000C}')
    else if c == 'n' then Some('\n')
    else if c == 'r' then Some('\r')
    else if c == 't' then Some('\t')
    else None
  }

  /** The character written by four hexadecimal digits. Surrogates are refused: canonical text has none. */
  function HexEscape(t: string): Option<char>
    requires |t| == 4
  {
    if exists i :: 0 <= i < 4 && HexValue(t[i]) < 0 then None
    else
      var n := ((HexValue(t[0]) * 16 + HexValue(t[1])) * 16 + HexValue(t[2])) * 16 + HexValue(t[3]);
      if n < 0xD800 || 0xE000 <= n < 0x10000 then Some(n as char) else None
  }

  /** One character of a JSON string (section 7 of RFC 8259), for text that is not at the closing quote. */
  function ReadChar(t: string): (r: Parsed<char>)
    ensures r.Parse? ==> |r.rest| < |t|
  {
    if t == "" || t[0] == '"' || t[0] < ' ' then NoParse
    else if t[0] != '\\' then Parse(t[0], t[1..])
    else if |t| >= 2 && ShortEscape(t[1]).Some? then Parse(ShortEscape(t[1]).value, t[2..])
    else if |t| >= 6 && t[1] == 'u' && HexEscape(t[2..6]).Some? then Parse(HexEscape(t[2..6]).value, t[6..])
    else NoParse
  }

  /** The rest of a JSON string after its opening quote. */
  function ReadString(t: string): (r: Parsed<string>)
    ensures r.Parse? ==> |r.rest| < |t|
    decreases |t|
  {
    if t != "" && t[0] == '"' then Parse("", t[1..])
    else
      match ReadChar(t)
      case NoParse => NoParse
      case Parse(c, rest) =>
        match ReadString(rest)
        case NoParse => NoParse
        case Parse(cs, after) => Parse([c] + cs, after)
  }

  function NumeralEnd(t: string): (n: nat)
    ensures n <= |t|
  {
    if t != "" && NumeralChar(t[0]) then 1 + NumeralEnd(t[1..]) else 0
  }

  function Read(t: string): (r: Parsed<Value>)
    ensures r.Parse? ==> |r.rest| < |t|
    decreases |t|, 0
  {
    if t == "" then NoParse
    else if t[0] == '"' then
      match ReadString(t[1..])
      case NoParse => NoParse
      case Parse(s, rest) => Parse(Str(s), rest)
    else if t[0] == '[' then
      if "[]" <= t then Parse(Array([]), t[2..])
      else
        match ReadItems(t[1..])
        case NoParse => NoParse
        case Parse(items, rest) => Parse(Array(items), rest)
    else if t[0] == '{' then
      if "{}" <= t then Parse(Object([]), t[2..])
      else
        match ReadMembers(t[1..])
        case NoParse => NoParse
        case Parse(ms, rest) => Parse(Object(ms), rest)
    else if IsDigit(t[0]) || t[0] == '-' then
      assert NumeralEnd(t) >= 1;
      Parse(Number(t[..NumeralEnd(t)]), t[NumeralEnd(t)..])
    else if "null" <= t then Parse(Null, t[4..])
    else if "true" <= t then Parse(Bool(true), t[4..])
    else if "false" <= t then Parse(Bool(false), t[5..])
    else NoParse
  }

  /** One or more values separated by commas, up to and including the closing bracket. */
  function ReadItems(t: string): (r: Parsed<seq<Value>>)
    ensures r.Parse? ==> |r.rest| < |t|
    decreases |t|, 1
  {
    match Read(t)
    case NoParse => NoParse
    case Parse(v, rest) =>
      if rest == "" then NoParse
      else if rest[0] == ']' then Parse([v], rest[1..])
      else if rest[0] != ',' then NoParse
      else
        match ReadItems(rest[1..])
        case NoParse => NoParse
        case Parse(vs, after) => Parse([v] + vs, after)
  }

  /** A quoted key, a colon and a value. */
  function ReadMember(t: string): (r: Parsed<Member>)
    ensures r.Parse? ==> |r.rest| < |t|
    decreases |t|, 1
  {
    if t == "" || t[0] != '"' then NoParse
    else
      match ReadString(t[1..])
      case NoParse => NoParse
      case Parse(key, afterKey) =>
        if afterKey == "" || afterKey[0] != ':' then NoParse
        else
          match Read(afterKey[1..])
          case NoParse => NoParse
          case Parse(v, rest) => Parse(Member(key, v), rest)
  }

  /** One or more members separated by commas, up to and including the closing brace. */
  function ReadMembers(t: string): (r: Parsed<seq<Member>>)
    ensures r.Parse? ==> |r.rest| < |t|
    decreases |t|, 2
  {
    match ReadMember(t)
    case NoParse => NoParse
    case Parse(m, rest) =>
      if rest == "" then NoParse
      else if rest[0] == '}' then Parse([m], rest[1..])
      else if rest[0] != ',' then NoParse
      else
        match ReadMembers(rest[1..])
        case NoParse => NoParse
        case Parse(ms, after) => Parse([m] + ms, after)
  }

  // ---------------------------------------------------------------- reading back

  lemma HexBack(n: nat)
    requires n < 32
    ensures HexEscape(['0', '0', HEX[n / 16], HEX[n % 16]]) == Some(n as char)
  {
    assert HexValue(HEX[n / 16]) == n / 16;
    assert HexValue(HEX[n % 16]) == n % 16;
  }

  lemma ReadShortBack(e: char, c: char, rest: string)
    requires ShortEscape(e) == Some(c)
    ensures ReadChar(['\\', e] + rest) == Parse(c, rest)
  {
    assert (['\\', e] + rest)[2..] == rest;
  }

  lemma ReadHexBack(hex: string, c: char, rest: string)
    requires |hex| == 4 && HexEscape(hex) == Some(c)
    ensures ReadChar("\\u" + hex + rest) == Parse(c, rest)
  {
    var t := "\\u" + hex + rest;
    assert t[2..6] == hex && t[6..] == rest;
  }

  lemma ReadCharBack(c: char, rest: string)
    ensures ReadChar(EscapeChar(c) + rest) == Parse(c, rest)
    ensures (EscapeChar(c) + rest)[0] != '"'
  {
    if |EscapeChar(c)| == 6 {
      var hex := ['0', '0', HEX[c as int / 16], HEX[c as int % 16]];
      HexBack(c as int);
      ReadHexBack(hex, c, rest);
      assert EscapeChar(c) == "\\u" + hex;
    } else if |EscapeChar(c)| == 2 {
      var e := EscapeChar(c)[1];
      ReadShortBack(e, c, rest);
      assert EscapeChar(c) == ['\\', e];
    } else {
      assert (EscapeChar(c) + rest)[1..] == rest;
    }
  }

  /** A quoted string is read back whole, whatever follows its closing quote. */
  lemma {:induction false} ReadStringBack(s: string, rest: string)
    ensures ReadString(Escape(s) + "\"" + rest) == Parse(s, rest)
  {
    var t := Escape(s) + "\"" + rest;
    if s == "" {
      assert t[1..] == rest;
    } else {
      var tail := Escape(s[1..]) + "\"" + rest;
      assert t == EscapeChar(s[0]) + tail;
      ReadCharBack(s[0], tail);
      ReadStringBack(s[1..], rest);
      assert s == [s[0]] + s[1..];
    }
  }

  lemma Unquoted(s: string, rest: string)
    ensures Quote(s) + rest != "" && (Quote(s) + rest)[0] == '"'
    ensures (Quote(s) + rest)[1..] == Escape(s) + "\"" + rest
  {
    Unwrapped(Escape(s), rest);
  }

  lemma Unwrapped(body: string, rest: string)
    ensures var text := "\"" + body + "\"" + rest;
            text != "" && text[0] == '"' && text[1..] == body + "\"" + rest
  {
  }

  lemma {:induction false} NumeralEndBack(t: string, rest: string)
    requires forall c :: c in t ==> NumeralChar(c)
    requires rest == "" || !NumeralChar(rest[0])
    ensures NumeralEnd(t + rest) == |t|
  {
    if t == "" {
      assert t + rest == rest;
    } else {
      assert t[0] in t;
      assert (t + rest)[1..] == t[1..] + rest;
      NumeralEndBack(t[1..], rest);
    }
  }

  /** Canonical text starts with a character that is neither a closing bracket nor a closing brace. */
  lemma CanonicalStart(v: Value)
    requires WellFormed(v)
    ensures CanonicalJson(v) != ""
    ensures var c := CanonicalJson(v)[0]; c in "ntf\"[{-" || IsDigit(c)
  {
  }

  lemma ElementsStart(items: seq<Value>)
    requires items != [] && WellFormed(items[0])
    ensures Elements(items) != "" && Elements(items)[0] == CanonicalJson(items[0])[0]
    ensures CanonicalJson(items[0]) != ""
  {
    CanonicalStart(items[0]);
  }

  lemma ReadNumberBack(t: string, rest: string)
    requires Numeral(t)
    requires rest == "" || !NumeralChar(rest[0])
    ensures Read(t + rest) == Parse(Number(t), rest)
  {
    NumeralEndBack(t, rest);
    assert (t + rest)[..|t|] == t && (t + rest)[|t|..] == rest;
  }

  lemma ReadLiteralBack(v: Value, rest: string)
    requires v.Missing? || v.Null? || v.Bool?
    ensures Read(CanonicalJson(v) + rest) == Parse(Normal(v), rest)
  {
    var text := CanonicalJson(v);
    assert text <= text + rest && (text + rest)[|text|..] == rest;
    assert (text + rest)[0] == text[0];
  }

  lemma ReadStrBack(s: string, rest: string)
    ensures Read(Quote(s) + rest) == Parse(Str(s), rest)
  {
    ReadStringBack(s, rest);
    Unquoted(s, rest);
  }

  lemma MembersStart(ms: seq<Member>)
    requires ms != []
    ensures Members(ms) != "" && Members(ms)[0] == '"'
  {
    var text := CanonicalJson(ms[0].value);
    assert MemberText(ms[0].key, text)[0] == '"';
  }

  /** Reading a bracketed sequence is reading its items. */
  lemma ReadBracketed(body: string, items: seq<Value>, rest: string)
    requires body != "" && body[0] != ']' && ReadItems(body) == Parse(items, rest)
    ensures Read("[" + body) == Parse(Array(items), rest)
  {
    assert ("[" + body)[1..] == body;
  }

  /** Reading a braced sequence is reading its members. */
  lemma ReadBraced(body: string, ms: seq<Member>, rest: string)
    requires body != "" && body[0] != '}' && ReadMembers(body) == Parse(ms, rest)
    ensures Read("{" + body) == Parse(Object(ms), rest)
  {
    assert ("{" + body)[1..] == body;
  }

  lemma ReadEmpties(rest: string)
    ensures Read("[]" + rest) == Parse(Array([]), rest)
    ensures Read("{}" + rest) == Parse(Object([]), rest)
  {
    assert ("[]" + rest)[2..] == rest && ("{}" + rest)[2..] == rest;
  }

  /** The reader recovers every value from its canonical text: members in key order, nothing
      undefined left, whatever delimiter follows. */
  lemma {:induction false} ReadBack(v: Value, rest: string)
    requires WellFormed(v)
    requires rest == "" || !NumeralChar(rest[0])
    ensures Read(CanonicalJson(v) + rest) == Parse(Normal(v), rest)
    decreases Size(v), 1
  {
    match v {
      case Number(t) => ReadNumberBack(t, rest);
      case Str(s) => ReadStrBack(s, rest);
      case Array(items) => ReadArrayBack(items, rest);
      case Object(ms) => ReadObjectBack(ms, rest);
      case _ => ReadLiteralBack(v, rest);
    }
  }

  lemma {:induction false} ReadArrayBack(items: seq<Value>, rest: string)
    requires forall i :: 0 <= i < |items| ==> WellFormed(items[i])
    ensures Read("[" + Elements(items) + "]" + rest) == Parse(Array(NormalAll(items)), rest)
    decreases SizeAll(items), 1
  {
    if items == [] {
      ReadEmpties(rest);
    } else {
      ElementsStart(items);
      CanonicalStart(items[0]);
      ReadItemsBack(items, rest);
      ReadBracketed(Elements(items) + "]" + rest, NormalAll(items), rest);
      Regroup4("[", Elements(items), "]", rest);
      Regroup3(Elements(items), "]", rest);
    }
  }

  lemma {:induction false} ReadObjectBack(unsorted: seq<Member>, rest: string)
    requires forall i :: 0 <= i < |unsorted| ==> WellFormed(unsorted[i].value)
    ensures var ms := SortMembers(unsorted);
            Read("{" + Members(ms) + "}" + rest) == Parse(Object(NormalMembers(ms)), rest)
    decreases SizeMembers(unsorted), 1
  {
    var ms := SortMembers(unsorted);
    SortedWellFormed(unsorted);
    if ms == [] {
      ReadEmpties(rest);
    } else {
      MembersStart(ms);
      ReadMembersBack(ms, rest);
      ReadBraced(Members(ms) + "}" + rest, NormalMembers(ms), rest);
      Regroup4("{", Members(ms), "}", rest);
      Regroup3(Members(ms), "}", rest);
    }
  }

  lemma SortedWellFormed(ms: seq<Member>)
    requires forall i :: 0 <= i < |ms| ==> WellFormed(ms[i].value)
    ensures forall i :: 0 <= i < |SortMembers(ms)| ==> WellFormed(SortMembers(ms)[i].value)
  {
    var sorted := SortMembers(ms);
    forall i | 0 <= i < |sorted| ensures WellFormed(sorted[i].value) {
      assert sorted[i] in multiset(sorted);
      assert sorted[i] in ms;
    }
  }

  lemma ReadLastItem(text: string, v: Value, rest: string)
    requires Read(text + ("]" + rest)) == Parse(v, "]" + rest)
    ensures ReadItems(text + ("]" + rest)) == Parse([v], rest)
  {
    assert ("]" + rest)[1..] == rest;
  }

  lemma ReadNextItem(text: string, v: Value, tail: string, vs: seq<Value>, rest: string)
    requires Read(text + ("," + tail)) == Parse(v, "," + tail)
    requires ReadItems(tail) == Parse(vs, rest)
    ensures ReadItems(text + ("," + tail)) == Parse([v] + vs, rest)
  {
    assert ("," + tail)[1..] == tail;
  }

  lemma {:induction false} ReadItemsBack(items: seq<Value>, rest: string)
    requires items != [] && forall i :: 0 <= i < |items| ==> WellFormed(items[i])
    ensures ReadItems(Elements(items) + "]" + rest) == Parse(NormalAll(items), rest)
    decreases SizeAll(items), 0
  {
    var text := CanonicalJson(items[0]);
    if |items| == 1 {
      ReadBack(items[0], "]" + rest);
      ReadLastItem(text, Normal(items[0]), rest);
      Regroup3(text, "]", rest);
      assert NormalAll(items) == [Normal(items[0])];
    } else {
      var tail := Elements(items[1..]) + "]" + rest;
      ReadBack(items[0], "," + tail);
      ReadItemsBack(items[1..], rest);
      ReadNextItem(text, Normal(items[0]), tail, NormalAll(items[1..]), rest);
      Regroup5(text, ",", Elements(items[1..]), "]", rest);
    }
  }

  lemma ReadMemberParts(key: string, text: string, v: Value, rest: string)
    requires Read(text + rest) == Parse(v, rest)
    ensures ReadMember(MemberText(key, text) + rest) == Parse(Member(key, v), rest)
  {
    var afterKey := ":" + (text + rest);
    ReadStringBack(key, afterKey);
    assert afterKey[1..] == text + rest;
    Unquoted(key, ":" + text + rest);
    Regroup3(":", text, rest);
    Regroup4(Quote(key), ":", text, rest);
    Regroup3(Quote(key), ":", text);
  }

  lemma ReadLastMember(text: string, m: Member, rest: string)
    requires ReadMember(text + ("}" + rest)) == Parse(m, "}" + rest)
    ensures ReadMembers(text + ("}" + rest)) == Parse([m], rest)
  {
    assert ("}" + rest)[1..] == rest;
  }

  lemma ReadNextMember(text: string, m: Member, tail: string, ms: seq<Member>, rest: string)
    requires ReadMember(text + ("," + tail)) == Parse(m, "," + tail)
    requires ReadMembers(tail) == Parse(ms, rest)
    ensures ReadMembers(text + ("," + tail)) == Parse([m] + ms, rest)
  {
    assert ("," + tail)[1..] == tail;
  }

  lemma {:induction false} ReadMembersBack(ms: seq<Member>, rest: string)
    requires ms != [] && forall i :: 0 <= i < |ms| ==> WellFormed(ms[i].value)
    ensures ReadMembers(Members(ms) + "}" + rest) == Parse(NormalMembers(ms), rest)
    decreases SizeMembers(ms), 0
  {
    var value := CanonicalJson(ms[0].value);
    var text, first := MemberText(ms[0].key, value), Member(ms[0].key, Normal(ms[0].value));
    if |ms| == 1 {
      ReadBack(ms[0].value, "}" + rest);
      ReadMemberParts(ms[0].key, value, first.value, "}" + rest);
      ReadLastMember(text, first, rest);
      Regroup3(text, "}", rest);
      assert NormalMembers(ms) == [first];
    } else {
      var tail := Members(ms[1..]) + "}" + rest;
      ReadBack(ms[0].value, "," + tail);
      ReadMemberParts(ms[0].key, value, first.value, "," + tail);
      ReadMembersBack(ms[1..], rest);
      ReadNextMember(text, first, tail, NormalMembers(ms[1..]), rest);
      Regroup5(text, ",", Members(ms[1..]), "}", rest);
    }
  }

  // ---------------------------------------------------------------- sorting decides by key set

  lemma {:induction false} InsertAscending(m: Member, sorted: seq<Member>)
    requires Ascending(sorted) && forall i :: 0 <= i < |sorted| ==> sorted[i].key != m.key
    ensures Ascending(InsertMember(m, sorted))
  {
    if sorted != [] {
      var r := InsertMember(m, sorted);
      if KeyBefore(m.key, sorted[0].key) {
        forall j | 1 <= j < |sorted| ensures KeyBefore(m.key, sorted[j].key) {
          KeyOrderTransitive(m.key, sorted[0].key, sorted[j].key);
        }
      } else {
        KeyOrderTotal(m.key, sorted[0].key);
        InsertAscending(m, sorted[1..]);
        var inner := InsertMember(m, sorted[1..]);
        forall j | 0 <= j < |inner| ensures KeyBefore(sorted[0].key, inner[j].key) {
          assert inner[j] in multiset(inner);
          assert inner[j] == m || inner[j] in sorted[1..];
        }
      }
    }
  }

  lemma {:induction false} SortAscending(ms: seq<Member>)
    requires forall i, j :: 0 <= i < j < |ms| ==> ms[i].key != ms[j].key
    ensures Ascending(SortMembers(ms))
  {
    if ms != [] {
      SortAscending(ms[1..]);
      var sorted := SortMembers(ms[1..]);
      forall i | 0 <= i < |sorted| ensures sorted[i].key != ms[0].key {
        assert sorted[i] in multiset(sorted);
        assert sorted[i] in ms[1..];
      }
      InsertAscending(ms[0], sorted);
    }
  }

  /** Members in key order are determined by which members there are. */
  lemma {:induction false} AscendingUnique(xs: seq<Member>, ys: seq<Member>)
    requires Ascending(xs) && Ascending(ys)
    requires forall m :: m in xs <==> m in ys
    ensures xs == ys
  {
    assert ys == [] || ys[0] in ys;
    if xs != [] {
      assert xs[0] in ys;
      assert ys != [] && ys[0] in xs;
      FirstIsLeast(xs, ys[0]);
      FirstIsLeast(ys, xs[0]);
      if xs[0] != ys[0] { KeyOrderAsymmetric(xs[0].key, ys[0].key); }
      forall m ensures m in xs[1..] <==> m in ys[1..] {
        TailMembers(xs, m);
        TailMembers(ys, m);
      }
      AscendingUnique(xs[1..], ys[1..]);
    }
  }

  lemma FirstIsLeast(xs: seq<Member>, m: Member)
    requires Ascending(xs) && m in xs
    ensures m == xs[0] || KeyBefore(xs[0].key, m.key)
  {
  }

  lemma TailMembers(xs: seq<Member>, m: Member)
    requires Ascending(xs) && xs != []
    ensures m in xs[1..] <==> m in xs && m != xs[0]
  {
    if m in xs[1..] {
      KeyOrderAsymmetric(xs[0].key, m.key);
    }
  }

  // ---------------------------------------------------------------- canonical and injective

  lemma NormalAllAt(items: seq<Value>, i: nat)
    requires i < |items|
    ensures NormalAll(items)[i] == Normal(items[i])
  {
    if i > 0 { NormalAllAt(items[1..], i - 1); }
  }

  lemma NormalMembersAt(ms: seq<Member>, i: nat)
    requires i < |ms|
    ensures NormalMembers(ms)[i] == Member(ms[i].key, Normal(ms[i].value))
  {
    if i > 0 { NormalMembersAt(ms[1..], i - 1); }
  }

  lemma SizeAt(items: seq<Value>, i: nat)
    requires i < |items|
    ensures Size(items[i]) < SizeAll(items)
  {
    if i > 0 { SizeAt(items[1..], i - 1); }
  }

  lemma SizeMemberAt(ms: seq<Member>, i: nat)
    requires i < |ms|
    ensures Size(ms[i].value) < SizeMembers(ms)
  {
    if i > 0 { SizeMemberAt(ms[1..], i - 1); }
  }

  /** Sorting keeps exactly the members. */
  lemma SortedIndex(ms: seq<Member>, i: nat) returns (j: nat)
    requires i < |ms|
    ensures j < |SortMembers(ms)| && SortMembers(ms)[j] == ms[i]
  {
    assert ms[i] in multiset(SortMembers(ms));
    j :| j < |SortMembers(ms)| && SortMembers(ms)[j] == ms[i];
  }

  lemma UnsortedIndex(ms: seq<Member>, j: nat) returns (i: nat)
    requires j < |SortMembers(ms)|
    ensures i < |ms| && SortMembers(ms)[j] == ms[i]
  {
    assert SortMembers(ms)[j] in multiset(ms);
    i :| i < |ms| && SortMembers(ms)[j] == ms[i];
  }

  /** Values that are the same up to key order have one normal form. */
  lemma {:induction false} SameNormal(a: Value, b: Value)
    requires WellFormed(a) && WellFormed(b) && Same(a, b)
    ensures Normal(a) == Normal(b)
    decreases Size(a)
  {
    match a {
      case Array(xs) =>
        forall i | 0 <= i < |xs| ensures NormalAll(xs)[i] == NormalAll(b.items)[i] {
          SizeAt(xs, i);
          SameNormal(xs[i], b.items[i]);
          NormalAllAt(xs, i);
          NormalAllAt(b.items, i);
        }
      case Object(ms) => SameNormalMembers(ms, b.members);
      case _ =>
    }
  }

  lemma {:induction false} SameNormalMembers(ms: seq<Member>, ns: seq<Member>)
    requires WellFormed(Object(ms)) && WellFormed(Object(ns)) && Same(Object(ms), Object(ns))
    ensures NormalMembers(SortMembers(ms)) == NormalMembers(SortMembers(ns))
    decreases SizeMembers(ms)
  {
    var left, right := NormalMembers(SortMembers(ms)), NormalMembers(SortMembers(ns));
    NormalMembersAscending(ms);
    NormalMembersAscending(ns);
    forall m ensures m in left <==> m in right {
      if m in left {
        var i := NormalMemberSource(ms, m);
        assert ms[i].key in Keys(ns);
        var j :| 0 <= j < |ns| && ns[j].key == ms[i].key;
        SizeMemberAt(ms, i);
        SameNormal(ms[i].value, ns[j].value);
        NormalMemberPresent(ns, j);
      }
      if m in right {
        var j := NormalMemberSource(ns, m);
        assert ns[j].key in Keys(ms);
        var i :| 0 <= i < |ms| && ms[i].key == ns[j].key;
        SizeMemberAt(ms, i);
        SameNormal(ms[i].value, ns[j].value);
        NormalMemberPresent(ms, i);
      }
    }
    AscendingUnique(left, right);
  }

  lemma NormalMembersAscending(ms: seq<Member>)
    requires forall i, j :: 0 <= i < j < |ms| ==> ms[i].key != ms[j].key
    ensures Ascending(NormalMembers(SortMembers(ms)))
  {
    SortAscending(ms);
    var sorted := SortMembers(ms);
    forall i | 0 <= i < |sorted| ensures NormalMembers(sorted)[i].key == sorted[i].key {
      NormalMembersAt(sorted, i);
    }
  }

  lemma NormalMemberSource(ms: seq<Member>, m: Member) returns (i: nat)
    requires m in NormalMembers(SortMembers(ms))
    ensures i < |ms| && m == Member(ms[i].key, Normal(ms[i].value))
  {
    var j: nat :| j < |SortMembers(ms)| && NormalMembers(SortMembers(ms))[j] == m;
    NormalMembersAt(SortMembers(ms), j);
    i := UnsortedIndex(ms, j);
  }

  lemma NormalMemberPresent(ms: seq<Member>, i: nat)
    requires i < |ms|
    ensures Member(ms[i].key, Normal(ms[i].value)) in NormalMembers(SortMembers(ms))
  {
    var j := SortedIndex(ms, i);
    NormalMembersAt(SortMembers(ms), j);
  }

  /** Values with one normal form are the same up to key order. */
  lemma {:induction false} NormalSame(a: Value, b: Value)
    requires WellFormed(a) && WellFormed(b) && Normal(a) == Normal(b)
    ensures Same(a, b)
    decreases Size(a)
  {
    match a {
      case Array(xs) =>
        forall i | 0 <= i < |xs| ensures Same(xs[i], b.items[i]) {
          SizeAt(xs, i);
          NormalAllAt(xs, i);
          NormalAllAt(b.items, i);
          NormalSame(xs[i], b.items[i]);
        }
      case Object(ms) => NormalSameMembers(ms, b.members);
      case _ =>
    }
  }

  /** Equal normal forms hold the same keys. */
  lemma NormalSameKeys(ms: seq<Member>, ns: seq<Member>)
    requires WellFormed(Object(ms)) && WellFormed(Object(ns))
    requires NormalMembers(SortMembers(ms)) == NormalMembers(SortMembers(ns))
    ensures forall i :: 0 <= i < |ms| ==> ms[i].key in Keys(ns)
  {
    forall i | 0 <= i < |ms| ensures ms[i].key in Keys(ns) {
      NormalMemberPresent(ms, i);
      var j := NormalMemberSource(ns, Member(ms[i].key, Normal(ms[i].value)));
    }
  }

  lemma {:induction false} NormalSameMembers(ms: seq<Member>, ns: seq<Member>)
    requires WellFormed(Object(ms)) && WellFormed(Object(ns))
    requires NormalMembers(SortMembers(ms)) == NormalMembers(SortMembers(ns))
    ensures Same(Object(ms), Object(ns))
    decreases SizeMembers(ms), 1
  {
    NormalSameKeys(ms, ns);
    NormalSameKeys(ns, ms);
    forall i, j | 0 <= i < |ms| && 0 <= j < |ns| && ms[i].key == ns[j].key ensures Same(ms[i].value, ns[j].value) {
      NormalSameValue(ms, ns, i, j);
    }
  }

  lemma {:induction false} NormalSameValue(ms: seq<Member>, ns: seq<Member>, i: nat, j: nat)
    requires WellFormed(Object(ms)) && WellFormed(Object(ns))
    requires NormalMembers(SortMembers(ms)) == NormalMembers(SortMembers(ns))
    requires i < |ms| && j < |ns| && ms[i].key == ns[j].key
    ensures Same(ms[i].value, ns[j].value)
    decreases SizeMembers(ms), 0
  {
    NormalMemberPresent(ms, i);
    var k := NormalMemberSource(ns, Member(ms[i].key, Normal(ms[i].value)));
    KeyOnce(ns, k, j);
    SizeMemberAt(ms, i);
    NormalSame(ms[i].value, ns[j].value);
  }

  lemma KeyOnce(ns: seq<Member>, k: nat, j: nat)
    requires WellFormed(Object(ns)) && k < |ns| && j < |ns| && ns[k].key == ns[j].key
    ensures k == j
  {
  }

  /** Canonical text depends on nothing but the normal form. */
  lemma {:induction false} CanonicalOfNormal(v: Value)
    requires WellFormed(v)
    ensures CanonicalJson(Normal(v)) == CanonicalJson(v)
    decreases Size(v), 1
  {
    match v {
      case Array(items) => ElementsOfNormal(items);
      case Object(ms) =>
        var sorted := SortMembers(ms);
        NormalMembersAscending(ms);
        SortFixed(NormalMembers(sorted));
        SortedWellFormed(ms);
        MembersOfNormal(sorted);
      case _ =>
    }
  }

  lemma {:induction false} ElementsOfNormal(items: seq<Value>)
    requires forall i :: 0 <= i < |items| ==> WellFormed(items[i])
    ensures Elements(NormalAll(items)) == Elements(items)
    decreases SizeAll(items), 0
  {
    if items != [] {
      CanonicalOfNormal(items[0]);
      ElementsOfNormal(items[1..]);
      assert NormalAll(items)[1..] == NormalAll(items[1..]);
    }
  }

  lemma {:induction false} MembersOfNormal(ms: seq<Member>)
    requires forall i :: 0 <= i < |ms| ==> WellFormed(ms[i].value)
    ensures Members(NormalMembers(ms)) == Members(ms)
    decreases SizeMembers(ms), 0
  {
    if ms != [] {
      CanonicalOfNormal(ms[0].value);
      MembersOfNormal(ms[1..]);
      assert NormalMembers(ms)[1..] == NormalMembers(ms[1..]);
    }
  }

  lemma {:induction false} SortFixed(ms: seq<Member>)
    requires Ascending(ms)
    ensures SortMembers(ms) == ms
  {
    if ms != [] {
      SortFixed(ms[1..]);
      assert |ms| > 1 ==> KeyBefore(ms[0].key, ms[1].key);
    }
  }

  /** Two values have one canonical text exactly when they are the same JSON up to the order of
      object keys at every depth. */
  lemma CanonicalIffSame(a: Value, b: Value)
    requires WellFormed(a) && WellFormed(b)
    ensures CanonicalJson(a) == CanonicalJson(b) <==> Same(a, b)
  {
    if CanonicalJson(a) == CanonicalJson(b) {
      ReadBack(a, "");
      ReadBack(b, "");
      assert CanonicalJson(a) + "" == CanonicalJson(b) + "";
      NormalSame(a, b);
    }
    if Same(a, b) {
      SameNormal(a, b);
      CanonicalOfNormal(a);
      CanonicalOfNormal(b);
    }
  }
}
