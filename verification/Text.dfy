// Text shared by the components: the optional value, white space and trimming as
// ECMAScript defines them, joining, and decimal numerals.
module Text {

  datatype Option<+T> = None | Some(value: T)

  // ---------------------------------------------------------------- white space

  /** The characters that String.prototype.trim removes (WhiteSpace and LineTerminator of ECMA-262). */
  predicate IsSpace(c: char) {
    || c in "\t\n\r "
    || c == '\U{000B}' || c == '\U{000C}' || c == '\U{00A0}' || c == '\U{1680}'
    || '\U{2000}' <= c <= '\U{200A}'
    || c == '\U{2028}' || c == '\U{2029}' || c == '\U{202F}' || c == '\U{205F}'
    || c == '\U{3000}' || c == '\U{FEFF}'
  }

  function TrimStart(s: string): string {
    if s != "" && IsSpace(s[0]) then TrimStart(s[1..]) else s
  }

  function TrimEnd(s: string): string {
    if s != "" && IsSpace(s[|s| - 1]) then TrimEnd(s[..|s| - 1]) else s
  }

  function Trim(s: string): string {
    TrimStart(TrimEnd(s))
  }

  /** Text with no white space at either end. */
  predicate Trimmed(s: string) {
    s == "" || (!IsSpace(s[0]) && !IsSpace(s[|s| - 1]))
  }

  /** Text made of white space only. */
  predicate Blank(s: string) {
    forall i :: 0 <= i < |s| ==> IsSpace(s[i])
  }

  lemma {:induction false} TrimEndPadded(s: string, pad: string)
    requires Trimmed(s) && Blank(pad)
    ensures TrimEnd(s + pad) == s
  {
    if pad == "" {
      assert s + pad == s;
    } else {
      var front := pad[..|pad| - 1];
      assert (s + pad)[..|s + pad| - 1] == s + front;
      TrimEndPadded(s, front);
    }
  }

  lemma {:induction false} TrimStartPadded(pad: string, s: string)
    requires Trimmed(s) && Blank(pad)
    ensures TrimStart(pad + s) == s
  {
    if pad == "" {
      assert pad + s == s;
    } else {
      assert (pad + s)[1..] == pad[1..] + s;
      TrimStartPadded(pad[1..], s);
    }
  }

  /** Trimming removes exactly the padding around trimmed text. */
  lemma TrimPadded(left: string, s: string, right: string)
    requires Trimmed(s) && Blank(left) && Blank(right)
    ensures Trim(left + s + right) == s
  {
    if s == "" {
      assert left + s + right == "" + (left + right);
      TrimEndPadded("", left + right);
    } else {
      var whole := left + s;
      assert whole[|whole| - 1] == s[|s| - 1];
      TrimEndOfInner(whole, right);
      TrimStartPadded(left, s);
    }
  }

  lemma {:induction false} TrimEndOfInner(s: string, pad: string)
    requires s != "" && !IsSpace(s[|s| - 1]) && Blank(pad)
    ensures TrimEnd(s + pad) == s
  {
    if pad == "" {
      assert s + pad == s;
    } else {
      var front := pad[..|pad| - 1];
      assert (s + pad)[..|s + pad| - 1] == s + front;
      TrimEndOfInner(s, front);
    }
  }

  lemma {:induction false} TrimEndEnds(s: string)
    ensures TrimEnd(s) == "" || !IsSpace(TrimEnd(s)[|TrimEnd(s)| - 1])
  {
    if s != "" && IsSpace(s[|s| - 1]) { TrimEndEnds(s[..|s| - 1]); }
  }

  lemma {:induction false} TrimStartIsTail(s: string)
    ensures TrimStart(s) == "" || (!IsSpace(TrimStart(s)[0]) && TrimStart(s)[|TrimStart(s)| - 1] == s[|s| - 1])
  {
    if s != "" && IsSpace(s[0]) { TrimStartIsTail(s[1..]); }
  }

  /** Trimmed text is what trimming leaves. */
  lemma TrimTrimmed(s: string)
    ensures Trimmed(Trim(s))
  {
    TrimEndEnds(s);
    TrimStartIsTail(TrimEnd(s));
  }

  /** The words of a text, split at runs of white space, given the word being read. */
  function Words(s: string, word: string): seq<string> {
    if s == "" then (if word == "" then [] else [word])
    else if !IsSpace(s[0]) then Words(s[1..], word + [s[0]])
    else (if word == "" then [] else [word]) + Words(s[1..], "")
  }

  lemma {:induction false} WordsGrow(s: string, word: string)
    requires forall i :: 0 <= i < |s| ==> !IsSpace(s[i])
    ensures Words(s, word) == if word + s == "" then [] else [word + s]
  {
    if s == "" {
      assert word + s == word;
    } else {
      WordsGrow(s[1..], word + [s[0]]);
      assert word + [s[0]] + s[1..] == word + s;
    }
  }

  lemma {:induction false} WordsSplit(a: string, space: char, b: string, word: string)
    requires IsSpace(space)
    ensures Words(a + ([space] + b), word) == Words(a, word) + Words(b, "")
  {
    var all := a + ([space] + b);
    if a == "" {
      assert all == [space] + b && all[1..] == b;
    } else {
      assert all[1..] == a[1..] + ([space] + b);
      WordsSplit(a[1..], space, b, if IsSpace(a[0]) then "" else word + [a[0]]);
    }
  }

  /** A text without white space is one word, unless it is empty, and white space only parts the words on either side. */
  lemma WordsAre(a: string, space: char, b: string)
    requires IsSpace(space)
    ensures a == "" ==> Words(a, "") == []
    ensures a != "" && (forall i :: 0 <= i < |a| ==> !IsSpace(a[i])) ==> Words(a, "") == [a]
    ensures Words(a + ([space] + b), "") == Words(a, "") + Words(b, "")
  {
    if forall i :: 0 <= i < |a| ==> !IsSpace(a[i]) {
      WordsGrow(a, "");
      assert "" + a == a;
    }
    WordsSplit(a, space, b, "");
  }

  /** A capital letter, and the small one in the same place of the alphabet. */
  predicate CaseOf(upper: char, lower: char) {
    'A' <= upper <= 'Z' && 'a' <= lower <= 'z' && lower as int - 'a' as int == upper as int - 'A' as int
  }

  // ---------------------------------------------------------------- searching

  /** Where a character first occurs; the length if it does not. */
  function FirstIndex(s: string, c: char): (i: nat)
    ensures i <= |s|
  {
    if s == "" || s[0] == c then 0 else 1 + FirstIndex(s[1..], c)
  }

  lemma {:induction false} FirstIndexAfter(p: string, c: char, rest: string)
    requires c !in p
    ensures FirstIndex(p + ([c] + rest), c) == |p|
  {
    if p == "" {
      assert p + ([c] + rest) == [c] + rest;
    } else {
      assert p[0] in p;
      assert (p + ([c] + rest))[1..] == p[1..] + ([c] + rest);
      FirstIndexAfter(p[1..], c, rest);
    }
  }

  // ---------------------------------------------------------------- joining

  // Concatenation regrouped; the seams of a text are named rather than searched for.
  lemma Regroup3(a: string, b: string, c: string)
    ensures a + b + c == a + (b + c)
  {}

  lemma Regroup4(a: string, b: string, c: string, d: string)
    ensures a + b + c + d == a + (b + (c + d))
  {}

  lemma Regroup5(a: string, b: string, c: string, d: string, e: string)
    ensures a + b + c + d + e == a + (b + (c + d + e))
  {}

  lemma Nest5(a: string, b: string, c: string, d: string, e: string)
    ensures a + b + c + d + e == a + (b + (c + (d + e)))
  {
    Regroup5(a, b, c, d, e);
    Regroup3(c, d, e);
  }

  /** An element moved from the front of what is left to the end of what is done. */
  lemma MoveOver<T>(done: seq<T>, x: T, left: seq<T>)
    ensures done + ([x] + left) == (done + [x]) + left
  {}

  /** One more element of what is being worked through. */
  lemma TakeOne<T>(done: seq<T>, s: seq<T>, i: nat)
    requires i < |s|
    ensures done + s[..i + 1] == (done + s[..i]) + [s[i]]
  {}

  function Join(parts: seq<string>, sep: string): string {
    if |parts| == 0 then ""
    else if |parts| == 1 then parts[0]
    else parts[0] + sep + Join(parts[1..], sep)
  }

  /** Joining one part more puts the separator before it, unless it is the first. */
  lemma {:induction false} JoinNext(parts: seq<string>, part: string, sep: string)
    ensures Join(parts + [part], sep) == if parts == [] then part else Join(parts, sep) + (sep + part)
  {
    if |parts| > 1 {
      assert (parts + [part])[1..] == parts[1..] + [part];
      JoinNext(parts[1..], part, sep);
      JoinedParts(parts[0] + sep, Join(parts[1..], sep), sep + part);
    } else if |parts| == 1 {
      assert (parts + [part])[1..] == [part];
      JoinedParts(parts[0], sep, part);
    }
  }

  lemma JoinedParts(a: string, b: string, c: string)
    ensures (a + b) + c == a + (b + c)
  {
  }

  /** String.prototype.repeat for one character. */
  function Repeat(c: char, n: nat): (s: string)
    ensures |s| == n && forall i :: 0 <= i < n ==> s[i] == c
  {
    if n == 0 then "" else [c] + Repeat(c, n - 1)
  }

  // ---------------------------------------------------------------- decimal numerals

  predicate IsDigit(c: char) { '0' <= c <= '9' }

  function DigitChar(d: nat): (c: char)
    requires d < 10
    ensures IsDigit(c)
  {
    "0123456789"[d]
  }

  function DigitValue(c: char): nat
    requires IsDigit(c)
  {
    (c as int) - ('0' as int)
  }

  function Digits(n: nat): (s: string)
    ensures s != "" && forall c :: c in s ==> IsDigit(c)
  {
    if n < 10 then [DigitChar(n)] else Digits(n / 10) + [DigitChar(n % 10)]
  }

  /** The number written by String(n) and by the decimal form of an integer. */
  function Decimal(n: int): string {
    if n < 0 then "-" + Digits(-n) else Digits(n)
  }

  function ReadDigits(s: string): nat
    requires forall c :: c in s ==> IsDigit(c)
  {
    if s == "" then 0 else 10 * ReadDigits(s[..|s| - 1]) + DigitValue(s[|s| - 1])
  }

  lemma {:induction false} ReadDigitsBack(n: nat)
    ensures ReadDigits(Digits(n)) == n
  {
    if n < 10 {
      assert Digits(n)[..0] == "";
    } else {
      ReadDigitsBack(n / 10);
      var s := Digits(n);
      assert s[..|s| - 1] == Digits(n / 10);
      assert s[|s| - 1] == DigitChar(n % 10);
    }
  }

  lemma DigitsInjective(m: nat, n: nat)
    requires Digits(m) == Digits(n)
    ensures m == n
  {
    ReadDigitsBack(m);
    ReadDigitsBack(n);
  }

  /** Two integers are written alike only when they are equal. */
  lemma DecimalInjective(m: int, n: int)
    requires Decimal(m) == Decimal(n)
    ensures m == n
  {
    var left, right := Digits(if m < 0 then -m else m), Digits(if n < 0 then -n else n);
    assert left[0] in left && right[0] in right;
    assert left == right by {
      assert m < 0 ==> Decimal(m)[1..] == left;
      assert n < 0 ==> Decimal(n)[1..] == right;
    }
    DigitsInjective(if m < 0 then -m else m, if n < 0 then -n else n);
  }
}
