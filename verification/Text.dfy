/** Text helpers: prefixes, decimal numbers, and Python's notion of white space. */
module Text {
  import opened Common

  predicate StartsWith(text: string, prefix: string) {
    |prefix| <= |text| && text[..|prefix|] == prefix
  }

  lemma StartsWithConcat(prefix: string, rest: string)
    ensures StartsWith(prefix + rest, prefix) && (prefix + rest)[|prefix|..] == rest
  {
    assert (prefix + rest)[..|prefix|] == prefix;
  }

  // ---- Decimal numbers ----

  predicate IsDigit(c: char) {
    '0' <= c <= '9'
  }

  /** `\w` on the ASCII text tc prints. */
  predicate IsWordChar(c: char) {
    IsDigit(c) || 'a' <= c <= 'z' || 'A' <= c <= 'Z' || c == '_'
  }

  predicate AllDigits(text: string) {
    forall i :: 0 <= i < |text| ==> IsDigit(text[i])
  }

  function DigitChar(d: nat): (c: char)
    requires d < 10
    ensures IsDigit(c)
  {
    '0' + d as char
  }

  function DigitValue(c: char): (d: nat)
    requires IsDigit(c)
    ensures d < 10
  {
    (c - '0') as nat
  }

  /** str(n) */
  function Decimal(n: nat): (text: string)
    ensures text != "" && AllDigits(text)
  {
    if n < 10 then [DigitChar(n)] else Decimal(n / 10) + [DigitChar(n % 10)]
  }

  /** int(text) */
  function Number(text: string): nat
    requires AllDigits(text)
  {
    if text == "" then 0 else Number(text[..|text| - 1]) * 10 + DigitValue(text[|text| - 1])
  }

  lemma {:induction false} NumberOfDecimal(n: nat)
    ensures Number(Decimal(n)) == n
  {
    if n >= 10 {
      NumberOfDecimal(n / 10);
      assert Decimal(n)[..|Decimal(n)| - 1] == Decimal(n / 10);
    } else {
      assert Decimal(n)[..0] == "";
    }
  }

  lemma DecimalInjective(m: nat, n: nat)
    requires Decimal(m) == Decimal(n)
    ensures m == n
  {
    NumberOfDecimal(m);
    NumberOfDecimal(n);
  }

  /** The longest prefix of digits. */
  function LeadingDigits(text: string): (digits: string)
    ensures AllDigits(digits) && StartsWith(text, digits)
    decreases |text|
  {
    if text == "" || !IsDigit(text[0]) then "" else [text[0]] + LeadingDigits(text[1..])
  }

  lemma {:induction false} LeadingDigitsOf(digits: string, rest: string)
    requires AllDigits(digits) && (rest == "" || !IsDigit(rest[0]))
    ensures LeadingDigits(digits + rest) == digits
    decreases |digits|
  {
    if digits == "" {
      assert digits + rest == rest;
    } else {
      assert (digits + rest)[1..] == digits[1..] + rest;
      LeadingDigitsOf(digits[1..], rest);
    }
  }

  // ---- White space ----

  /** What str.strip removes. */
  predicate IsBlank(c: char) {
    || '\t' <= c <= '\r' || '\U{1C}' <= c <= ' ' || c == '\U{85}' || c == '\U{A0}' || c == '\U{1680}'
    || '\U{2000}' <= c <= '\U{200A}' || c == '\U{2028}' || c == '\U{2029}' || c == '\U{202F}'
    || c == '\U{205F}' || c == '\U{3000}'
  }

  function TrimLeft(text: string): string {
    if text == "" || !IsBlank(text[0]) then text else TrimLeft(text[1..])
  }

  function TrimRight(text: string): string {
    if text == "" || !IsBlank(text[|text| - 1]) then text else TrimRight(text[..|text| - 1])
  }

  /** str.strip() */
  function Strip(text: string): string {
    TrimRight(TrimLeft(text))
  }

  predicate Trimmed(text: string) {
    text == "" || (!IsBlank(text[0]) && !IsBlank(text[|text| - 1]))
  }

  lemma {:induction false} TrimLeftShape(text: string)
    ensures forall c :: c in TrimLeft(text) ==> c in text
    ensures TrimLeft(text) != "" ==> !IsBlank(TrimLeft(text)[0])
    decreases |text|
  {
    if text != "" && IsBlank(text[0]) { TrimLeftShape(text[1..]); }
  }

  lemma {:induction false} TrimRightShape(text: string)
    ensures forall c :: c in TrimRight(text) ==> c in text
    ensures TrimRight(text) != "" ==> TrimRight(text)[0] == text[0] && !IsBlank(TrimRight(text)[|TrimRight(text)| - 1])
    ensures text != "" && !IsBlank(text[0]) ==> TrimRight(text) != ""
    decreases |text|
  {
    if text != "" && IsBlank(text[|text| - 1]) { TrimRightShape(text[..|text| - 1]); }
  }

  /** Stripping drops blanks at the ends, and nothing from text that has none there. */
  lemma StripOnlyTrims(text: string)
    ensures Trimmed(Strip(text))
    ensures Trimmed(text) ==> Strip(text) == text
    ensures forall c :: c in Strip(text) ==> c in text
    ensures text != "" && !IsBlank(text[0]) ==> Strip(text) != "" && Strip(text)[0] == text[0]
  {
    TrimLeftShape(text);
    TrimRightShape(TrimLeft(text));
  }

  predicate Blank(text: string) {
    forall i :: 0 <= i < |text| ==> IsBlank(text[i])
  }

  lemma {:induction false} TrimRightOfConcat(a: string, b: string)
    ensures TrimRight(a + b) == if Blank(b) then TrimRight(a) else a + TrimRight(b)
    ensures Blank(b) <==> TrimRight(b) == ""
    decreases |b|
  {
    if b == "" {
      assert a + b == a;
    } else {
      var last := |b| - 1;
      TrimRightOfConcat(a, b[..last]);
      assert (a + b)[..|a + b| - 1] == a + b[..last];
      assert Blank(b) <==> Blank(b[..last]) && IsBlank(b[last]);
    }
  }

  // ---- Searching ----

  /** The first place c occurs. */
  function IndexOf(text: string, c: char): (at: Option<nat>)
    ensures at.Some? ==> at.value < |text| && text[at.value] == c && c !in text[..at.value]
    ensures at.None? ==> c !in text
    decreases |text|
  {
    if text == "" then None
    else if text[0] == c then Some(0)
    else
      match IndexOf(text[1..], c)
      case None => None
      case Some(i) =>
        assert text[..i + 1] == [text[0]] + text[1..][..i];
        Some(i + 1)
  }

  lemma {:induction false} IndexOfConcat(pre: string, c: char, rest: string)
    requires c !in pre
    ensures IndexOf(pre + [c] + rest, c) == Some(|pre|)
    decreases |pre|
  {
    if pre != "" {
      assert pre[0] != c;
      assert (pre + [c] + rest)[1..] == pre[1..] + [c] + rest;
      IndexOfConcat(pre[1..], c, rest);
    }
  }
}
