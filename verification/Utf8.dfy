/** Text on the wire: UTF-8 as RFC 3629 lays it down, and where its CRLFs are. */
module Utf8 {
  import opened Common
  import opened Framing

  function EncodeChar(c: char): (bytes: Bytes)
    ensures 1 <= |bytes| <= 4
  {
    var n := c as int;
    if n < 0x80 then [n]
    else if n < 0x800 then [0xC0 + n / 64, 0x80 + n % 64]
    else if n < 0x1_0000 then [0xE0 + n / 4096, 0x80 + n / 64 % 64, 0x80 + n % 64]
    else [0xF0 + n / 262144, 0x80 + n / 4096 % 64, 0x80 + n / 64 % 64, 0x80 + n % 64]
  }

  /** text.encode() */
  function Encode(text: string): Bytes {
    if text == "" then [] else EncodeChar(text[0]) + Encode(text[1..])
  }

  predicate IsTail(b: Byte) {
    0x80 <= b < 0xC0
  }

  function CharAt(code: nat, least: nat): Option<char> {
    if least <= code && (code < 0xD800 || 0xE000 <= code < 0x11_0000) then Some(code as char) else None
  }

  /** The character encoded at the start of the bytes, shortest forms only, and its length. */
  function DecodeChar(bytes: Bytes): Option<(char, nat)>
    requires bytes != []
  {
    var a: int, n := bytes[0], |bytes|;
    if a < 0x80 then Some((a as char, 1))
    else if 0xC0 <= a < 0xE0 && n >= 2 && IsTail(bytes[1]) then
      Found(CharAt((a - 0xC0) * 64 + Six(bytes[1]), 0x80), 2)
    else if 0xE0 <= a < 0xF0 && n >= 3 && IsTail(bytes[1]) && IsTail(bytes[2]) then
      Found(CharAt((a - 0xE0) * 4096 + Six(bytes[1]) * 64 + Six(bytes[2]), 0x800), 3)
    else if 0xF0 <= a < 0xF8 && n >= 4 && IsTail(bytes[1]) && IsTail(bytes[2]) && IsTail(bytes[3]) then
      Found(CharAt((a - 0xF0) * 262144 + Six(bytes[1]) * 4096 + Six(bytes[2]) * 64 + Six(bytes[3]), 0x1_0000), 4)
    else None
  }

  /** The six bits a continuation byte carries. */
  function Six(b: Byte): nat
    requires IsTail(b)
  {
    var n: int := b;
    n - 0x80
  }

  function Found(c: Option<char>, length: nat): Option<(char, nat)> {
    match c
    case None => None
    case Some(x) => Some((x, length))
  }

  /** line.decode("utf-8"); None where it raises. */
  function Decode(bytes: Bytes): Option<string>
    decreases |bytes|
  {
    if bytes == [] then Some("")
    else
      match DecodeChar(bytes)
      case None => None
      case Some((c, length)) =>
        if length == 0 || length > |bytes| then None
        else
          match Decode(bytes[length..])
          case None => None
          case Some(rest) => Some([c] + rest)
  }

  /** Six bits at a time, the number comes together again. */
  lemma Recombined(n: nat)
    ensures n / 64 * 64 + n % 64 == n
    ensures n / 4096 * 4096 + n / 64 % 64 * 64 + n % 64 == n
    ensures n / 262144 * 262144 + n / 4096 % 64 * 4096 + n / 64 % 64 * 64 + n % 64 == n
  {
    assert n / 64 / 64 == n / 4096 && n / 4096 / 64 == n / 262144;
  }

  lemma DecodeOwn(c: char)
    ensures DecodeChar(EncodeChar(c)) == Some((c, |EncodeChar(c)|))
  {
    var n := c as int;
    Recombined(n);
    if n < 0x800 {
    } else if n < 0x1_0000 {
      DecodeThree(c);
    } else {
      DecodeFour(c);
    }
  }

  lemma DecodeThree(c: char)
    requires 0x800 <= c as int < 0x1_0000
    ensures DecodeChar(EncodeChar(c)) == Some((c, 3))
  {
    var n := c as int;
    Recombined(n);
    var bytes := EncodeChar(c);
    assert 0xE0 <= bytes[0] < 0xF0 && IsTail(bytes[1]) && IsTail(bytes[2]);
    assert Six(bytes[1]) == n / 64 % 64 && Six(bytes[2]) == n % 64;
  }

  lemma DecodeFour(c: char)
    requires 0x1_0000 <= c as int
    ensures DecodeChar(EncodeChar(c)) == Some((c, 4))
  {
    var n := c as int;
    Recombined(n);
    var bytes := EncodeChar(c);
    assert 0xF0 <= bytes[0] < 0xF8 && IsTail(bytes[1]) && IsTail(bytes[2]) && IsTail(bytes[3]);
    assert Six(bytes[1]) == n / 4096 % 64 && Six(bytes[2]) == n / 64 % 64 && Six(bytes[3]) == n % 64;
  }

  /** What follows the character does not matter. */
  lemma DecodeOne(c: char, rest: Bytes)
    ensures DecodeChar(EncodeChar(c) + rest) == Some((c, |EncodeChar(c)|))
    ensures (EncodeChar(c) + rest)[|EncodeChar(c)|..] == rest
  {
    DecodeOwn(c);
    DecodePrefix(EncodeChar(c), rest);
  }

  lemma DecodePrefix(bytes: Bytes, rest: Bytes)
    requires bytes != [] && DecodeChar(bytes).Some?
    ensures DecodeChar(bytes + rest) == DecodeChar(bytes)
  {
    assert forall i :: 0 <= i < |bytes| ==> (bytes + rest)[i] == bytes[i];
  }

  /** Every text survives the wire. */
  lemma {:induction false} DecodeInverts(text: string)
    ensures Decode(Encode(text)) == Some(text)
    decreases |text|
  {
    if text != "" {
      DecodeOne(text[0], Encode(text[1..]));
      DecodeInverts(text[1..]);
      assert text == [text[0]] + text[1..];
    }
  }

  lemma {:induction false} EncodeConcat(a: string, b: string)
    ensures Encode(a + b) == Encode(a) + Encode(b)
    decreases |a|
  {
    if a == "" {
      assert a + b == b;
    } else {
      assert (a + b)[1..] == a[1..] + b;
      EncodeConcat(a[1..], b);
    }
  }

  lemma EncodeEmpty(text: string)
    ensures Encode(text) == [] <==> text == ""
  {
  }

  // ---- Line ends ----

  predicate BreaksAt(text: string, i: int) {
    0 <= i && i + 1 < |text| && text[i] == '\r' && text[i + 1] == '\n'
  }

  /** The text holds a carriage return followed by a newline. */
  predicate HasBreak(text: string) {
    exists i :: 0 <= i < |text| && BreaksAt(text, i)
  }

  lemma HasBreakCons(text: string)
    requires text != ""
    ensures HasBreak(text) <==> BreaksAt(text, 0) || HasBreak(text[1..])
  {
    assert forall i :: 1 <= i < |text| ==> BreaksAt(text, i) == BreaksAt(text[1..], i - 1);
    if HasBreak(text[1..]) {
      var i :| 0 <= i < |text[1..]| && BreaksAt(text[1..], i);
      assert BreaksAt(text, i + 1);
    }
    if HasBreak(text) {
      var i :| 0 <= i < |text| && BreaksAt(text, i);
      assert i > 0 ==> BreaksAt(text[1..], i - 1);
    }
  }

  /** A CRLF in two pieces put together is in one of them or straddles. */
  lemma CrlfInConcat(a: Bytes, b: Bytes)
    ensures HasCrlf(a + b) <==>
              HasCrlf(a) || HasCrlf(b) || (a != [] && b != [] && a[|a| - 1] == CR && b[0] == LF)
  {
    var all := a + b;
    if i :| 0 <= i < |a| && CrlfAt(a, i) { assert CrlfAt(all, i); }
    if i :| 0 <= i < |b| && CrlfAt(b, i) { assert CrlfAt(all, i + |a|); }
    if a != [] && b != [] && a[|a| - 1] == CR && b[0] == LF { assert CrlfAt(all, |a| - 1); }
    if i :| 0 <= i < |all| && CrlfAt(all, i) {
      assert i + 1 < |a| ==> CrlfAt(a, i);
      assert i >= |a| ==> CrlfAt(b, i - |a|);
    }
  }

  lemma OneChar(c: char)
    ensures !HasCrlf(EncodeChar(c))
    ensures EncodeChar(c)[|EncodeChar(c)| - 1] == CR <==> c == '\r'
    ensures EncodeChar(c)[0] == LF <==> c == '\n'
  {
  }

  /** The wire has a CRLF exactly where the text has one. */
  lemma {:induction false} CrlfFromText(text: string)
    ensures HasCrlf(Encode(text)) <==> HasBreak(text)
    decreases |text|
  {
    if text != "" {
      var c, rest := text[0], text[1..];
      CrlfFromText(rest);
      HasBreakCons(text);
      OneChar(c);
      CrlfInConcat(EncodeChar(c), Encode(rest));
      if rest != "" {
        OneChar(rest[0]);
        assert Encode(rest)[0] == EncodeChar(rest[0])[0];
      }
    }
  }
}
