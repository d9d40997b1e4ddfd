/**
 The XML the two FIAS ends exchange: escaping as the server does it, and reading a
 document that is one empty-element tag, as XML 1.0 (sections 2.11, 3.1, 3.3.3, 4.1
 and 4.6) lays down.
 */
module Xml {
  import opened Common
  import opened Text

  // ---- Escaping ----

  /** text.replace(c, entity) for a single character. */
  function Replace(text: string, c: char, entity: string): string {
    if text == "" then "" else (if text[0] == c then entity else [text[0]]) + Replace(text[1..], c, entity)
  }

  /** _escape_xml: five passes, the ampersand's first. */
  function Escape(value: string): string {
    LaterPasses(Replace(value, '&', "&amp;"))
  }

  function LaterPasses(text: string): string {
    Replace(Replace(Replace(Replace(text, '<', "&lt;"), '>', "&gt;"), '\"', "&quot;"), '\'', "&apos;")
  }

  /** The reference: one character at a time. */
  function Entity(c: char): (text: string)
    ensures text != ""
  {
    match c
    case '&' => "&amp;"
    case '<' => "&lt;"
    case '>' => "&gt;"
    case '\"' => "&quot;"
    case '\'' => "&apos;"
    case _ => [c]
  }

  function EscapeEach(value: string): string {
    if value == "" then "" else Entity(value[0]) + EscapeEach(value[1..])
  }

  lemma {:induction false} ReplaceConcat(a: string, b: string, c: char, entity: string)
    ensures Replace(a + b, c, entity) == Replace(a, c, entity) + Replace(b, c, entity)
    decreases |a|
  {
    if a == "" {
      assert a + b == b;
    } else {
      assert (a + b)[1..] == a[1..] + b;
      ReplaceConcat(a[1..], b, c, entity);
    }
  }

  lemma {:induction false} ReplaceAbsent(text: string, c: char, entity: string)
    requires c !in text
    ensures Replace(text, c, entity) == text
    decreases |text|
  {
    if text != "" {
      assert text[0] != c;
      ReplaceAbsent(text[1..], c, entity);
    }
  }

  lemma ReplaceOne(x: char, c: char, entity: string)
    ensures Replace([x], c, entity) == if x == c then entity else [x]
  {
    assert [x][1..] == "";
  }

  /** The later passes never touch what an earlier one wrote. */
  lemma PassesLeave(text: string)
    requires forall c :: c in text ==> !Markup(c)
    ensures LaterPasses(text) == text
    ensures Replace(Replace(Replace(text, '>', "&gt;"), '\"', "&quot;"), '\'', "&apos;") == text
    ensures Replace(Replace(text, '\"', "&quot;"), '\'', "&apos;") == text
    ensures Replace(text, '\'', "&apos;") == text
  {
    ReplaceAbsent(text, '<', "&lt;");
    ReplaceAbsent(text, '>', "&gt;");
    ReplaceAbsent(text, '\"', "&quot;");
    ReplaceAbsent(text, '\'', "&apos;");
  }

  lemma LaterPassesOne(c: char)
    requires c != '&'
    ensures LaterPasses([c]) == Entity(c)
  {
    EntityHasNoMarkup(c);
    PassesLeave(Entity(c));
    ReplaceOne(c, '<', "&lt;");
    if c != '<' {
      ReplaceOne(c, '>', "&gt;");
      if c != '>' {
        ReplaceOne(c, '\"', "&quot;");
        if c != '\"' { ReplaceOne(c, '\'', "&apos;"); }
      }
    }
  }

  lemma EscapeOne(c: char)
    ensures Escape([c]) == Entity(c)
  {
    ReplaceOne(c, '&', "&amp;");
    if c == '&' {
      EntityHasNoMarkup(c);
      PassesLeave("&amp;");
    } else {
      LaterPassesOne(c);
    }
  }

  lemma EscapeConcat(a: string, b: string)
    ensures Escape(a + b) == Escape(a) + Escape(b)
  {
    var a1, b1 := Replace(a, '&', "&amp;"), Replace(b, '&', "&amp;");
    var a2, b2 := Replace(a1, '<', "&lt;"), Replace(b1, '<', "&lt;");
    var a3, b3 := Replace(a2, '>', "&gt;"), Replace(b2, '>', "&gt;");
    var a4, b4 := Replace(a3, '\"', "&quot;"), Replace(b3, '\"', "&quot;");
    ReplaceConcat(a, b, '&', "&amp;");
    ReplaceConcat(a1, b1, '<', "&lt;");
    ReplaceConcat(a2, b2, '>', "&gt;");
    ReplaceConcat(a3, b3, '\"', "&quot;");
    ReplaceConcat(a4, b4, '\'', "&apos;");
  }

  /** The five passes over the whole text equal one substitution per character. */
  lemma {:induction false} EscapeIsEach(value: string)
    ensures Escape(value) == EscapeEach(value)
    decreases |value|
  {
    if value != "" {
      assert value == [value[0]] + value[1..];
      EscapeConcat([value[0]], value[1..]);
      EscapeOne(value[0]);
      EscapeIsEach(value[1..]);
    }
  }

  predicate Markup(c: char) {
    c == '<' || c == '>' || c == '\"' || c == '\''
  }

  lemma {:induction false} EscapedHasNoMarkup(value: string)
    ensures forall c :: c in Escape(value) ==> !Markup(c)
    decreases |value|
  {
    EscapeIsEach(value);
    if value != "" {
      EscapedHasNoMarkup(value[1..]);
      EscapeIsEach(value[1..]);
      EntityHasNoMarkup(value[0]);
    }
  }

  lemma EntityHasNoMarkup(c: char)
    ensures forall x :: x in Entity(c) ==> !Markup(x)
  {
    assert "&amp;" == ['&', 'a', 'm', 'p', ';'];
    assert "&lt;" == ['&', 'l', 't', ';'];
    assert "&gt;" == ['&', 'g', 't', ';'];
    assert "&quot;" == ['&', 'q', 'u', 'o', 't', ';'];
    assert "&apos;" == ['&', 'a', 'p', 'o', 's', ';'];
  }

  // ---- References ----

  /** Section 2.2: the characters a document may contain. */
  predicate Legal(c: char) {
    c == '\t' || c == '\n' || c == '\r' || ' ' <= c <= '\U{D7FF}'
    || '\U{E000}' <= c <= '\U{FFFD}' || '\U{10000}' <= c
  }

  function HexValue(c: char): Option<nat> {
    if IsDigit(c) then Some(DigitValue(c))
    else if 'a' <= c <= 'f' then Some((c - 'a') as nat + 10)
    else if 'A' <= c <= 'F' then Some((c - 'A') as nat + 10)
    else None
  }

  /** The number written from here up to a semicolon, and how long that is with it. */
  function CodePoint(text: string, radix: nat, value: nat, length: nat): (r: Option<(nat, nat)>)
    ensures r.Some? ==> length < r.value.1 <= length + |text|
    decreases |text|
  {
    if text == "" then None
    else if text[0] == ';' then (if length > 0 then Some((value, length + 1)) else None)
    else
      match HexValue(text[0])
      case None => None
      case Some(d) => if d < radix then CodePoint(text[1..], radix, value * radix + d, length + 1) else None
  }

  function CharOf(code: nat): Option<char> {
    if code < 0xD800 || 0xE000 <= code < 0x11_0000
    then (if Legal(code as char) then Some(code as char) else None) else None
  }

  /** The predefined entity at the start of the text: its character, and its length. */
  function Predefined(text: string): (r: Option<(char, nat)>)
    ensures r.Some? ==> 2 <= r.value.1 <= |text|
  {
    if StartsWith(text, "&amp;") then Some(('&', 5))
    else if StartsWith(text, "&lt;") then Some(('<', 4))
    else if StartsWith(text, "&gt;") then Some(('>', 4))
    else if StartsWith(text, "&quot;") then Some(('\"', 6))
    else if StartsWith(text, "&apos;") then Some(('\'', 6))
    else None
  }

  /** Decoding the five predefined entities and nothing else. */
  function Unescape(text: string): string
    decreases |text|
  {
    if text == "" then ""
    else
      match Predefined(text)
      case None => [text[0]] + Unescape(text[1..])
      case Some((c, length)) => [c] + Unescape(text[length..])
  }

  lemma EntityIsPredefined(c: char, rest: string)
    requires Markup(c) || c == '&'
    ensures Predefined(Entity(c) + rest) == Some((c, |Entity(c)|)) && (Entity(c) + rest)[|Entity(c)|..] == rest
  {
    var text := Entity(c) + rest;
    StartsWithConcat(Entity(c), rest);
    assert text[1] == Entity(c)[1] && text[2] == Entity(c)[2];
    assert StartsWith(text, "&amp;") ==> text[..5][1] == 'a' && text[..5][2] == 'm';
    assert StartsWith(text, "&lt;") ==> text[..4][1] == 'l';
    assert StartsWith(text, "&gt;") ==> text[..4][1] == 'g';
    assert StartsWith(text, "&quot;") ==> text[..6][1] == 'q';
  }

  lemma PredefinedStart(text: string)
    ensures Predefined(text).Some? ==> text[0] == '&'
  {
    assert StartsWith(text, "&amp;") ==> text[..5][0] == '&';
    assert StartsWith(text, "&lt;") ==> text[..4][0] == '&';
    assert StartsWith(text, "&gt;") ==> text[..4][0] == '&';
    assert StartsWith(text, "&quot;") ==> text[..6][0] == '&';
    assert StartsWith(text, "&apos;") ==> text[..6][0] == '&';
  }

  /** Nothing is lost by escaping: decoding gives back every value there is. */
  lemma {:induction false} UnescapeInverts(value: string)
    ensures Unescape(Escape(value)) == value
    decreases |value|
  {
    EscapeIsEach(value);
    if value != "" {
      var c, tail := value[0], EscapeEach(value[1..]);
      UnescapeInverts(value[1..]);
      EscapeIsEach(value[1..]);
      if Markup(c) || c == '&' {
        EntityIsPredefined(c, tail);
      } else {
        PredefinedStart([c] + tail);
        assert ([c] + tail)[1..] == tail;
      }
    }
  }

  /** The character a reference at the start of the text stands for, and the reference's length. */
  function Reference(text: string): (r: Option<(char, nat)>)
    ensures r.Some? ==> 2 <= r.value.1 <= |text|
  {
    if Predefined(text).Some? then Predefined(text)
    else if StartsWith(text, "&#x") then
      match CodePoint(text[3..], 16, 0, 0) {
        case None => None
        case Some((code, length)) =>
          if CharOf(code).Some? then Some((CharOf(code).value, length + 3)) else None
      }
    else if StartsWith(text, "&#") then
      match CodePoint(text[2..], 10, 0, 0) {
        case None => None
        case Some((code, length)) =>
          if CharOf(code).Some? then Some((CharOf(code).value, length + 2)) else None
      }
    else None
  }

  /**
   The value of an attribute from the text between its quotes: references are replaced,
   a line end or a tab reads as a space, and a raw `<` or an illegal character is an error.
   */
  function Value(raw: string): Option<string>
    decreases |raw|
  {
    if raw == "" then Some("")
    else if raw[0] == '&' then
      match Reference(raw) {
        case None => None
        case Some((c, length)) => Cons(c, Value(raw[length..]))
      }
    else if raw[0] == '<' || !Legal(raw[0]) then None
    else if raw[0] == '\r' && |raw| > 1 && raw[1] == '\n' then Value(raw[1..])
    else if raw[0] == '\t' || raw[0] == '\n' || raw[0] == '\r' then Cons(' ', Value(raw[1..]))
    else Cons(raw[0], Value(raw[1..]))
  }

  function Cons(c: char, rest: Option<string>): Option<string> {
    match rest
    case None => None
    case Some(s) => Some([c] + s)
  }

  /** A character that is read back as itself. */
  predicate PlainChar(c: char) {
    Legal(c) && c != '\t' && c != '\n' && c != '\r'
  }

  predicate PlainText(text: string) {
    forall i :: 0 <= i < |text| ==> PlainChar(text[i])
  }

  predicate Unmarked(text: string) {
    '&' !in text && '<' !in text
  }

  lemma {:induction false} ValueNotLonger(raw: string)
    ensures Value(raw).Some? ==> |Value(raw).value| <= |raw|
    decreases |raw|
  {
    if raw != "" {
      if raw[0] == '&' {
        if Reference(raw).Some? { ValueNotLonger(raw[Reference(raw).value.1..]); }
      } else {
        ValueNotLonger(raw[1..]);
      }
    }
  }

  /** Text stands for itself exactly when it is plain and holds no markup. */
  lemma {:induction false} ValueOfSelf(raw: string)
    ensures Value(raw) == Some(raw) <==> PlainText(raw) && Unmarked(raw)
    decreases |raw|
  {
    if raw != "" {
      var rest := raw[1..];
      assert raw == [raw[0]] + rest;
      assert forall i :: 0 <= i < |rest| ==> rest[i] == raw[i + 1];
      ValueNotLonger(rest);
      if raw[0] == '&' {
        if Reference(raw).Some? { ValueNotLonger(raw[Reference(raw).value.1..]); }
      } else {
        ValueOfSelf(rest);
      }
    }
  }

  lemma EntityValue(c: char, rest: string)
    requires Markup(c) || c == '&'
    ensures Value(Entity(c) + rest) == Cons(c, Value(rest))
  {
    EntityIsPredefined(c, rest);
    assert (Entity(c) + rest)[0] == '&';
  }

  /** One character of an escaped value, read back. */
  lemma EscapedCons(c: char, rest: string)
    requires Value(EscapeEach(rest)).Some? ==> |Value(EscapeEach(rest)).value| <= |rest|
    ensures PlainChar(c) ==> Value(EscapeEach([c] + rest)) == Cons(c, Value(EscapeEach(rest)))
    ensures var read := Value(EscapeEach([c] + rest));
            read.Some? ==> |read.value| <= |rest| + 1 && (!PlainChar(c) ==> read.value != [c] + rest)
  {
    var tail := EscapeEach(rest);
    assert ([c] + rest)[1..] == rest;
    if Markup(c) || c == '&' {
      EntityValue(c, tail);
    } else {
      assert EscapeEach([c] + rest) == [c] + tail && ([c] + tail)[1..] == tail;
    }
  }

  /**
   Reading back an escaped value: the original comes back, for every value free of
   tabs, line ends and illegal characters, and for no other.
   */
  lemma {:induction false} EachRoundTrip(value: string)
    ensures Value(EscapeEach(value)) == Some(value) <==> PlainText(value)
    ensures Value(EscapeEach(value)).Some? ==> |Value(EscapeEach(value)).value| <= |value|
    decreases |value|
  {
    if value != "" {
      var c, rest := value[0], value[1..];
      EachRoundTrip(rest);
      EscapedCons(c, rest);
      assert value == [c] + rest;
      assert PlainText(value) <==> PlainChar(c) && PlainText(rest) by {
        assert forall i :: 0 <= i < |rest| ==> rest[i] == value[i + 1];
      }
    }
  }

  lemma EscapeRoundTrip(value: string)
    ensures Value(Escape(value)) == Some(value) <==> PlainText(value)
  {
    EscapeIsEach(value);
    EachRoundTrip(value);
  }

  // ---- One empty-element tag ----

  datatype Attribute = Attribute(name: string, value: string)
  datatype Element = Element(tag: string, attributes: seq<Attribute>)

  predicate IsSpace(c: char) {
    c == ' ' || c == '\t' || c == '\n' || c == '\r'
  }

  predicate IsNameChar(c: char) {
    IsWordChar(c) || c == '-' || c == '.' || c == ':'
  }

  function SkipSpace(text: string): (rest: string)
    ensures |rest| <= |text|
  {
    if text == "" || !IsSpace(text[0]) then text else SkipSpace(text[1..])
  }

  function LeadingName(text: string): (name: string)
    ensures StartsWith(text, name)
    decreases |text|
  {
    if text == "" || !IsNameChar(text[0]) then "" else [text[0]] + LeadingName(text[1..])
  }

  /** What stands after a name: white space around `=`, a quote, the value, the same quote. */
  function QuotedValue(text: string): (r: Option<(string, string)>)
    ensures r.Some? ==> |r.value.1| < |text|
  {
    var afterName := SkipSpace(text);
    if afterName == "" || afterName[0] != '=' then None
    else
      var quoted := SkipSpace(afterName[1..]);
      if quoted == "" || (quoted[0] != '\"' && quoted[0] != '\'') then None
      else
        match IndexOf(quoted[1..], quoted[0])
        case None => None
        case Some(end) =>
          match Value(quoted[1..][..end])
          case None => None
          case Some(v) => Some((v, quoted[1..][end + 1..]))
  }

  /** The attributes up to the `/>` that must end the document. */
  function Attributes(text: string): Option<seq<Attribute>>
    decreases |text|
  {
    var rest := SkipSpace(text);
    if StartsWith(rest, "/>") then (if SkipSpace(rest[2..]) == "" then Some([]) else None)
    else if rest == text then None
    else
      var name := LeadingName(rest);
      if name == "" || IsDigit(name[0]) || name[0] == '-' || name[0] == '.' then None
      else
        match QuotedValue(rest[|name|..])
        case None => None
        case Some((value, more)) =>
          match Attributes(more)
          case None => None
          case Some(others) => Some([Attribute(name, value)] + others)
  }

  predicate DistinctNames(attributes: seq<Attribute>) {
    forall i, j :: 0 <= i < j < |attributes| ==> attributes[i].name != attributes[j].name
  }

  /** ET.fromstring on such a document; None where it raises. */
  function ParseElement(text: string): Option<Element> {
    if text == "" || text[0] != '<' then None
    else
      var tag := LeadingName(text[1..]);
      if tag == "" || IsDigit(tag[0]) || tag[0] == '-' || tag[0] == '.' then None
      else
        match Attributes(text[1 + |tag|..])
        case None => None
        case Some(attributes) => if DistinctNames(attributes) then Some(Element(tag, attributes)) else None
  }

  /** root.attrib.get(name) */
  function Get(attributes: seq<Attribute>, name: string): Option<string> {
    if attributes == [] then None
    else if attributes[0].name == name then Some(attributes[0].value)
    else Get(attributes[1..], name)
  }

  // ---- Reading back a printed attribute ----

  predicate IsName(name: string) {
    name != "" && 'A' <= name[0] <= 'Z' && forall i :: 0 <= i < |name| ==> IsNameChar(name[i])
  }

  function Printed(name: string, raw: string): string {
    " " + name + "=\"" + raw + "\""
  }

  lemma {:induction false} LeadingNameOf(name: string, rest: string)
    requires (forall i :: 0 <= i < |name| ==> IsNameChar(name[i])) && (rest == "" || !IsNameChar(rest[0]))
    ensures LeadingName(name + rest) == name
    decreases |name|
  {
    if name == "" {
      assert name + rest == rest;
    } else {
      assert (name + rest)[1..] == name[1..] + rest;
      LeadingNameOf(name[1..], rest);
    }
  }

  lemma QuotedTail(tail: string)
    ensures var end := IndexOf(tail, '\"');
            QuotedValue("=\"" + tail) ==
            if end.None? || Value(tail[..end.value]).None? then None
            else Some((Value(tail[..end.value]).value, tail[end.value + 1..]))
  {
    var after := "=\"" + tail;
    assert SkipSpace(after) == after;
    assert after[1..] == "\"" + tail;
    assert SkipSpace(after[1..]) == after[1..];
    assert after[1..][1..] == tail;
  }

  lemma NameTail(name: string, after: string)
    requires IsName(name) && (after == "" || !IsNameChar(after[0]))
    ensures var text := " " + (name + after);
            SkipSpace(text) == name + after && !StartsWith(SkipSpace(text), "/>")
            && LeadingName(SkipSpace(text)) == name && SkipSpace(text)[|name|..] == after
  {
    var text, rest := " " + (name + after), name + after;
    assert text[1..] == rest;
    assert rest[0] == name[0];
    assert SkipSpace(rest) == rest;
    assert |rest| >= 2 ==> rest[..2][0] == rest[0];
    LeadingNameOf(name, after);
  }

  /** The text up to the first quote is the value, whatever was meant to be printed there. */
  lemma AttributesCons(name: string, tail: string)
    requires IsName(name)
    ensures var end := IndexOf(tail, '\"');
            Attributes(" " + name + "=\"" + tail) ==
            if end.None? || Value(tail[..end.value]).None? || Attributes(tail[end.value + 1..]).None? then None
            else Some([Attribute(name, Value(tail[..end.value]).value)] + Attributes(tail[end.value + 1..]).value)
  {
    var after := "=\"" + tail;
    assert " " + name + "=\"" + tail == " " + (name + after);
    NameTail(name, after);
    QuotedTail(tail);
  }

  lemma AttributesPrinted(name: string, raw: string, rest: string)
    requires IsName(name) && '\"' !in raw
    ensures Attributes(Printed(name, raw) + rest) ==
            if Value(raw).None? || Attributes(rest).None? then None
            else Some([Attribute(name, Value(raw).value)] + Attributes(rest).value)
  {
    var tail := raw + "\"" + rest;
    assert Printed(name, raw) + rest == " " + name + "=\"" + tail;
    AttributesCons(name, tail);
    IndexOfConcat(raw, '\"', rest);
    assert tail[..|raw|] == raw && tail[|raw| + 1..] == rest;
  }
}
