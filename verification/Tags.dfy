/** One empty-element tag, as both FIAS ends print it, and what reading it gives back. */
module Tags {
  import opened Common
  import opened Text
  import opened Xml

  /** Text that may stand between quotes as it is. */
  predicate Faithful(raw: string) {
    PlainText(raw) && Unmarked(raw) && '\"' !in raw
  }

  /** One attribute as it is printed: its name and the text put between the quotes. */
  datatype Field = Field(name: string, raw: string)

  function PrintFields(fields: seq<Field>): string {
    if fields == [] then "/>" else Printed(fields[0].name, fields[0].raw) + PrintFields(fields[1..])
  }

  function PrintTag(tag: string, fields: seq<Field>): string {
    "<" + tag + PrintFields(fields)
  }

  function OrEmpty(value: Option<string>): string {
    match value
    case None => ""
    case Some(v) => v
  }

  // ---- Reading a tag back ----

  /** What the fields read as, if each reads as anything. */
  function ReadFields(fields: seq<Field>): Option<seq<Attribute>> {
    if fields == [] then Some([])
    else if Value(fields[0].raw).None? || ReadFields(fields[1..]).None? then None
    else Some([Attribute(fields[0].name, Value(fields[0].raw).value)] + ReadFields(fields[1..]).value)
  }

  predicate Named(fields: seq<Field>) {
    forall i :: 0 <= i < |fields| ==> IsName(fields[i].name)
  }

  predicate Quotable(fields: seq<Field>) {
    forall i :: 0 <= i < |fields| ==> '\"' !in fields[i].raw
  }

  lemma {:induction false} FieldsRead(fields: seq<Field>)
    requires Named(fields) && Quotable(fields)
    ensures Attributes(PrintFields(fields)) == ReadFields(fields)
    decreases |fields|
  {
    if fields == [] {
      assert SkipSpace("/>") == "/>" && "/>"[2..] == "";
    } else {
      AttributesPrinted(fields[0].name, fields[0].raw, PrintFields(fields[1..]));
      FieldsRead(fields[1..]);
    }
  }

  lemma {:induction false} ReadShape(fields: seq<Field>)
    ensures ReadFields(fields).Some? <==> forall i :: 0 <= i < |fields| ==> Value(fields[i].raw).Some?
    ensures ReadFields(fields).Some? ==>
              && |ReadFields(fields).value| == |fields|
              && forall i :: 0 <= i < |fields| ==>
                   Value(fields[i].raw).Some? && ReadFields(fields).value[i] == Attribute(fields[i].name, Value(fields[i].raw).value)
    decreases |fields|
  {
    if fields != [] {
      ReadShape(fields[1..]);
      assert forall i :: 1 <= i < |fields| ==> fields[i] == fields[1..][i - 1];
    }
  }

  /** The first quote ends a value, so a field that holds one is never read back as itself. */
  lemma {:induction false} QuoteSpoils(fields: seq<Field>, k: nat)
    requires Named(fields) && k < |fields| && '\"' in fields[k].raw
    requires forall i :: 0 <= i < k ==> '\"' !in fields[i].raw
    ensures var read := Attributes(PrintFields(fields));
            read.Some? ==> && k < |read.value|
                           && (forall i :: 0 <= i <= k ==> read.value[i].name == fields[i].name)
                           && read.value[k].value != fields[k].raw
    decreases k
  {
    var name, raw, more := fields[0].name, fields[0].raw, PrintFields(fields[1..]);
    if k > 0 {
      AttributesPrinted(name, raw, more);
      QuoteSpoils(fields[1..], k - 1);
      assert forall i :: 1 <= i < |fields| ==> fields[i] == fields[1..][i - 1];
    } else {
      SpoiledFirst(name, raw, more);
    }
  }

  lemma SpoiledFirst(name: string, raw: string, more: string)
    requires IsName(name) && '\"' in raw
    ensures var read := Attributes(Printed(name, raw) + more);
            read.Some? ==> read.value != [] && read.value[0].name == name && read.value[0].value != raw
  {
    var tail := raw + "\"" + more;
    assert Printed(name, raw) + more == " " + name + "=\"" + tail;
    AttributesCons(name, tail);
    var i := FirstQuote(raw, more);
    ValueNotLonger(tail[..i]);
  }

  /** The value ends at the quote inside, before the one that was meant to end it. */
  lemma FirstQuote(raw: string, more: string) returns (i: nat)
    requires '\"' in raw
    ensures i < |raw| && IndexOf(raw + "\"" + more, '\"') == Some(i)
  {
    i := IndexOf(raw, '\"').value;
    var later := raw[i + 1..] + "\"" + more;
    assert raw == raw[..i] + ['\"'] + raw[i + 1..];
    assert raw + "\"" + more == raw[..i] + ['\"'] + later;
    IndexOfConcat(raw[..i], '\"', later);
  }

  lemma {:induction false} GetAt(attributes: seq<Attribute>, i: nat)
    requires i < |attributes| && forall j :: 0 <= j < i ==> attributes[j].name != attributes[i].name
    ensures Get(attributes, attributes[i].name) == Some(attributes[i].value)
    decreases i
  {
    if i > 0 { GetAt(attributes[1..], i - 1); }
  }

  lemma {:induction false} GetAbsent(attributes: seq<Attribute>, name: string)
    requires forall j :: 0 <= j < |attributes| ==> attributes[j].name != name
    ensures Get(attributes, name) == None
    decreases |attributes|
  {
    if attributes != [] { GetAbsent(attributes[1..], name); }
  }

  /** Printing and parsing one tag, whatever its fields hold. */
  lemma ElementOf(tag: string, fields: seq<Field>)
    requires IsName(tag)
    ensures var read := Attributes(PrintFields(fields));
            ParseElement(PrintTag(tag, fields)) ==
            if read.Some? && DistinctNames(read.value) then Some(Element(tag, read.value)) else None
  {
    FieldsStart(fields);
    TagParts(tag, PrintFields(fields));
    LeadingNameOf(tag, PrintFields(fields));
  }

  lemma TagParts(tag: string, rest: string)
    requires tag != ""
    ensures var text := "<" + tag + rest;
            text[0] == '<' && text[1..] == tag + rest && text[1 + |tag|..] == rest
  {
  }

  lemma FieldsStart(fields: seq<Field>)
    ensures PrintFields(fields) != "" && !IsNameChar(PrintFields(fields)[0])
  {
    assert fields != [] ==> PrintFields(fields)[0] == ' ';
  }
}
