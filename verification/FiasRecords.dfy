/**
 The records of the FIAS protocol: what the portal's client prints for each query, and
 what the emulator's handlers answer to a record they can read.
 */
module FiasRecords {
  import opened Common
  import opened Framing
  import opened Utf8
  import opened Xml
  import opened Tags
  import opened GuestRecord

  // ---- The client's requests ----

  datatype Query =
    | Login(authKey: string, vendorId: string)
    | Beat
    | GuestQuery(room: string, lastName: string)
    | RoomQuery(room: string)
    | Departures(day: Date)

  /** The record types the server has a handler for. */
  datatype Kind = LR | KA | GIQ | DRQ | LD

  predicate QueryOk(q: Query) {
    q.Departures? ==> ValidDate(q.day)
  }

  function KindOf(q: Query): Kind {
    match q
    case Login(_, _) => LR
    case Beat => KA
    case GuestQuery(_, _) => GIQ
    case RoomQuery(_) => GIQ
    case Departures(_) => DRQ
  }

  function TagName(kind: Kind): string {
    match kind
    case LR => "LR"
    case KA => "KA"
    case GIQ => "GIQ"
    case DRQ => "DRQ"
    case LD => "LD"
  }

  /** Nothing the client prints is escaped. */
  function QueryFields(q: Query): seq<Field>
    requires QueryOk(q)
  {
    match q
    case Login(key, vendor) => [Field("AuthKey", key), Field("VendorID", vendor)]
    case Beat => []
    case GuestQuery(room, name) => [Field("RoomNumber", room), Field("LastName", name)]
    case RoomQuery(room) => [Field("RoomNumber", room)]
    case Departures(day) => [Field("DepartureDate", PrintDate(day))]
  }

  function PrintRequest(q: Query): string
    requires QueryOk(q)
  {
    PrintTag(TagName(KindOf(q)), QueryFields(q))
  }

  /** The bytes written to the socket, and the records the server frames them as. */
  function Wire(q: Query): Bytes
    requires QueryOk(q)
  {
    Encode(PrintRequest(q)) + CRLF
  }

  function RecordsOf(q: Query): seq<Bytes>
    requires QueryOk(q)
  {
    Records(Wire(q))
  }

  predicate OneRecord(q: Query)
    requires QueryOk(q)
  {
    |RecordsOf(q)| == 1
  }

  /** No text of the query holds a line end. */
  predicate NoBreaks(q: Query)
    requires QueryOk(q)
  {
    forall i :: 0 <= i < |QueryFields(q)| ==> !HasBreak(QueryFields(q)[i].raw)
  }

  lemma BreakInConcat(a: string, b: string)
    ensures HasBreak(a + b) <==>
              HasBreak(a) || HasBreak(b) || (a != "" && b != "" && a[|a| - 1] == '\r' && b[0] == '\n')
  {
    var all := a + b;
    if i :| 0 <= i < |a| && BreaksAt(a, i) { assert BreaksAt(all, i); }
    if i :| 0 <= i < |b| && BreaksAt(b, i) { assert BreaksAt(all, i + |a|); }
    if a != "" && b != "" && a[|a| - 1] == '\r' && b[0] == '\n' { assert BreaksAt(all, |a| - 1); }
    if i :| 0 <= i < |all| && BreaksAt(all, i) {
      assert i + 1 < |a| ==> BreaksAt(a, i);
      assert i >= |a| ==> BreaksAt(b, i - |a|);
    }
  }

  predicate NoReturns(text: string) {
    '\r' !in text
  }

  lemma NoReturnsNoBreak(text: string)
    requires NoReturns(text)
    ensures !HasBreak(text)
  {
  }

  /** A printed field breaks the line only where its text does. */
  lemma PrintedBreaks(name: string, raw: string, rest: string)
    requires IsName(name) && rest != "" && rest[0] != '\n'
    ensures HasBreak(Printed(name, raw) + rest) <==> HasBreak(raw) || HasBreak(rest)
  {
    var head, tail := " " + name + "=\"", "\"" + rest;
    assert Printed(name, raw) + rest == head + (raw + tail);
    assert NoReturns(head);
    NoReturnsNoBreak(head);
    NoReturnsNoBreak("\"");
    BreakInConcat("\"", rest);
    BreakInConcat(raw, tail);
    BreakInConcat(head, raw + tail);
  }

  lemma {:induction false} FieldsBreaks(fields: seq<Field>)
    requires Named(fields)
    ensures HasBreak(PrintFields(fields)) <==> exists i :: 0 <= i < |fields| && HasBreak(fields[i].raw)
    decreases |fields|
  {
    if fields == [] {
      NoReturnsNoBreak("/>");
    } else {
      var rest := fields[1..];
      FieldsBreaks(rest);
      FieldsStart(rest);
      assert PrintFields(rest)[0] != '\n' by { if rest != [] { assert PrintFields(rest)[0] == ' '; } }
      PrintedBreaks(fields[0].name, fields[0].raw, PrintFields(rest));
      assert forall i :: 0 <= i < |rest| ==> rest[i] == fields[i + 1];
      if HasBreak(PrintFields(rest)) {
        var i :| 0 <= i < |rest| && HasBreak(rest[i].raw);
        assert HasBreak(fields[i + 1].raw);
      }
    }
  }

  lemma TagNames(kind: Kind)
    ensures IsName(TagName(kind)) && NoReturns(TagName(kind)) && 2 <= |TagName(kind)| <= 3
  {
  }

  lemma QueryNames(q: Query)
    requires QueryOk(q)
    ensures Named(QueryFields(q)) && PlainNames(QueryFields(q))
    ensures DistinctFields(QueryFields(q))
  {
    match q
    case Login(_, _) => LoginNames();
    case Beat =>
    case GuestQuery(_, _) => GuestNames();
    case RoomQuery(_) => GuestNames();
    case Departures(_) => DayName();
  }

  lemma LoginNames()
    ensures PlainName("AuthKey") && PlainName("VendorID") && "AuthKey" != "VendorID"
  {
    assert |"AuthKey"| == 7 && |"VendorID"| == 8;
  }

  lemma GuestNames()
    ensures PlainName("RoomNumber") && PlainName("LastName") && "RoomNumber" != "LastName"
  {
    assert |"RoomNumber"| == 10 && |"LastName"| == 8;
  }

  lemma DayName()
    ensures PlainName("DepartureDate")
  {
  }

  lemma RequestBreaks(q: Query)
    requires QueryOk(q)
    ensures HasBreak(PrintRequest(q)) <==> !NoBreaks(q)
  {
    var fields := QueryFields(q);
    var head, rest := "<" + TagName(KindOf(q)), PrintFields(fields);
    TagNames(KindOf(q));
    QueryNames(q);
    NoReturnsNoBreak(head);
    BreakInConcat(head, rest);
    FieldsBreaks(fields);
  }

  /** Ended by a CRLF, a stream leaves nothing over. */
  lemma RestOfEnded(s: Bytes)
    ensures Rest(s + CRLF) == []
  {
    PiecesAppend(s, CRLF);
    CutIsFirst(Rest(s));
    CutAt(Rest(s), []);
    assert Rest(s) + CRLF + [] == Rest(s) + CRLF;
    assert (Rest(s) + CRLF)[|Rest(s)| + 2..] == [];
  }

  lemma WholeRecord(s: Bytes)
    requires s != [] && !HasCrlf(s)
    ensures Records(s + CRLF) == [s]
  {
    WholePiece(s);
    NonEmptyOne(s);
  }

  lemma PrintedNotEmpty(q: Query)
    requires QueryOk(q)
    ensures PrintRequest(q) != "" && Encode(PrintRequest(q)) != []
  {
    EncodeEmpty(PrintRequest(q));
  }

  /** A request is one record exactly when no text in it holds a line end. */
  lemma OneRecordIff(q: Query)
    requires QueryOk(q)
    ensures OneRecord(q) <==> NoBreaks(q)
    ensures NoBreaks(q) ==> RecordsOf(q) == [Encode(PrintRequest(q))]
  {
    var text := PrintRequest(q);
    RequestBreaks(q);
    CrlfFromText(text);
    PrintedNotEmpty(q);
    if NoBreaks(q) {
      WholeRecord(Encode(text));
    } else {
      SeveralRecords(q);
    }
  }

  lemma NonEmptyOne(piece: Bytes)
    requires piece != []
    ensures NonEmpty([piece]) == [piece]
  {
    var one := [piece];
    assert one[1..] == [];
  }

  lemma NonEmptyEnds(pieces: seq<Bytes>)
    requires |pieces| >= 2 && pieces[0] != [] && pieces[|pieces| - 1] != []
    ensures |NonEmpty(pieces)| >= 2
  {
    var last := |pieces| - 1;
    assert pieces == [pieces[0]] + (pieces[1..last] + [pieces[last]]);
    NonEmptyConcat([pieces[0]], pieces[1..last] + [pieces[last]]);
    NonEmptyConcat(pieces[1..last], [pieces[last]]);
    NonEmptyOne(pieces[0]);
    NonEmptyOne(pieces[last]);
  }

  /** With a line end inside, the first and the last piece are two records. */
  lemma SeveralRecords(q: Query)
    requires QueryOk(q) && HasBreak(PrintRequest(q))
    ensures |RecordsOf(q)| >= 2
  {
    var bytes := Encode(PrintRequest(q));
    CrlfFromText(PrintRequest(q));
    RequestEnds(q);
    PiecesEnds(bytes);
    NonEmptyEnds(Pieces(bytes + CRLF));
  }

  lemma {:induction false} LastByte(text: string)
    requires text != ""
    ensures Encode(text) != []
    ensures Encode(text)[|Encode(text)| - 1] == LF <==> text[|text| - 1] == '\n'
    decreases |text|
  {
    OneChar(text[0]);
    LastOfChar(text[0]);
    if |text| > 1 {
      LastByte(text[1..]);
    } else {
      assert Encode(text[1..]) == [];
    }
  }

  lemma LastOfChar(c: char)
    ensures EncodeChar(c)[|EncodeChar(c)| - 1] == LF <==> c == '\n'
  {
  }

  lemma {:induction false} LastOfFields(fields: seq<Field>)
    ensures PrintFields(fields) != "" && PrintFields(fields)[|PrintFields(fields)| - 1] == '>'
    decreases |fields|
  {
    if fields != [] { LastOfFields(fields[1..]); }
  }

  lemma RequestEnds(q: Query)
    requires QueryOk(q)
    ensures var bytes := Encode(PrintRequest(q)); |bytes| >= 2 && bytes[0] != CR && bytes[|bytes| - 1] != LF
  {
    var text := PrintRequest(q);
    LastOfFields(QueryFields(q));
    assert text[0] == '<' && text[|text| - 1] == '>';
    assert Encode(text) == EncodeChar('<') + Encode(text[1..]);
    LastByte(text);
    EncodeEmpty(text[1..]);
  }

  /** A stream that does not begin with a line end, nor end with one before the last. */
  lemma PiecesEnds(bytes: Bytes)
    requires HasCrlf(bytes) && bytes[0] != CR && bytes[|bytes| - 1] != LF
    ensures var pieces := Pieces(bytes + CRLF);
            |pieces| >= 2 && pieces[0] != [] && pieces[|pieces| - 1] != []
  {
    CutIsFirst(bytes);
    CutAppend(bytes, CRLF);
    var i := Cut(bytes).value;
    var all, later := bytes + CRLF, bytes[i + 2..];
    PiecesUnfold(all);
    assert all[..i] == bytes[..i] && all[i + 2..] == later + CRLF;
    assert i > 0;
    LastPiece(later);
  }

  lemma LastPiece(s: Bytes)
    requires s != [] && s[|s| - 1] != LF
    ensures Pieces(s + CRLF) != [] && Pieces(s + CRLF)[|Pieces(s + CRLF)| - 1] != []
  {
    var rest := Rest(s);
    PiecesAppend(s, CRLF);
    RestNotEmpty(s);
    CutIsFirst(rest);
    WholePiece(rest);
  }

  lemma WholePiece(s: Bytes)
    requires !HasCrlf(s)
    ensures Pieces(s + CRLF) == [s]
  {
    FrameRoundTrip([s], []);
    assert Frame([s], []) == s + CRLF + [] == s + CRLF;
  }

  lemma {:induction false} RestNotEmpty(s: Bytes)
    requires s != [] && s[|s| - 1] != LF
    ensures Rest(s) != []
    decreases |s|
  {
    CutIsFirst(s);
    if Cut(s).Some? {
      var i := Cut(s).value;
      assert s[i + 1] == LF;
      RestNotEmpty(s[i + 2..]);
    }
  }

  // ---- The server's reader ----

  /** What the server makes of a record it can parse: its handler, if it has one, and the attributes. */
  datatype Reading = Reading(handler: Option<Kind>, attributes: seq<Attribute>)

  /** ET.fromstring on the text of a record and the look-up of its tag, case aside. */
  type Reader = string -> Option<Reading>

  predicate PlainName(name: string) {
    IsName(name) && forall i :: 0 <= i < |name| ==> 'A' <= name[i] <= 'Z' || 'a' <= name[i] <= 'z'
  }

  predicate PlainNames(fields: seq<Field>) {
    forall i :: 0 <= i < |fields| ==> PlainName(fields[i].name)
  }

  /** One printed tag, read as XML 1.0 lays down. */
  function TagReading(kind: Kind, fields: seq<Field>): Option<Reading> {
    match ParseElement(PrintTag(TagName(kind), fields))
    case None => None
    case Some(e) => Some(Reading(Some(kind), e.attributes))
  }

  /**
   All that is asked of the reader: it reads printed tags without a quote inside their values
   as XML 1.0 lays down.  Whatever else a record may be, it may read in any way.
   */
  ghost predicate Conforms(reader: Reader) {
    forall kind, fields :: PlainNames(fields) && Quotable(fields) ==>
      reader(PrintTag(TagName(kind), fields)) == TagReading(kind, fields)
  }

  /** Every value of the query reads as something: no `<`, only legal characters, every `&` a reference. */
  predicate Readable(q: Query)
    requires QueryOk(q)
  {
    forall i :: 0 <= i < |QueryFields(q)| ==> Value(QueryFields(q)[i].raw).Some?
  }

  predicate QuoteFree(q: Query)
    requires QueryOk(q)
  {
    Quotable(QueryFields(q))
  }

  /** What a conforming reader makes of a request without quotes in its texts. */
  lemma RequestRead(reader: Reader, q: Query)
    requires Conforms(reader) && QueryOk(q) && QuoteFree(q)
    ensures Readable(q) <==> ReadFields(QueryFields(q)).Some?
    ensures reader(PrintRequest(q)) ==
            match ReadFields(QueryFields(q))
            case None => None
            case Some(attributes) => Some(Reading(Some(KindOf(q)), attributes))
  {
    QueryNames(q);
    PlainTagRead(reader, KindOf(q), QueryFields(q));
    ReadShape(QueryFields(q));
  }

  predicate DistinctFields(fields: seq<Field>) {
    forall i, j :: 0 <= i < j < |fields| ==> fields[i].name != fields[j].name
  }

  lemma DistinctRead(fields: seq<Field>)
    requires DistinctFields(fields)
    ensures ReadFields(fields).Some? ==> DistinctNames(ReadFields(fields).value)
  {
    ReadShape(fields);
  }

  lemma PlainNamesAreNames(fields: seq<Field>)
    requires PlainNames(fields)
    ensures Named(fields)
  {
  }

  /** A tag of plain, distinct names and quotable values is read as its fields, or not at all. */
  lemma TagReadingIs(kind: Kind, fields: seq<Field>)
    requires PlainNames(fields) && Quotable(fields) && DistinctFields(fields)
    ensures TagReading(kind, fields) ==
            match ReadFields(fields)
            case None => None
            case Some(attributes) => Some(Reading(Some(kind), attributes))
  {
    TagNames(kind);
    PlainNamesAreNames(fields);
    ElementOf(TagName(kind), fields);
    FieldsRead(fields);
    DistinctRead(fields);
  }

  lemma PlainTagRead(reader: Reader, kind: Kind, fields: seq<Field>)
    requires Conforms(reader) && PlainNames(fields) && Quotable(fields) && DistinctFields(fields)
    ensures reader(PrintTag(TagName(kind), fields)) ==
            match ReadFields(fields)
            case None => None
            case Some(attributes) => Some(Reading(Some(kind), attributes))
  {
    TagReadingIs(kind, fields);
  }

  // ---- The handlers ----

  /** What the server's database holds when a record is handled: the active guests, in its order. */
  datatype Desk = Desk(accepts: bool, guests: seq<EmulatorGuest>)

  predicate DatesOk(g: EmulatorGuest) {
    ValidDate(g.arrival) && ValidDate(g.departure)
  }

  predicate DeskOk(desk: Desk) {
    forall i :: 0 <= i < |desk.guests| ==> DatesOk(desk.guests[i])
  }

  function LowerChar(c: char): char {
    if 'A' <= c <= 'Z' then c - 'A' + 'a' else c
  }

  /** lower(text) LIKE lower(pattern), in SQLite's reading. */
  predicate Like(text: string, pattern: string)
    decreases |text| + |pattern|
  {
    if pattern == "" then text == ""
    else if pattern[0] == '%' then Like(text, pattern[1..]) || (text != "" && Like(text[1..], pattern))
    else text != "" && (pattern[0] == '_' || LowerChar(text[0]) == LowerChar(pattern[0])) && Like(text[1..], pattern[1..])
  }

  predicate SameName(a: string, b: string) {
    |a| == |b| && forall i :: 0 <= i < |a| ==> LowerChar(a[i]) == LowerChar(b[i])
  }

  /** Without wildcards the pattern matches the name itself, case aside. */
  lemma {:induction false} LikeWithoutWildcards(text: string, pattern: string)
    requires '%' !in pattern && '_' !in pattern
    ensures Like(text, pattern) <==> SameName(text, pattern)
    decreases |pattern|
  {
    if pattern != "" {
      assert pattern[0] in pattern;
      if text != "" {
        LikeWithoutWildcards(text[1..], pattern[1..]);
        assert SameName(text, pattern) <==> LowerChar(text[0]) == LowerChar(pattern[0]) && SameName(text[1..], pattern[1..]) by {
          assert text == [text[0]] + text[1..] && pattern == [pattern[0]] + pattern[1..];
        }
      }
    }
  }

  predicate Fits(g: EmulatorGuest, room: string, pattern: string) {
    g.room == room && Like(g.lastName, pattern)
  }

  /** _find_guest: the first active guest of the room whose name matches. */
  function FindGuest(guests: seq<EmulatorGuest>, room: string, pattern: string): (g: Option<EmulatorGuest>)
    ensures g.Some? ==> g.value in guests && Fits(g.value, room, pattern)
    ensures g.None? ==> forall i :: 0 <= i < |guests| ==> !Fits(guests[i], room, pattern)
  {
    if guests == [] then None
    else if Fits(guests[0], room, pattern) then Some(guests[0])
    else FindGuest(guests[1..], room, pattern)
  }

  /** _find_departing_rooms: each room once. */
  function DepartingRooms(guests: seq<EmulatorGuest>, day: Date): (rooms: seq<string>)
    ensures forall room :: room in rooms <==> exists g :: g in guests && g.departure == day && g.room == room
  {
    if guests == [] then []
    else
      var rooms := DepartingRooms(guests[1..], day);
      if guests[0].departure == day && guests[0].room !in rooms then [guests[0].room] + rooms else rooms
  }

  function DepartureRecords(rooms: seq<string>): string {
    if rooms == [] then "" else "<DR RoomNumber=\"" + rooms[0] + "\"/>" + DepartureRecords(rooms[1..])
  }

  function Attr(reading: Reading, name: string): string {
    OrEmpty(Get(reading.attributes, name))
  }

  /** The record handlers without an injected failure; the empty text is never written to the socket. */
  function Handle(kind: Kind, reading: Reading, desk: Desk): string
    requires DeskOk(desk)
  {
    match kind
    case LR => if desk.accepts then "<LA Result=\"OK\"/>" else "<LA Result=\"DENIED\"/>"
    case KA => "<KR/>"
    case GIQ =>
      (match FindGuest(desk.guests, Attr(reading, "RoomNumber"), Attr(reading, "LastName"))
       case None => PrintNotFound()
       case Some(g) => PrintGuest(g))
    case DRQ =>
      (match ParseDate(Attr(reading, "DepartureDate"))
       case None => ""
       case Some(day) => DepartureRecords(DepartingRooms(desk.guests, day)))
    case LD => ""
  }

  /** What a failure rule makes of a record in a handler: another text, perhaps none, or the connection dropped. */
  datatype Failure = Say(text: string) | Drop

  /** What the server makes of a record it can decode. */
  function ReadingOf(reader: Reader, record: Bytes): Option<Reading> {
    match Decode(record)
    case None => None
    case Some(text) => reader(text)
  }

  /** The record has a handler. */
  predicate Handled(reader: Reader, record: Bytes) {
    ReadingOf(reader, record).Some? && ReadingOf(reader, record).value.handler.Some?
  }

  /** The record is a logout, after which the server stops. */
  predicate IsLogout(reader: Reader, record: Bytes) {
    ReadingOf(reader, record).Some? && ReadingOf(reader, record).value.handler == Some(LD)
  }

  /** The record is handed to a handler that may answer. */
  predicate Answerable(reader: Reader, record: Bytes) {
    Handled(reader, record) && !IsLogout(reader, record)
  }

  /** handle_data: no answer to what cannot be decoded, parsed or handled; failures are injected in the handlers. */
  function Respond(reader: Reader, record: Bytes, desk: Desk, injected: Option<Failure>): string
    requires DeskOk(desk)
  {
    if !Answerable(reader, record) then ""
    else
      match injected
      case None => Handle(ReadingOf(reader, record).value.handler.value, ReadingOf(reader, record).value, desk)
      case Some(Say(text)) => text
      case Some(Drop) => ""
  }

  /** A drop is injected in a handler that could have answered. */
  predicate Drops(reader: Reader, record: Bytes, injected: Option<Failure>) {
    Answerable(reader, record) && injected == Some(Drop)
  }

  // ---- When a request is answered ----

  /** The server parses the request and has a handler for it. */
  predicate Understood(reader: Reader, q: Query)
    requires QueryOk(q)
  {
    Answerable(reader, Encode(PrintRequest(q)))
  }

  predicate Departs(guests: seq<EmulatorGuest>, day: Date) {
    exists g :: g in guests && g.departure == day
  }

  lemma DepartingRoomsIff(guests: seq<EmulatorGuest>, day: Date)
    ensures DepartingRooms(guests, day) != [] <==> Departs(guests, day)
  {
    var rooms := DepartingRooms(guests, day);
    if rooms != [] { assert rooms[0] in rooms; }
    if g :| g in guests && g.departure == day { assert g.room in rooms; }
  }

  /** A date is read as some day, the very one within the century of the pivot. */
  lemma DateReadsAs(day: Date)
    requires ValidDate(day)
    ensures ParseDate(PrintDate(day)).Some?
    ensures InCentury(day) ==> ParseDate(PrintDate(day)) == Some(day)
  {
    PivotValid(day);
    PrintedDateRead(day);
  }

  /** The date in the hundred years of the pivot with the same last two digits of the year. */
  function Pivoted(day: Date): Date {
    var yy := day.year % 100;
    day.(year := if yy <= 68 then 2000 + yy else 1900 + yy)
  }

  lemma PivotValid(day: Date)
    requires ValidDate(day)
    ensures ValidDate(Pivoted(day)) && (InCentury(day) ==> Pivoted(day) == day)
  {
    assert Pivoted(day).year % 4 == day.year % 4;
  }

  lemma PrintedDateRead(day: Date)
    requires ValidDate(day) && ValidDate(Pivoted(day))
    ensures ParseDate(PrintDate(day)) == Some(Pivoted(day))
  {
    TwoDigitsRoundTrip(day.month);
    TwoDigitsRoundTrip(day.day);
    TwoDigitsRoundTrip(day.year % 100);
    FieldOfTwoDigits(day.month, false, 12);
    FieldOfTwoDigits(day.day, true, 31);
    FieldsOf(TwoDigits(day.month), TwoDigits(day.day), TwoDigits(day.year % 100));
  }

  function DayRead(day: Date): Date
    requires ValidDate(day)
  {
    DateReadsAs(day);
    ParseDate(PrintDate(day)).value
  }

  lemma DeparturesRead(reader: Reader, day: Date)
    requires Conforms(reader) && ValidDate(day)
    ensures var q := Departures(day);
            && QuoteFree(q) && Readable(q)
            && reader(PrintRequest(q)).Some? && reader(PrintRequest(q)).value.handler == Some(DRQ)
            && Attr(reader(PrintRequest(q)).value, "DepartureDate") == PrintDate(day)
  {
    var q := Departures(day);
    var fields := QueryFields(q);
    DateChars(day);
    ValueOfSelf(PrintDate(day));
    RequestRead(reader, q);
    ReadShape(fields);
    GetAt(ReadFields(fields).value, 0);
  }

  /** What a request without injected failures is answered with depends on this alone. */
  predicate Answered(reader: Reader, q: Query, desk: Desk)
    requires QueryOk(q)
  {
    Understood(reader, q) && (q.Departures? ==> Departs(desk.guests, DayRead(q.day)))
  }

  /** The reader never takes a request's tag for the departure query's unless it is one, nor the other way round. */
  ghost predicate KeepsTags(reader: Reader) {
    forall q :: QueryOk(q) && reader(PrintRequest(q)).Some? ==>
      reader(PrintRequest(q)).value.handler in {None, Some(KindOf(q))}
  }

  /**
   Without injected failures a request is answered exactly when its printed text parses to
   a record with a handler and, for a departure query, somebody departs on the day read.
   */
  lemma AnsweredIff(reader: Reader, q: Query, desk: Desk)
    requires Conforms(reader) && KeepsTags(reader) && QueryOk(q) && DeskOk(desk)
    ensures Respond(reader, Encode(PrintRequest(q)), desk, None) != "" <==> Answered(reader, q, desk)
  {
    DecodeInverts(PrintRequest(q));
    if q.Departures? {
      DeparturesAnswered(reader, q.day, desk);
    } else if Understood(reader, q) {
      HandlersAnswer(KindOf(q), reader(PrintRequest(q)).value, desk);
    }
  }

  /** The other handlers always answer. */
  lemma HandlersAnswer(kind: Kind, reading: Reading, desk: Desk)
    requires DeskOk(desk) && kind != DRQ && kind != LD
    ensures Handle(kind, reading, desk) != ""
  {
  }

  /** A request that is read is answered by its handler. */
  lemma RespondRead(reader: Reader, q: Query, desk: Desk)
    requires QueryOk(q) && DeskOk(desk) && reader(PrintRequest(q)).Some?
    requires reader(PrintRequest(q)).value.handler == Some(KindOf(q)) && KindOf(q) != LD
    ensures Understood(reader, q)
    ensures Respond(reader, Encode(PrintRequest(q)), desk, None) == Handle(KindOf(q), reader(PrintRequest(q)).value, desk)
  {
    DecodeInverts(PrintRequest(q));
  }

  lemma DepartureReply(reader: Reader, day: Date, desk: Desk)
    requires Conforms(reader) && ValidDate(day) && DeskOk(desk)
    ensures Understood(reader, Departures(day))
    ensures Respond(reader, Encode(PrintRequest(Departures(day))), desk, None) ==
            DepartureRecords(DepartingRooms(desk.guests, DayRead(day)))
  {
    DeparturesRead(reader, day);
    RespondRead(reader, Departures(day), desk);
    DateReadsAs(day);
  }

  lemma DeparturesAnswered(reader: Reader, day: Date, desk: Desk)
    requires Conforms(reader) && ValidDate(day) && DeskOk(desk)
    ensures Understood(reader, Departures(day))
    ensures Respond(reader, Encode(PrintRequest(Departures(day))), desk, None) != "" <==> Departs(desk.guests, DayRead(day))
  {
    DepartureReply(reader, day, desk);
    DepartingRoomsIff(desk.guests, DayRead(day));
    DepartureRecordsEmptyIff(DepartingRooms(desk.guests, DayRead(day)));
  }

  lemma DepartureRecordsEmptyIff(rooms: seq<string>)
    ensures DepartureRecords(rooms) == "" <==> rooms == []
  {
    assert rooms != [] ==> |DepartureRecords(rooms)| > 0;
  }

  /** In terms of the texts: without quotes in them, a request is understood exactly when each reads as something. */
  lemma UnderstoodIff(reader: Reader, q: Query)
    requires Conforms(reader) && QueryOk(q) && QuoteFree(q)
    ensures Understood(reader, q) <==> Readable(q)
  {
    DecodeInverts(PrintRequest(q));
    RequestRead(reader, q);
  }

  lemma GuestQueryUnderstoodIff(reader: Reader, room: string, name: string)
    requires Conforms(reader) && '\"' !in room && '\"' !in name
    ensures Understood(reader, GuestQuery(room, name)) <==> Value(room).Some? && Value(name).Some?
  {
    var q := GuestQuery(room, name);
    assert QueryFields(q)[0].raw == room && QueryFields(q)[1].raw == name;
    UnderstoodIff(reader, q);
  }

  /** An ampersand that starts no reference makes the whole query unreadable. */
  lemma AmpersandUnread(reader: Reader, room: string)
    requires Conforms(reader) && '\"' !in room
    ensures !Understood(reader, GuestQuery(room, "A&B"))
  {
    AmpersandHasNoValue("A&B");
    GuestQueryUnderstoodIff(reader, room, "A&B");
  }

  lemma AmpersandHasNoValue(name: string)
    requires name == "A&B"
    ensures Value(name).None? && '\"' !in name
  {
    var rest := name[1..];
    NotPredefined(rest);
    assert name[0] == 'A' && Value(rest).None?;
  }

  lemma NotPredefined(text: string)
    requires text == "&B"
    ensures Reference(text).None? && text[0] == '&'
  {
    assert |text| == 2;
  }

  // ---- The request round trip ----

  /** The room and name the server reads from a guest query, if it reads it. */
  function ServerReads(room: string, name: string): Option<(string, string)> {
    match ParseElement(PrintRequest(GuestQuery(room, name)))
    case None => None
    case Some(e) => Some((OrEmpty(Get(e.attributes, "RoomNumber")), OrEmpty(Get(e.attributes, "LastName"))))
  }

  /** The server reads the room and the name that were asked for exactly when both can stand between quotes. */
  lemma RequestRoundTrip(room: string, name: string)
    ensures ServerReads(room, name) == Some((room, name)) <==> Faithful(room) && Faithful(name)
  {
    var q := GuestQuery(room, name);
    var fields := QueryFields(q);
    QueryNames(q);
    TagNames(GIQ);
    ElementOf("GIQ", fields);
    assert fields[0] == Field("RoomNumber", room) && fields[1] == Field("LastName", name);
    if '\"' in room {
      SpoiledQuery(fields, 0);
    } else if '\"' in name {
      SpoiledQuery(fields, 1);
    } else {
      FieldsRead(fields);
      ReadShape(fields);
      ValueOfSelf(room);
      ValueOfSelf(name);
      if ReadFields(fields).Some? {
        GetAt(ReadFields(fields).value, 0);
        GetAt(ReadFields(fields).value, 1);
      }
    }
  }

  lemma SpoiledQuery(fields: seq<Field>, k: nat)
    requires Named(fields) && DistinctFields(fields)
    requires k < |fields| && '\"' in fields[k].raw && forall i :: 0 <= i < k ==> '\"' !in fields[i].raw
    ensures var read := Attributes(PrintFields(fields));
            read.Some? ==> Get(read.value, fields[k].name) != Some(fields[k].raw) && Get(read.value, fields[k].name).Some?
  {
    QuoteSpoils(fields, k);
    var read := Attributes(PrintFields(fields));
    if read.Some? { GetAt(read.value, k); }
  }

  /** A conforming reader reads what was asked for, when that is faithful. */
  lemma FaithfulQuery(reader: Reader, room: string, name: string)
    requires Conforms(reader) && Faithful(room) && Faithful(name)
    ensures var r := reader(PrintRequest(GuestQuery(room, name)));
            && r.Some? && r.value.handler == Some(GIQ)
            && Attr(r.value, "RoomNumber") == room && Attr(r.value, "LastName") == name
  {
    var q := GuestQuery(room, name);
    var fields := QueryFields(q);
    assert fields[0] == Field("RoomNumber", room) && fields[1] == Field("LastName", name);
    assert |"RoomNumber"| == 10 && |"LastName"| == 8;
    ValueOfSelf(room);
    ValueOfSelf(name);
    RequestRead(reader, q);
    ReadShape(fields);
    GetAt(ReadFields(fields).value, 0);
    GetAt(ReadFields(fields).value, 1);
  }

  /** A query by room alone asks for an empty name, so it finds nobody who has one. */
  lemma RoomQueryFindsNobody(reader: Reader, room: string, desk: Desk)
    requires Conforms(reader) && Faithful(room) && DeskOk(desk)
    requires forall i :: 0 <= i < |desk.guests| ==> desk.guests[i].lastName != ""
    ensures Respond(reader, Encode(PrintRequest(RoomQuery(room))), desk, None) == PrintNotFound()
  {
    var q := RoomQuery(room);
    var fields := QueryFields(q);
    assert |"RoomNumber"| == 10 && |"LastName"| == 8;
    ValueOfSelf(room);
    RequestRead(reader, q);
    RespondRead(reader, q, desk);
    ReadShape(fields);
    GetAbsent(ReadFields(fields).value, "LastName");
  }

  // ---- A reader that conforms ----

  function ReadTag(text: string): Option<Reading> {
    match ParseElement(text)
    case None => None
    case Some(e) => Some(Reading(KindNamed(e.tag), e.attributes))
  }

  function KindNamed(tag: string): Option<Kind> {
    if tag == "LR" then Some(LR) else if tag == "KA" then Some(KA) else if tag == "GIQ" then Some(GIQ)
    else if tag == "DRQ" then Some(DRQ) else if tag == "LD" then Some(LD) else None
  }

  /** What is asked of a reader is not asked in vain. */
  lemma ReadTagConforms()
    ensures Conforms(ReadTag) && KeepsTags(ReadTag)
  {
    forall kind, fields: seq<Field>
      ensures ReadTag(PrintTag(TagName(kind), fields)) == TagReading(kind, fields)
    {
      TagNames(kind);
      ElementOf(TagName(kind), fields);
      KindNamedBack(kind);
    }
    forall q | QueryOk(q)
      ensures ReadTag(PrintRequest(q)).Some? ==> ReadTag(PrintRequest(q)).value.handler == Some(KindOf(q))
    {
      assert ReadTag(PrintTag(TagName(KindOf(q)), QueryFields(q))) == TagReading(KindOf(q), QueryFields(q));
    }
  }

  lemma KindNamedBack(kind: Kind)
    ensures KindNamed(TagName(kind)) == Some(kind)
  {
  }
}
