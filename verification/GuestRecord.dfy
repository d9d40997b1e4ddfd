/**
 The GI record: printed by the emulator's server, parsed by the portal's FIAS client.
 */
module GuestRecord {
  import opened Common
  import opened Text
  import opened Xml
  import opened Tags

  // ---- Dates ----

  datatype Date = Date(year: int, month: int, day: int)

  function DaysIn(year: int, month: int): int {
    if month == 2 then (if year % 4 == 0 && (year % 100 != 0 || year % 400 == 0) then 29 else 28)
    else if month in {4, 6, 9, 11} then 30 else 31
  }

  predicate ValidDate(d: Date) {
    1 <= d.year <= 9999 && 1 <= d.month <= 12 && 1 <= d.day <= DaysIn(d.year, d.month)
  }

  function TwoDigits(n: int): (text: string)
    requires 0 <= n < 100
    ensures |text| == 2 && AllDigits(text)
  {
    [DigitChar(n / 10), DigitChar(n % 10)]
  }

  function TwoDigitsValue(text: string): int
    requires |text| == 2 && AllDigits(text)
  {
    DigitValue(text[0]) * 10 + DigitValue(text[1])
  }

  /** strftime("%m-%d-%y") */
  function PrintDate(d: Date): (text: string)
    requires ValidDate(d)
  {
    TwoDigits(d.month) + "-" + TwoDigits(d.day) + "-" + TwoDigits(d.year % 100)
  }

  /** A month or day field of strptime: one or two digits, and for a day also a blank and a digit. */
  function DateField(text: string, blankAllowed: bool, max: int): Option<int> {
    if |text| == 1 && IsDigit(text[0]) && text[0] != '0' then Some(DigitValue(text[0]))
    else if |text| == 2 && AllDigits(text) && 1 <= TwoDigitsValue(text) <= max then Some(TwoDigitsValue(text))
    else if blankAllowed && |text| == 2 && text[0] == ' ' && IsDigit(text[1]) && text[1] != '0'
    then Some(DigitValue(text[1]))
    else None
  }

  /** The three fields between the dashes. */
  function DateFields(text: string): Option<(string, string, string)> {
    match IndexOf(text, '-')
    case None => None
    case Some(i) =>
      match IndexOf(text[i + 1..], '-')
      case None => None
      case Some(j) => Some((text[..i], text[i + 1..][..j], text[i + 1..][j + 1..]))
  }

  /** strptime(text, "%m-%d-%y"): two-digit years up to 68 are 20xx, the others 19xx. */
  function ParseDate(text: string): Option<Date> {
    match DateFields(text)
    case None => None
    case Some((month, day, year)) =>
      var m, d := DateField(month, false, 12), DateField(day, true, 31);
      if m.None? || d.None? || |year| != 2 || !AllDigits(year) then None
      else
        var yy := TwoDigitsValue(year);
        var date := Date(if yy <= 68 then 2000 + yy else 1900 + yy, m.value, d.value);
        if ValidDate(date) then Some(date) else None
  }

  predicate InCentury(d: Date) {
    1969 <= d.year <= 2068
  }

  lemma TwoDigitsRoundTrip(n: int)
    requires 0 <= n < 100
    ensures TwoDigitsValue(TwoDigits(n)) == n && '-' !in TwoDigits(n)
  {
    var text := TwoDigits(n);
    assert IsDigit(text[0]) && IsDigit(text[1]);
  }

  lemma FieldOfTwoDigits(n: int, blankAllowed: bool, max: int)
    requires 1 <= n <= max < 100
    ensures DateField(TwoDigits(n), blankAllowed, max) == Some(n)
  {
    TwoDigitsRoundTrip(n);
  }

  lemma FieldsOf(month: string, day: string, year: string)
    requires '-' !in month && '-' !in day
    ensures DateFields(month + "-" + day + "-" + year) == Some((month, day, year))
  {
    var text := month + "-" + day + "-" + year;
    var rest := day + "-" + year;
    assert text == month + ['-'] + rest;
    IndexOfConcat(month, '-', rest);
    assert text[..|month|] == month && text[|month| + 1..] == rest;
    IndexOfConcat(day, '-', year);
    assert rest == day + ['-'] + year;
    assert rest[..|day|] == day && rest[|day| + 1..] == year;
  }

  lemma DateChars(d: Date)
    requires ValidDate(d)
    ensures Faithful(PrintDate(d))
  {
    var text := PrintDate(d);
    assert |text| == 8;
    assert forall i :: 0 <= i < 8 ==> IsDigit(text[i]) || text[i] == '-';
  }

  /** A date survives the wire exactly when its year is in the hundred years the pivot covers. */
  lemma DateRoundTrip(d: Date)
    requires ValidDate(d)
    ensures ParseDate(PrintDate(d)) == Some(d) <==> InCentury(d)
  {
    TwoDigitsRoundTrip(d.month);
    TwoDigitsRoundTrip(d.day);
    TwoDigitsRoundTrip(d.year % 100);
    FieldOfTwoDigits(d.month, false, 12);
    FieldOfTwoDigits(d.day, true, 31);
    FieldsOf(TwoDigits(d.month), TwoDigits(d.day), TwoDigits(d.year % 100));
  }

  // ---- The record ----

  /** A guest of the emulator's database; a missing first name is empty. */
  datatype EmulatorGuest = EmulatorGuest(
    reservation: string, room: string, lastName: string, firstName: string, arrival: Date, departure: Date)

  datatype GuestInfo = GuestInfo(
    pmsId: string, room: string, lastName: string, firstName: Option<string>, checkIn: Date, checkOut: Date)

  /** _make_gi_response: names are escaped, reservation and room are not. */
  function Fields(g: EmulatorGuest): seq<Field>
    requires ValidDate(g.arrival) && ValidDate(g.departure)
  {
    [ Field("ReservationNumber", g.reservation), Field("RoomNumber", g.room), Field("LastName", Escape(g.lastName)) ]
    + (if g.firstName == "" then [] else [Field("FirstName", Escape(g.firstName))])
    + [ Field("ArrivalDate", PrintDate(g.arrival)), Field("DepartureDate", PrintDate(g.departure)) ]
  }

  function PrintGuest(g: EmulatorGuest): string
    requires ValidDate(g.arrival) && ValidDate(g.departure)
  {
    PrintTag("GI", Fields(g))
  }

  /** _parse_gi; None where it returns None, exceptions included. */
  function ParseGuest(text: string): Option<GuestInfo> {
    match ParseElement(text)
    case None => None
    case Some(e) =>
      if e.tag != "GI" then None
      else
        var arrival, departure := Get(e.attributes, "ArrivalDate"), Get(e.attributes, "DepartureDate");
        if arrival.None? || departure.None? then None
        else
          match (ParseDate(arrival.value), ParseDate(departure.value))
          case (Some(checkIn), Some(checkOut)) =>
            Some(GuestInfo(OrEmpty(Get(e.attributes, "ReservationNumber")), OrEmpty(Get(e.attributes, "RoomNumber")),
                           OrEmpty(Get(e.attributes, "LastName")), Get(e.attributes, "FirstName"), checkIn, checkOut))
          case _ => None
  }

  function Expected(g: EmulatorGuest): GuestInfo {
    GuestInfo(g.reservation, g.room, g.lastName,
              if g.firstName == "" then None else Some(g.firstName), g.arrival, g.departure)
  }

  /** What a caller can check of a guest before printing it. */
  predicate Printable(g: EmulatorGuest) {
    && Faithful(g.reservation) && Faithful(g.room)
    && PlainText(g.lastName) && PlainText(g.firstName)
    && InCentury(g.arrival) && InCentury(g.departure)
  }

  // ---- Reading the record back ----

  lemma AttributeNames()
    ensures IsName("ReservationNumber") && IsName("RoomNumber") && IsName("LastName")
    ensures IsName("FirstName") && IsName("ArrivalDate") && IsName("DepartureDate")
  {
  }

  function NamesOf(fields: seq<Field>): seq<string> {
    seq(|fields|, i requires 0 <= i < |fields| => fields[i].name)
  }

  lemma {:induction false} NamesListed(g: EmulatorGuest)
    requires ValidDate(g.arrival) && ValidDate(g.departure)
    ensures NamesOf(Fields(g)) ==
            if g.firstName == "" then ["ReservationNumber", "RoomNumber", "LastName", "ArrivalDate", "DepartureDate"]
            else ["ReservationNumber", "RoomNumber", "LastName", "FirstName", "ArrivalDate", "DepartureDate"]
  {
  }

  /** The six names are names, and no two have the same length. */
  lemma {:induction false} FieldNames(g: EmulatorGuest)
    requires ValidDate(g.arrival) && ValidDate(g.departure)
    ensures Named(Fields(g))
    ensures forall i, j :: 0 <= i < j < |Fields(g)| ==> Fields(g)[i].name != Fields(g)[j].name
    ensures g.firstName == "" ==> forall i :: 0 <= i < |Fields(g)| ==> Fields(g)[i].name != "FirstName"
  {
    AttributeNames();
    NamesListed(g);
    var names := NamesOf(Fields(g));
    assert forall i :: 0 <= i < |names| ==> IsName(names[i]) && names[i] == Fields(g)[i].name;
    assert forall i, j :: 0 <= i < j < |names| ==> |names[i]| != |names[j]|;
    assert g.firstName == "" ==> forall i :: 0 <= i < |names| ==> |names[i]| != 9;
  }

  lemma GuestElement(g: EmulatorGuest)
    requires ValidDate(g.arrival) && ValidDate(g.departure)
    ensures var read := Attributes(PrintFields(Fields(g)));
            ParseElement(PrintGuest(g)) ==
            if read.Some? && DistinctNames(read.value) then Some(Element("GI", read.value)) else None
  {
    ElementOf("GI", Fields(g));
  }

  /** Field by field, the record reads back as the guest. */
  lemma {:induction false} CleanFields(g: EmulatorGuest)
    requires ValidDate(g.arrival) && ValidDate(g.departure) && Quotable(Fields(g))
    ensures var read := Attributes(PrintFields(Fields(g)));
            read == ReadFields(Fields(g))
            && (read.Some? ==> DistinctNames(read.value))
  {
    FieldNames(g);
    FieldsRead(Fields(g));
    ReadShape(Fields(g));
  }

  /** Which fields the parser looks up, by position. */
  lemma {:induction false} Lookups(g: EmulatorGuest, attributes: seq<Attribute>)
    requires ValidDate(g.arrival) && ValidDate(g.departure)
    requires |attributes| == |Fields(g)| && forall i :: 0 <= i < |attributes| ==> attributes[i].name == Fields(g)[i].name
    ensures var n := |attributes|;
            && Get(attributes, "ReservationNumber") == Some(attributes[0].value)
            && Get(attributes, "RoomNumber") == Some(attributes[1].value)
            && Get(attributes, "LastName") == Some(attributes[2].value)
            && Get(attributes, "FirstName") == (if g.firstName == "" then None else Some(attributes[3].value))
            && Get(attributes, "ArrivalDate") == Some(attributes[n - 2].value)
            && Get(attributes, "DepartureDate") == Some(attributes[n - 1].value)
  {
    FieldNames(g);
    NamesListed(g);
    var n := |attributes|;
    GetAt(attributes, 0);
    GetAt(attributes, 1);
    GetAt(attributes, 2);
    GetAt(attributes, n - 2);
    GetAt(attributes, n - 1);
    if g.firstName == "" { GetAbsent(attributes, "FirstName"); } else { GetAt(attributes, 3); }
  }

  /** The values between the quotes, in the order of the record; the first name's may be missing. */
  predicate AllReadable(g: EmulatorGuest) {
    && Value(g.reservation).Some? && Value(g.room).Some? && Value(Escape(g.lastName)).Some?
    && (g.firstName != "" ==> Value(Escape(g.firstName)).Some?)
  }

  lemma DatesReadable(g: EmulatorGuest)
    requires ValidDate(g.arrival) && ValidDate(g.departure)
    ensures Value(PrintDate(g.arrival)) == Some(PrintDate(g.arrival))
    ensures Value(PrintDate(g.departure)) == Some(PrintDate(g.departure))
  {
    DateChars(g.arrival);
    DateChars(g.departure);
    ValueOfSelf(PrintDate(g.arrival));
    ValueOfSelf(PrintDate(g.departure));
  }

  lemma ReadableFields(g: EmulatorGuest)
    requires ValidDate(g.arrival) && ValidDate(g.departure)
    ensures ReadFields(Fields(g)).Some? <==> AllReadable(g)
  {
    var fields := Fields(g);
    ReadShape(fields);
    DatesReadable(g);
    assert fields[0].raw == g.reservation && fields[1].raw == g.room && fields[2].raw == Escape(g.lastName);
    if g.firstName == "" {
      assert |fields| == 5 && fields[3].raw == PrintDate(g.arrival) && fields[4].raw == PrintDate(g.departure);
    } else {
      assert |fields| == 6 && fields[3].raw == Escape(g.firstName);
      assert fields[4].raw == PrintDate(g.arrival) && fields[5].raw == PrintDate(g.departure);
    }
  }

  /** What the parser finds when every field can be read. */
  lemma FoundFields(g: EmulatorGuest)
    requires ValidDate(g.arrival) && ValidDate(g.departure) && AllReadable(g)
    ensures ReadFields(Fields(g)).Some?
    ensures var found := ReadFields(Fields(g)).value;
            && Get(found, "ReservationNumber") == Value(g.reservation)
            && Get(found, "RoomNumber") == Value(g.room)
            && Get(found, "LastName") == Value(Escape(g.lastName))
            && Get(found, "FirstName") == (if g.firstName == "" then None else Value(Escape(g.firstName)))
            && Get(found, "ArrivalDate") == Some(PrintDate(g.arrival))
            && Get(found, "DepartureDate") == Some(PrintDate(g.departure))
  {
    var fields := Fields(g);
    ReadableFields(g);
    ReadShape(fields);
    DatesReadable(g);
    Lookups(g, ReadFields(fields).value);
    assert fields[|fields| - 2].raw == PrintDate(g.arrival) && fields[|fields| - 1].raw == PrintDate(g.departure);
    assert fields[0].raw == g.reservation && fields[1].raw == g.room && fields[2].raw == Escape(g.lastName);
    assert g.firstName != "" ==> fields[3].raw == Escape(g.firstName);
  }

  /** With no quote in the unescaped fields, this is what the parser makes of the record. */
  lemma ParsedQuotable(g: EmulatorGuest)
    requires ValidDate(g.arrival) && ValidDate(g.departure) && Quotable(Fields(g))
    ensures ParseGuest(PrintGuest(g)) ==
            if !AllReadable(g) then None
            else match (ParseDate(PrintDate(g.arrival)), ParseDate(PrintDate(g.departure)))
                 case (Some(checkIn), Some(checkOut)) =>
                   Some(GuestInfo(Value(g.reservation).value, Value(g.room).value, Value(Escape(g.lastName)).value,
                                  if g.firstName == "" then None else Value(Escape(g.firstName)), checkIn, checkOut))
                 case _ => None
  {
    CleanFields(g);
    GuestElement(g);
    ReadableFields(g);
    if AllReadable(g) { FoundFields(g); }
  }

  lemma QuotableRoundTrip(g: EmulatorGuest)
    requires ValidDate(g.arrival) && ValidDate(g.departure) && Quotable(Fields(g))
    requires '\"' !in g.reservation && '\"' !in g.room
    ensures ParseGuest(PrintGuest(g)) == Some(Expected(g)) <==> Printable(g)
  {
    ParsedQuotable(g);
    ValueOfSelf(g.reservation);
    ValueOfSelf(g.room);
    EscapeRoundTrip(g.lastName);
    EscapeRoundTrip(g.firstName);
    DateRoundTrip(g.arrival);
    DateRoundTrip(g.departure);
  }

  lemma QuotableFields(g: EmulatorGuest)
    requires ValidDate(g.arrival) && ValidDate(g.departure)
    ensures forall i :: 2 <= i < |Fields(g)| ==> '\"' !in Fields(g)[i].raw
    ensures Quotable(Fields(g)) <==> '\"' !in g.reservation && '\"' !in g.room
  {
    var fields := Fields(g);
    EscapedHasNoMarkup(g.lastName);
    EscapedHasNoMarkup(g.firstName);
    DateChars(g.arrival);
    DateChars(g.departure);
    assert fields[0].raw == g.reservation && fields[1].raw == g.room && fields[2].raw == Escape(g.lastName);
  }

  /** A quote in the reservation or the room number, printed unescaped, always spoils the record. */
  lemma SpoiledRecord(g: EmulatorGuest, k: nat)
    requires ValidDate(g.arrival) && ValidDate(g.departure)
    requires k < 2 && '\"' in Fields(g)[k].raw && forall i :: 0 <= i < k ==> '\"' !in Fields(g)[i].raw
    ensures ParseGuest(PrintGuest(g)) != Some(Expected(g))
  {
    var fields := Fields(g);
    FieldNames(g);
    QuoteSpoils(fields, k);
    GuestElement(g);
    var read := Attributes(PrintFields(fields));
    assert fields[0] == Field("ReservationNumber", g.reservation) && fields[1] == Field("RoomNumber", g.room);
    if read.Some? { GetAt(read.value, k); }
  }

  /**
   The round trip, for every guest: parsing the printed record gives the guest back exactly
   when its texts are plain, the two unescaped ones hold no markup, and both years are in
   the century of the two-digit pivot.
   */
  lemma GuestRoundTrip(g: EmulatorGuest)
    requires ValidDate(g.arrival) && ValidDate(g.departure)
    ensures ParseGuest(PrintGuest(g)) == Some(Expected(g)) <==> Printable(g)
  {
    QuotableFields(g);
    assert Fields(g)[0].raw == g.reservation && Fields(g)[1].raw == g.room;
    if '\"' in g.reservation {
      SpoiledRecord(g, 0);
    } else if '\"' in g.room {
      SpoiledRecord(g, 1);
    } else {
      QuotableRoundTrip(g);
    }
  }

  /** For one, a reservation with a bare ampersand, or a year past the pivot, never comes back. */
  lemma SpoiledGuests(g: EmulatorGuest)
    requires ValidDate(g.arrival) && ValidDate(g.departure)
    ensures g.reservation == "A&B" || g.departure.year == 2069 ==> ParseGuest(PrintGuest(g)) != Some(Expected(g))
  {
    GuestRoundTrip(g);
    assert "A&B"[1] == '&';
  }

  /** The server's answer when nobody is found has no dates, and parses to nothing. */
  function PrintNotFound(): string {
    PrintTag("GI", [Field("Result", "NOT_FOUND")])
  }

  lemma NotFoundParses()
    ensures ParseGuest(PrintNotFound()) == None
  {
    var fields := [Field("Result", "NOT_FOUND")];
    assert Named(fields) by { assert IsName("Result"); }
    ElementOf("GI", fields);
    FieldsRead(fields);
    ReadShape(fields);
    if ReadFields(fields).Some? {
      assert ReadFields(fields).value[0].name == "Result";
      assert |"Result"| == 6 && |"ArrivalDate"| == 11;
      GetAbsent(ReadFields(fields).value, "ArrivalDate");
    }
  }
}
