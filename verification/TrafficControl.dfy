/**
 The class id of a client and the search for its byte counter in the listing
 that `tc -s class show` prints.
 */
module TrafficControl {
  import opened Common
  import opened PortalState
  import opened Text

  /** The pattern's literal start, up to the minor number. */
  const HEAD := "class htb 1:"

  /** `class htb 1:<id>\b` matches here: nothing that could continue the number follows. */
  predicate HeadHere(text: string, id: string) {
    StartsWith(text, HEAD + id)
    && (|text| == |HEAD| + |id| || !IsWordChar(text[|HEAD| + |id|]))
  }

  /** `Sent (\d+) bytes` matches here. */
  predicate SentHere(text: string) {
    StartsWith(text, "Sent ")
    && LeadingDigits(text[5..]) != ""
    && StartsWith(text[5 + |LeadingDigits(text[5..])|..], " bytes")
  }

  /** The lazy `.*?`: the first place from here on where a count follows. */
  function FindSent(text: string): Option<nat>
    decreases |text|
  {
    if SentHere(text) then Some(Number(LeadingDigits(text[5..])))
    else if text == "" then None
    else FindSent(text[1..])
  }

  /** The leftmost match of the whole pattern. */
  function Search(text: string, id: string): Option<nat>
    decreases |text|
  {
    if text == "" then None
    else if HeadHere(text, id) && FindSent(text[|HEAD| + |id|..]).Some?
    then FindSent(text[|HEAD| + |id|..])
    else Search(text[1..], id)
  }

  function Counter(text: string, ip: Ip): nat
    requires ip.V4?
  {
    match Search(text, Decimal(ClassId(ip)))
    case Some(n) => n
    case None => 0
  }

  /** get_bytes: (bytes_up, bytes_down), or nothing where computing the class id raises. */
  function GetBytes(ip: Ip, wanListing: string, ifbListing: string): Option<(nat, nat)> {
    if ip.V4? then Some((Counter(ifbListing, ip), Counter(wanListing, ip))) else None
  }

  // ---- What tc prints ----

  /** One class: its number, the rest of its first line, its count, the rest of its lines. */
  datatype Block = Block(id: nat, header: string, sent: nat, trailer: string)

  predicate Plain(text: string) {
    'h' !in text && 'S' !in text
  }

  /** Neither part holds an `h` or an `S`, as in tc's rates, bursts, queues and tokens. */
  predicate WellFormed(b: Block) {
    Plain(b.header) && Plain(b.trailer) && b.header != "" && !IsWordChar(b.header[0])
  }

  function AfterId(b: Block): string {
    b.header + ("Sent " + (Decimal(b.sent) + (" bytes" + b.trailer)))
  }

  function Print(b: Block): string {
    HEAD + (Decimal(b.id) + AfterId(b))
  }

  function Listing(blocks: seq<Block>): string {
    if blocks == [] then "" else Print(blocks[0]) + Listing(blocks[1..])
  }

  function SentBy(blocks: seq<Block>, id: nat): Option<nat> {
    if blocks == [] then None
    else if blocks[0].id == id then Some(blocks[0].sent)
    else SentBy(blocks[1..], id)
  }

  // ---- The search finds the client's own block ----

  lemma {:induction false} SkipToSent(pre: string, rest: string)
    requires 'S' !in pre
    ensures FindSent(pre + rest) == FindSent(rest)
    decreases |pre|
  {
    if pre == "" {
      assert pre + rest == rest;
    } else {
      var text := pre + rest;
      assert text[0] == pre[0] != 'S';
      assert |text| >= 5 ==> text[..5][0] != 'S';
      assert text[1..] == pre[1..] + rest;
      SkipToSent(pre[1..], rest);
    }
  }

  lemma SentOfBlock(b: Block, rest: string)
    requires WellFormed(b)
    ensures FindSent(AfterId(b) + rest) == Some(b.sent)
  {
    var digits := Decimal(b.sent);
    var after := " bytes" + b.trailer + rest;
    var text := "Sent " + (digits + after);
    assert AfterId(b) + rest == b.header + text;
    SkipToSent(b.header, text);
    assert after == " bytes" + (b.trailer + rest);
    SentReadsBack(b.sent, b.trailer + rest);
  }

  lemma SentReadsBack(n: nat, rest: string)
    ensures FindSent("Sent " + (Decimal(n) + (" bytes" + rest))) == Some(n)
  {
    var digits, after := Decimal(n), " bytes" + rest;
    var text := "Sent " + (digits + after);
    StartsWithConcat("Sent ", digits + after);
    LeadingDigitsOf(digits, after);
    assert text[5 + |digits|..] == after;
    StartsWithConcat(" bytes", rest);
    NumberOfDecimal(n);
  }

  /** A number is recognised only where the whole of it stands, never where it is a prefix. */
  lemma HeadIffOwnId(b: Block, rest: string, id: nat)
    requires WellFormed(b)
    ensures HeadHere(Print(b) + rest, Decimal(id)) <==> b.id == id
  {
    var want, have := Decimal(id), Decimal(b.id);
    var tail := AfterId(b) + rest;
    assert Print(b) + rest == HEAD + (have + tail);
    assert tail[0] == b.header[0];
    WholeNumber(HEAD, want, have, tail);
    if want == have { DecimalInjective(id, b.id); }
  }

  /** After the same prefix, digits up to a non-word character are equal only if they are the same number. */
  lemma WholeNumber(head: string, want: string, have: string, tail: string)
    requires AllDigits(want) && AllDigits(have) && tail != "" && !IsWordChar(tail[0])
    ensures var text := head + (have + tail);
            var end := |head| + |want|;
            (StartsWith(text, head + want) && (end == |text| || !IsWordChar(text[end]))) <==> want == have
  {
    var text := head + (have + tail);
    var end := |head| + |want|;
    assert text[|head|..] == have + tail;
    assert |want| < |have| ==> text[end] == have[|want|] && IsDigit(text[end]);
    assert |want| > |have| ==> IsDigit(want[|have|]);
    assert (have + tail)[|have|] == tail[0];
    if StartsWith(text, head + want) && (end == |text| || !IsWordChar(text[end])) {
      assert want == (head + want)[|head|..] == text[..end][|head|..];
      assert want == (have + tail)[..|want|];
    }
    if want == have {
      assert text[..end] == head + want;
      assert text[end] == tail[0];
    }
  }

  lemma HeadNeedsH(text: string, id: string)
    requires HeadHere(text, id)
    ensures |text| > 6 && text[6] == 'h'
  {
    assert text[..|HEAD| + |id|][6] == (HEAD + id)[6] == 'h';
  }

  lemma {:induction false} SkipToBlock(pre: string, rest: string, id: string)
    requires forall k :: 6 <= k < |pre| ==> pre[k] != 'h'
    requires rest == "" || StartsWith(rest, HEAD)
    ensures Search(pre + rest, id) == Search(rest, id)
    decreases |pre|
  {
    if pre == "" {
      assert pre + rest == rest;
    } else {
      var text := pre + rest;
      assert |text| > 6 && |pre| <= 6 ==> text[6] == rest[6 - |pre|] == rest[..|HEAD|][6 - |pre|];
      assert !HeadHere(text, id) by {
        if HeadHere(text, id) { HeadNeedsH(text, id); }
      }
      assert text[1..] == pre[1..] + rest;
      SkipToBlock(pre[1..], rest, id);
    }
  }

  lemma ListingStart(blocks: seq<Block>)
    ensures Listing(blocks) == "" || StartsWith(Listing(blocks), HEAD)
  {
    if blocks != [] {
      var more := Decimal(blocks[0].id) + AfterId(blocks[0]) + Listing(blocks[1..]);
      assert Listing(blocks) == HEAD + more;
      StartsWithConcat(HEAD, more);
    }
  }

  lemma NoSecondHead(b: Block)
    requires WellFormed(b)
    ensures forall k :: 6 <= k < |Print(b)[1..]| ==> Print(b)[1..][k] != 'h'
  {
    var text := Print(b);
    var body := Decimal(b.id) + AfterId(b);
    forall k | 12 <= k < |text| ensures text[k] != 'h' {
      var c := body[k - 12];
      assert text[k] == c;
      assert c in body;
      assert "Sent " == ['S', 'e', 'n', 't', ' '];
      assert " bytes" == [' ', 'b', 'y', 't', 'e', 's'];
    }
  }

  lemma SearchHere(b: Block, rest: string)
    requires WellFormed(b)
    ensures Search(Print(b) + rest, Decimal(b.id)) == Some(b.sent)
  {
    var text := Print(b) + rest;
    HeadIffOwnId(b, rest, b.id);
    assert text == (HEAD + Decimal(b.id)) + (AfterId(b) + rest);
    StartsWithConcat(HEAD + Decimal(b.id), AfterId(b) + rest);
    SentOfBlock(b, rest);
  }

  /**
   On any listing of class blocks, the search for a number returns the count of the
   first block with exactly that number, and nothing when no block has it.
   */
  lemma {:induction false} SearchFindsOwnBlock(blocks: seq<Block>, id: nat)
    requires forall b :: b in blocks ==> WellFormed(b)
    ensures Search(Listing(blocks), Decimal(id)) == SentBy(blocks, id)
    decreases |blocks|
  {
    if blocks != [] {
      var b, rest := blocks[0], Listing(blocks[1..]);
      var text := Print(b) + rest;
      HeadIffOwnId(b, rest, id);
      if b.id == id {
        SearchHere(b, rest);
      } else {
        assert text[1..] == Print(b)[1..] + rest;
        NoSecondHead(b);
        ListingStart(blocks[1..]);
        SkipToBlock(Print(b)[1..], rest, Decimal(id));
        SearchFindsOwnBlock(blocks[1..], id);
      }
    }
  }

  /** Clients that share their first two octets never share a class, as numbers or as text. */
  lemma ClassIdsDistinct(x: Ip, y: Ip)
    requires x.V4? && y.V4? && x.a == y.a && x.b == y.b
    ensures Decimal(ClassId(x)) == Decimal(ClassId(y)) <==> x == y
  {
    if Decimal(ClassId(x)) == Decimal(ClassId(y)) {
      DecimalInjective(ClassId(x), ClassId(y));
    }
  }

  /** get_bytes reads up from ifb0 and down from the WAN, each from the client's own block, else 0. */
  lemma GetBytesReadsOwnBlocks(ip: Ip, wan: seq<Block>, ifb: seq<Block>)
    requires ip.V4?
    requires forall b :: b in wan || b in ifb ==> WellFormed(b)
    ensures var up := SentBy(ifb, ClassId(ip)); var down := SentBy(wan, ClassId(ip));
            GetBytes(ip, Listing(wan), Listing(ifb)) ==
            Some((if up.Some? then up.value else 0, if down.Some? then down.value else 0))
  {
    SearchFindsOwnBlock(wan, ClassId(ip));
    SearchFindsOwnBlock(ifb, ClassId(ip));
  }
}
