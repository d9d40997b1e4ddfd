/**
 Re-framing: the server turns an arbitrary sequence of socket reads back into the
 CRLF-terminated records of the stream.
 */
module Framing {
  import opened Common

  type Byte = x: int | 0 <= x < 256
  type Bytes = seq<Byte>

  const CR: Byte := 13
  const LF: Byte := 10
  const CRLF: Bytes := [CR, LF]

  predicate CrlfAt(s: Bytes, i: int) {
    0 <= i && i + 1 < |s| && s[i] == CR && s[i + 1] == LF
  }

  predicate HasCrlf(s: Bytes) {
    exists i :: 0 <= i < |s| && CrlfAt(s, i)
  }

  /** Where the first CRLF is. */
  function Cut(s: Bytes): (at: Option<nat>)
    ensures at.Some? ==> at.value + 1 < |s|
    decreases |s|
  {
    if |s| < 2 then None
    else if CrlfAt(s, 0) then Some(0)
    else
      match Cut(s[1..])
      case None => None
      case Some(i) => Some(i + 1)
  }

  lemma {:induction false} CutIsFirst(s: Bytes)
    ensures Cut(s).Some? <==> HasCrlf(s)
    ensures Cut(s).Some? ==> CrlfAt(s, Cut(s).value) && forall i :: 0 <= i < Cut(s).value ==> !CrlfAt(s, i)
    decreases |s|
  {
    if |s| >= 2 && !CrlfAt(s, 0) {
      CutIsFirst(s[1..]);
      assert forall i :: 1 <= i < |s| ==> CrlfAt(s, i) == CrlfAt(s[1..], i - 1);
      if HasCrlf(s) {
        var i :| 0 <= i < |s| && CrlfAt(s, i);
        assert CrlfAt(s[1..], i - 1);
      }
      if Cut(s).Some? { assert CrlfAt(s, Cut(s).value); }
    }
  }

  /** Everything before each CRLF, and what follows the last one. */
  function Pieces(s: Bytes): seq<Bytes>
    decreases |s|
  {
    match Cut(s)
    case None => []
    case Some(i) => [s[..i]] + Pieces(s[i + 2..])
  }

  function Rest(s: Bytes): (rest: Bytes)
    ensures Cut(rest).None?
    decreases |s|
  {
    match Cut(s)
    case None => s
    case Some(i) => Rest(s[i + 2..])
  }

  function NonEmpty(pieces: seq<Bytes>): seq<Bytes> {
    if pieces == [] then []
    else (if pieces[0] == [] then [] else [pieces[0]]) + NonEmpty(pieces[1..])
  }

  /** The records of a stream. */
  function Records(s: Bytes): seq<Bytes> {
    NonEmpty(Pieces(s))
  }

  // ---- The reference: writing records out ----

  function Frame(pieces: seq<Bytes>, rest: Bytes): Bytes {
    if pieces == [] then rest else pieces[0] + CRLF + Frame(pieces[1..], rest)
  }

  lemma {:induction false} CutAt(p: Bytes, more: Bytes)
    requires !HasCrlf(p)
    ensures Cut(p + CRLF + more) == Some(|p|)
    decreases |p|
  {
    var s := p + CRLF + more;
    if p == [] {
      assert CrlfAt(s, 0);
    } else {
      assert CrlfAt(s, 0) ==> CrlfAt(p, 0);
      assert s[1..] == p[1..] + CRLF + more;
      assert forall i :: CrlfAt(p[1..], i) ==> CrlfAt(p, i + 1);
      CutAt(p[1..], more);
    }
  }

  /** Framing is inverted exactly: any CRLF-free pieces and tail come back, in order, however many are empty. */
  lemma {:induction false} FrameRoundTrip(pieces: seq<Bytes>, rest: Bytes)
    requires (forall p :: p in pieces ==> !HasCrlf(p)) && !HasCrlf(rest)
    ensures Pieces(Frame(pieces, rest)) == pieces && Rest(Frame(pieces, rest)) == rest
    decreases |pieces|
  {
    CutIsFirst(rest);
    if pieces != [] {
      var p, more := pieces[0], Frame(pieces[1..], rest);
      CutAt(p, more);
      assert (p + CRLF + more)[..|p|] == p && (p + CRLF + more)[|p| + 2..] == more;
      FrameRoundTrip(pieces[1..], rest);
    }
  }

  /** Nothing of the stream is lost or invented. */
  lemma {:induction false} PiecesLossless(s: Bytes)
    ensures Frame(Pieces(s), Rest(s)) == s
    ensures forall p :: p in Pieces(s) ==> !HasCrlf(p)
    decreases |s|
  {
    match Cut(s)
    case None =>
    case Some(i) =>
      PiecesLossless(s[i + 2..]);
      CutIsFirst(s);
      assert s == s[..i] + CRLF + s[i + 2..];
      assert forall j :: CrlfAt(s[..i], j) ==> CrlfAt(s, j);
  }

  lemma {:induction false} NonEmptyConcat(a: seq<Bytes>, b: seq<Bytes>)
    ensures NonEmpty(a + b) == NonEmpty(a) + NonEmpty(b)
    decreases |a|
  {
    if a == [] {
      assert a + b == b;
    } else {
      assert (a + b)[1..] == a[1..] + b;
      NonEmptyConcat(a[1..], b);
    }
  }

  lemma {:induction false} CutAppend(a: Bytes, b: Bytes)
    requires Cut(a).Some?
    ensures Cut(a + b) == Cut(a)
    decreases |a|
  {
    if !CrlfAt(a, 0) {
      assert (a + b)[1..] == a[1..] + b;
      CutAppend(a[1..], b);
    }
  }

  lemma PiecesUnfold(s: Bytes)
    requires Cut(s).Some?
    ensures var i := Cut(s).value; Pieces(s) == [s[..i]] + Pieces(s[i + 2..]) && Rest(s) == Rest(s[i + 2..])
  {
  }

  lemma ConcatAssociates(a: seq<Bytes>, b: seq<Bytes>, c: seq<Bytes>)
    ensures a + (b + c) == (a + b) + c
  {
  }

  /** Taking one piece off the front, empty or not. */
  lemma RecordsUnfold(s: Bytes)
    requires Cut(s).Some?
    ensures var i := Cut(s).value;
            Records(s) == (if s[..i] == [] then [] else [s[..i]]) + Records(s[i + 2..]) && Rest(s) == Rest(s[i + 2..])
  {
    var i := Cut(s).value;
    PiecesUnfold(s);
    assert Pieces(s)[1..] == Pieces(s[i + 2..]);
  }

  lemma StoppedNext(records: seq<Bytes>, more: seq<Bytes>, stops: Bytes -> bool)
    ensures Stopped(records + more, stops) <==> Stopped(records, stops) || Stopped(more, stops)
  {
    assert forall r :: r in records + more <==> r in records || r in more;
  }

  lemma StoppedOne(record: Bytes, stops: Bytes -> bool)
    ensures Stopped([record], stops) <==> stops(record)
  {
    assert record in [record];
  }

  /** Reading on from the leftover is the same as having had it all at once. */
  lemma {:induction false} PiecesAppend(a: Bytes, b: Bytes)
    ensures Pieces(a + b) == Pieces(a) + Pieces(Rest(a) + b)
    ensures Rest(a + b) == Rest(Rest(a) + b)
    decreases |a|
  {
    if Cut(a).None? {
      assert [] + Pieces(a + b) == Pieces(a + b);
    } else {
      var i := Cut(a).value;
      var later := a[i + 2..];
      var more := Rest(later) + b;
      CutAppend(a, b);
      assert (a + b)[..i] == a[..i] && (a + b)[i + 2..] == later + b;
      PiecesAppend(later, b);
      PiecesUnfold(a);
      PiecesUnfold(a + b);
      ConcatAssociates([a[..i]], Pieces(later), Pieces(more));
    }
  }

  // ---- The connection loop ----

  /** One socket read: it may time out, and an empty one means the client is gone. */
  datatype Read = Timeout | Data(bytes: Bytes)

  function Stream(input: seq<Read>): Bytes {
    if input == [] then []
    else
      var last := input[|input| - 1];
      Stream(input[..|input| - 1]) + (if last.Data? then last.bytes else [])
  }

  /** Some record so far made the handler stop. */
  ghost predicate Stopped(records: seq<Bytes>, stops: Bytes -> bool) {
    exists r :: r in records && stops(r)
  }

  ghost predicate Goes(input: seq<Read>, n: nat, stops: Bytes -> bool)
    requires n < |input|
  {
    input[n] != Data([]) && !Stopped(Records(Stream(input[..n])), stops)
  }

  /** How many reads are taken: up to the first that is empty or finds the handler stopped. */
  ghost function TakenFrom(input: seq<Read>, n: nat, stops: Bytes -> bool): (taken: nat)
    requires n <= |input|
    ensures n <= taken <= |input|
    decreases |input| - n
  {
    if n == |input| || !Goes(input, n, stops) then n else TakenFrom(input, n + 1, stops)
  }

  /** What a connection comes to: the records handed on, in order, and what is left in the buffer. */
  ghost function Served(input: seq<Read>, stops: Bytes -> bool): (seq<Bytes>, Bytes) {
    var stream := Stream(input[..TakenFrom(input, 0, stops)]);
    (Records(stream), Rest(stream))
  }

  lemma {:induction false} TakenIs(input: seq<Read>, n: nat, taken: nat, stops: Bytes -> bool)
    requires n <= taken <= |input| && (forall k :: n <= k < taken ==> Goes(input, k, stops))
    requires taken == |input| || !Goes(input, taken, stops)
    ensures TakenFrom(input, n, stops) == taken
    decreases taken - n
  {
    if n < taken { TakenIs(input, n + 1, taken, stops); }
  }

  /** The inner loop: every complete record in the buffer is handed on, empty lines are not. */
  method Drain(all: Bytes, stops: Bytes -> bool) returns (records: seq<Bytes>, buffer: Bytes, stop: bool)
    ensures records == Records(all) && buffer == Rest(all)
    ensures stop <==> Stopped(records, stops)
  {
    records, buffer, stop := [], all, false;
    while Cut(buffer).Some?
      invariant records + Records(buffer) == Records(all)
      invariant Rest(buffer) == Rest(all)
      invariant stop <==> Stopped(records, stops)
      decreases |buffer|
    {
      var at := Cut(buffer).value;
      var line := buffer[..at];
      RecordsUnfold(buffer);
      StoppedNext(records, [line], stops);
      StoppedOne(line, stops);
      buffer := buffer[at + 2..];
      if line == [] {
        assert [] + Records(buffer) == Records(buffer);
        continue;
      }
      assert records + ([line] + Records(buffer)) == (records + [line]) + Records(buffer);
      records := records + [line];
      if stops(line) { stop := true; }
    }
    assert records + [] == records;
  }

  lemma StreamStep(input: seq<Read>, n: nat)
    requires n < |input|
    ensures Stream(input[..n + 1]) == Stream(input[..n]) + (if input[n].Data? then input[n].bytes else [])
  {
    assert input[..n + 1][..n] == input[..n];
  }

  lemma RecordsStep(stream: Bytes, more: Bytes)
    ensures Records(stream + more) == Records(stream) + Records(Rest(stream) + more)
    ensures Rest(stream + more) == Rest(Rest(stream) + more)
  {
    PiecesAppend(stream, more);
    NonEmptyConcat(Pieces(stream), Pieces(Rest(stream) + more));
  }

  /**
   _handle_connection_loop.  It takes reads until one is empty or a record has stopped
   the handler; the records handed on are those of the whole stream it took, and the
   buffer is the stream's unterminated tail.
   */
  method HandleConnection(input: seq<Read>, stops: Bytes -> bool)
    returns (records: seq<Bytes>, buffer: Bytes, taken: nat)
    ensures taken <= |input|
    ensures records == Records(Stream(input[..taken])) && buffer == Rest(Stream(input[..taken]))
    ensures (records, buffer) == Served(input, stops)
    ensures !HasCrlf(buffer)
    ensures forall n :: 0 <= n < taken ==> Goes(input, n, stops)
    ensures taken == |input| || !Goes(input, taken, stops)
  {
    records, buffer, taken := [], [], 0;
    var running := true;
    assert Stream(input[..0]) == [];
    while running && taken < |input|
      invariant taken <= |input|
      invariant records == Records(Stream(input[..taken])) && buffer == Rest(Stream(input[..taken]))
      invariant running <==> !Stopped(records, stops)
      invariant forall n :: 0 <= n < taken ==> Goes(input, n, stops)
      decreases |input| - taken
    {
      var read := input[taken];
      StreamStep(input, taken);
      if read == Data([]) { break; }
      assert Goes(input, taken, stops);
      if read.Data? {
        RecordsStep(Stream(input[..taken]), read.bytes);
        var more, rest, stop := Drain(buffer + read.bytes, stops);
        StoppedNext(records, more, stops);
        records, buffer, running := records + more, rest, !stop;
      } else {
        assert Stream(input[..taken]) + [] == Stream(input[..taken]);
      }
      taken := taken + 1;
    }
    CutIsFirst(buffer);
    TakenIs(input, 0, taken, stops);
  }

  lemma StopsForGood(a: Bytes, b: Bytes, stops: Bytes -> bool)
    requires Stopped(Records(a), stops)
    ensures Stopped(Records(a + b), stops)
  {
    PiecesAppend(a, b);
    NonEmptyConcat(Pieces(a), Pieces(Rest(a) + b));
    var r :| r in Records(a) && stops(r);
    assert r in Records(a + b);
  }

  lemma {:induction false} StreamFrom(input: seq<Read>, n: nat) returns (more: Bytes)
    requires n <= |input|
    ensures Stream(input) == Stream(input[..n]) + more
    decreases |input|
  {
    if n == |input| {
      assert input[..n] == input;
      more := [];
    } else {
      var before, last := input[..|input| - 1], input[|input| - 1];
      assert before[..n] == input[..n];
      more := StreamFrom(before, n);
      more := more + (if last.Data? then last.bytes else []);
    }
  }

  ghost predicate NoEof(input: seq<Read>) {
    forall n :: 0 <= n < |input| ==> input[n] != Data([])
  }

  /**
   However a stream is split into non-empty reads, a handler that no record of it stops is
   handed the same records, those of the whole stream, and keeps the same tail.
   */
  lemma ChunkingIndependent(a: seq<Read>, b: seq<Read>, stops: Bytes -> bool)
    requires NoEof(a) && NoEof(b) && Stream(a) == Stream(b)
    requires !Stopped(Records(Stream(a)), stops)
    ensures Served(a, stops) == Served(b, stops) == (Records(Stream(a)), Rest(Stream(a)))
  {
    WholeStreamServed(a, stops);
    WholeStreamServed(b, stops);
  }

  lemma WholeStreamServed(input: seq<Read>, stops: Bytes -> bool)
    requires NoEof(input) && !Stopped(Records(Stream(input)), stops)
    ensures Served(input, stops) == (Records(Stream(input)), Rest(Stream(input)))
  {
    AllTaken(input, stops);
    TakenIs(input, 0, |input|, stops);
    assert input[..|input|] == input;
  }

  lemma AllTaken(input: seq<Read>, stops: Bytes -> bool)
    requires NoEof(input) && !Stopped(Records(Stream(input)), stops)
    ensures forall n :: 0 <= n < |input| ==> Goes(input, n, stops)
  {
    forall n | 0 <= n < |input| ensures Goes(input, n, stops) {
      var more := StreamFrom(input, n);
      if Stopped(Records(Stream(input[..n])), stops) {
        StopsForGood(Stream(input[..n]), more, stops);
      }
    }
  }
}
