/** Text files as Python's text mode reads them, line by line. */
module TextFile {
  import opened Text

  predicate IsBreak(c: char) {
    c == '\n' || c == '\r'
  }

  predicate Unbroken(text: string) {
    forall i :: 0 <= i < |text| ==> !IsBreak(text[i])
  }

  /** The text up to the first line end. */
  function FirstLine(text: string): (line: string)
    ensures StartsWith(text, line) && Unbroken(line)
    ensures |line| < |text| ==> IsBreak(text[|line|])
  {
    if text == "" || IsBreak(text[0]) then "" else [text[0]] + FirstLine(text[1..])
  }

  /** What follows the first line end; a carriage return and a newline end one line together. */
  function AfterLine(text: string): (rest: string)
    ensures |rest| < |text| || text == rest == ""
  {
    var at := |FirstLine(text)|;
    if at == |text| then ""
    else if text[at] == '\r' && at + 1 < |text| && text[at + 1] == '\n' then text[at + 2..]
    else text[at + 1..]
  }

  /** The lines of a file opened in text mode. */
  function Lines(text: string): seq<string>
    decreases |text|
  {
    if text == "" then [] else [FirstLine(text)] + Lines(AfterLine(text))
  }

  function Joined(lines: seq<string>): string {
    if lines == [] then "" else lines[0] + "\n" + Joined(lines[1..])
  }

  lemma {:induction false} FirstLineOf(line: string, rest: string)
    requires Unbroken(line)
    ensures FirstLine(line + "\n" + rest) == line && AfterLine(line + "\n" + rest) == rest
    decreases |line|
  {
    var text := line + "\n" + rest;
    if line != "" {
      assert text[1..] == line[1..] + "\n" + rest;
      FirstLineOf(line[1..], rest);
    }
    assert text[|line|] == '\n' && text[|line| + 1..] == rest;
  }

  lemma LinesCons(line: string, rest: string)
    requires Unbroken(line)
    ensures Lines(line + "\n" + rest) == [line] + Lines(rest)
  {
    FirstLineOf(line, rest);
  }

  lemma {:induction false} LinesOfJoined(lines: seq<string>)
    requires forall i :: 0 <= i < |lines| ==> Unbroken(lines[i])
    ensures Lines(Joined(lines)) == lines
    decreases |lines|
  {
    if lines != [] {
      LinesCons(lines[0], Joined(lines[1..]));
      LinesOfJoined(lines[1..]);
    }
  }

  lemma {:induction false} LinesUnbroken(text: string)
    ensures forall i :: 0 <= i < |Lines(text)| ==> Unbroken(Lines(text)[i])
    decreases |text|
  {
    if text != "" { LinesUnbroken(AfterLine(text)); }
  }

  // ---- Lines with their line ends ----

  predicate Terminated(line: string) {
    line != "" && line[|line| - 1] == '\n' && Unbroken(line[..|line| - 1])
  }

  /** readlines(): every line but perhaps the last ends with a newline. */
  function ReadLines(text: string): seq<string>
    decreases |text|
  {
    if text == "" then []
    else if |FirstLine(text)| == |text| then [text]
    else [FirstLine(text) + "\n"] + ReadLines(AfterLine(text))
  }

  /** writelines() */
  function Concat(lines: seq<string>): string {
    if lines == [] then "" else lines[0] + Concat(lines[1..])
  }

  /** The shape readlines gives, which writing and reading keep. */
  predicate FileShape(lines: seq<string>) {
    && (forall i :: 0 <= i < |lines| - 1 ==> Terminated(lines[i]))
    && (lines != [] ==> var last := lines[|lines| - 1]; Terminated(last) || (last != "" && Unbroken(last)))
  }

  lemma UnbrokenIsOneLine(text: string)
    requires Unbroken(text)
    ensures FirstLine(text) == text
  {
  }

  lemma ShapeCons(line: string, lines: seq<string>)
    requires Terminated(line) && FileShape(lines)
    ensures FileShape([line] + lines)
  {
    var all := [line] + lines;
    assert lines != [] ==> all[|all| - 1] == lines[|lines| - 1];
  }

  lemma EndedLine(line: string)
    requires Unbroken(line)
    ensures Terminated(line + "\n")
  {
    assert (line + "\n")[..|line|] == line;
  }

  lemma {:induction false} ReadLinesShape(text: string)
    ensures FileShape(ReadLines(text))
    ensures text != "" ==> ReadLines(text) != []
    decreases |text|
  {
    if text != "" {
      var first, rest := FirstLine(text), AfterLine(text);
      if |first| < |text| {
        ReadLinesShape(rest);
        EndedLine(first);
        ShapeCons(first + "\n", ReadLines(rest));
      }
    }
  }

  lemma ReadOne(line: string, rest: string)
    requires Terminated(line)
    ensures ReadLines(line + rest) == [line] + ReadLines(rest)
  {
    var body := line[..|line| - 1];
    assert line == body + "\n";
    assert line + rest == body + "\n" + rest;
    FirstLineOf(body, rest);
  }

  lemma {:induction false} ReadLinesOfConcat(lines: seq<string>)
    requires FileShape(lines)
    ensures ReadLines(Concat(lines)) == lines
    decreases |lines|
  {
    if lines != [] {
      var rest := lines[1..];
      assert forall i :: 0 <= i < |rest| ==> rest[i] == lines[i + 1];
      ReadLinesOfConcat(rest);
      if Terminated(lines[0]) {
        ReadOne(lines[0], Concat(rest));
      } else {
        assert rest == [];
        assert Concat(lines) == lines[0];
        UnbrokenIsOneLine(lines[0]);
      }
    }
  }

  lemma {:induction false} ConcatAppend(a: seq<string>, b: seq<string>)
    ensures Concat(a + b) == Concat(a) + Concat(b)
    decreases |a|
  {
    if a == [] {
      assert a + b == b;
    } else {
      assert (a + b)[1..] == a[1..] + b;
      ConcatAppend(a[1..], b);
    }
  }

  /** Text that ends with a newline has only terminated lines. */
  lemma {:induction false} EndsTerminated(text: string)
    requires text != "" && text[|text| - 1] == '\n'
    ensures forall i :: 0 <= i < |ReadLines(text)| ==> Terminated(ReadLines(text)[i])
    decreases |text|
  {
    var first, rest := FirstLine(text), AfterLine(text);
    NotOneLine(text);
    EndedLine(first);
    if rest != "" { EndsTerminated(rest); }
  }

  lemma NotOneLine(text: string)
    requires text != "" && text[|text| - 1] == '\n'
    ensures |FirstLine(text)| < |text|
    ensures AfterLine(text) != "" ==> AfterLine(text)[|AfterLine(text)| - 1] == '\n'
  {
    assert !Unbroken(text);
  }
}
