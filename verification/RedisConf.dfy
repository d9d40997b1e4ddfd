/** The installer's rewriting of redis.conf, line by line. */
module RedisConf {
  import opened Common
  import opened Text
  import opened TextFile

  datatype Setting = Setting(key: string, value: string)

  /** The dictionary in its order; only the first two values are chosen by the caller. */
  function Settings(maxmemory: string, policy: string): seq<Setting> {
    [Setting("maxmemory", maxmemory), Setting("maxmemory-policy", policy), Setting("bind", "127.0.0.1 ::1")]
  }

  /** The line is the setting, or the setting commented out. */
  predicate Hits(line: string, key: string) {
    StartsWith(Strip(line), key + " ") || StartsWith(Strip(line), "# " + key + " ")
  }

  /** The setting a line belongs to: the first in order that it hits. */
  function Match(line: string, settings: seq<Setting>): Option<nat> {
    if settings == [] then None
    else if Hits(line, settings[0].key) then Some(0)
    else
      match Match(line, settings[1..])
      case None => None
      case Some(i) => Some(i + 1)
  }

  function Line(setting: Setting): string {
    setting.key + " " + setting.value + "\n"
  }

  function Rewrite(line: string, settings: seq<Setting>): string {
    match Match(line, settings)
    case None => line
    case Some(i) => if i < |settings| then Line(settings[i]) else line
  }

  function Rewritten(lines: seq<string>, settings: seq<Setting>): seq<string> {
    seq(|lines|, i requires 0 <= i < |lines| => Rewrite(lines[i], settings))
  }

  predicate Seen(lines: seq<string>, settings: seq<Setting>, i: nat) {
    exists j :: 0 <= j < |lines| && Match(lines[j], settings) == Some(i)
  }

  /** The lines added for those of the first n settings that no line belongs to. */
  function Added(lines: seq<string>, settings: seq<Setting>, n: nat): seq<string>
    requires n <= |settings|
  {
    if n == 0 then []
    else Added(lines, settings, n - 1) + (if Seen(lines, settings, n - 1) then [] else [Line(settings[n - 1])])
  }

  function Output(lines: seq<string>, settings: seq<Setting>): seq<string> {
    Rewritten(lines, settings) + Added(lines, settings, |settings|)
  }

  /** What the file holds afterwards. */
  function Configured(text: string, settings: seq<Setting>): string {
    Concat(Output(ReadLines(text), settings))
  }

  // ---- Keys and values ----

  predicate KeyOk(key: string) {
    key != "" && key[0] != '#' && forall i :: 0 <= i < |key| ==> !IsBlank(key[i])
  }

  predicate OneLine(settings: seq<Setting>) {
    forall i :: 0 <= i < |settings| ==> Unbroken(settings[i].key) && Unbroken(settings[i].value)
  }

  predicate KeysOk(settings: seq<Setting>) {
    && (forall i :: 0 <= i < |settings| ==> KeyOk(settings[i].key))
    && (forall i, j :: 0 <= i < j < |settings| ==> settings[i].key != settings[j].key)
  }

  predicate Visible(settings: seq<Setting>) {
    forall i :: 0 <= i < |settings| ==> !Blank(settings[i].value)
  }

  lemma TheSettingsAreOk(maxmemory: string, policy: string)
    requires Unbroken(maxmemory) && Unbroken(policy)
    ensures KeysOk(Settings(maxmemory, policy)) && OneLine(Settings(maxmemory, policy))
    ensures !Blank("127.0.0.1 ::1")
  {
    assert |"maxmemory"| == 9 && |"maxmemory-policy"| == 16 && |"bind"| == 4;
    assert KeyOk("maxmemory") && KeyOk("maxmemory-policy") && KeyOk("bind");
    assert Unbroken("127.0.0.1 ::1");
    assert "127.0.0.1 ::1"[0] == '1';
  }

  lemma FirstWord(text: string, key: string)
    requires KeyOk(key) && StartsWith(text, key + " ")
    ensures IndexOf(text, ' ') == Some(|key|) && text[..|key|] == key && text[0] != '#'
  {
    var rest := text[|key| + 1..];
    assert text[..|key| + 1] == key + " ";
    assert text == text[..|key| + 1] + rest == key + [' '] + rest;
    assert ' ' !in key;
    IndexOfConcat(key, ' ', rest);
  }

  /** A line hits one key at most: no key captures the lines of another that begins with it. */
  lemma HitsOnlyOne(line: string, key: string, other: string)
    requires KeyOk(key) && KeyOk(other) && Hits(line, key) && Hits(line, other)
    ensures key == other
  {
    var text := Strip(line);
    if text[0] == '#' {
      HashLine(text, key);
      HashLine(text, other);
      FirstWord(text[2..], key);
      FirstWord(text[2..], other);
    } else {
      HashLine(text, key);
      HashLine(text, other);
      FirstWord(text, key);
      FirstWord(text, other);
    }
  }

  lemma HashLine(text: string, key: string)
    requires KeyOk(key)
    requires StartsWith(text, key + " ") || StartsWith(text, "# " + key + " ")
    ensures text[0] == '#' ==> |text| >= 2 && StartsWith(text[2..], key + " ")
    ensures text[0] != '#' ==> StartsWith(text, key + " ")
  {
    if StartsWith(text, key + " ") {
      FirstWord(text, key);
    } else {
      var prefix := "# " + key + " ";
      assert prefix[0] == '#' && text[..|prefix|][0] == text[0];
      assert text[..|prefix|][2..] == text[2..][..|prefix| - 2];
      assert prefix[2..] == key + " ";
    }
  }

  lemma {:induction false} MatchIsFirst(line: string, settings: seq<Setting>)
    ensures match Match(line, settings)
            case None => forall i :: 0 <= i < |settings| ==> !Hits(line, settings[i].key)
            case Some(i) => i < |settings| && Hits(line, settings[i].key)
    decreases |settings|
  {
    if settings != [] && !Hits(line, settings[0].key) {
      MatchIsFirst(line, settings[1..]);
      assert forall i :: 1 <= i < |settings| ==> settings[i] == settings[1..][i - 1];
    }
  }

  /** A line belongs to a setting exactly when it hits its key. */
  lemma MatchIsHit(line: string, settings: seq<Setting>, i: nat)
    requires KeysOk(settings) && i < |settings|
    ensures Match(line, settings) == Some(i) <==> Hits(line, settings[i].key)
  {
    MatchIsFirst(line, settings);
    if Hits(line, settings[i].key) {
      HitsOnlyOne(line, settings[i].key, settings[Match(line, settings).value].key);
    }
  }

  /** The line written for a setting is recognised again exactly when its value is not blank. */
  lemma OwnLine(setting: Setting)
    requires KeyOk(setting.key)
    ensures Hits(Line(setting), setting.key) <==> !Blank(setting.value)
  {
    var key, tail := setting.key, setting.value + "\n";
    assert Blank(tail) <==> Blank(setting.value) by {
      assert tail[..|setting.value|] == setting.value;
      assert IsBlank('\n');
    }
    assert Line(setting) == (key + " ") + tail;
    TrimRightOfConcat(key + " ", tail);
    assert Line(setting)[0] == key[0];
    if Blank(tail) {
      TrimRightOfConcat(key, " ");
      assert Blank(" ");
      assert !IsBlank(key[|key| - 1]);
    } else {
      StartsWithConcat(key + " ", TrimRight(tail));
    }
  }

  // ---- The rewritten lines ----

  lemma {:induction false} AddedNothing(lines: seq<string>, settings: seq<Setting>, n: nat)
    requires n <= |settings| && forall i :: 0 <= i < n ==> Seen(lines, settings, i)
    ensures Added(lines, settings, n) == []
    decreases n
  {
    if n > 0 { AddedNothing(lines, settings, n - 1); }
  }

  lemma {:induction false} AddedContains(lines: seq<string>, settings: seq<Setting>, n: nat, i: nat)
    requires i < n <= |settings| && !Seen(lines, settings, i)
    ensures Line(settings[i]) in Added(lines, settings, n)
    decreases n
  {
    if i < n - 1 { AddedContains(lines, settings, n - 1, i); }
  }

  /** The k-th added line belongs to a missing setting, with k missing ones before it. */
  lemma {:induction false} AddedFrom(lines: seq<string>, settings: seq<Setting>, n: nat, k: nat) returns (i: nat)
    requires n <= |settings| && k < |Added(lines, settings, n)|
    ensures i < n && !Seen(lines, settings, i) && Added(lines, settings, n)[k] == Line(settings[i])
    ensures |Added(lines, settings, i)| == k
    decreases n
  {
    if k < |Added(lines, settings, n - 1)| { i := AddedFrom(lines, settings, n - 1, k); } else { i := n - 1; }
  }

  lemma LineTerminated(setting: Setting)
    requires Unbroken(setting.key) && Unbroken(setting.value)
    ensures Terminated(Line(setting))
  {
    EndedLine(setting.key + " " + setting.value);
  }

  lemma RewriteTerminated(line: string, settings: seq<Setting>)
    requires OneLine(settings)
    ensures Terminated(line) ==> Terminated(Rewrite(line, settings))
    ensures Match(line, settings).Some? ==> Terminated(Rewrite(line, settings))
  {
    MatchIsFirst(line, settings);
    if Match(line, settings).Some? { LineTerminated(settings[Match(line, settings).value]); }
  }

  lemma {:induction false} AddedTerminated(lines: seq<string>, settings: seq<Setting>, n: nat)
    requires n <= |settings| && OneLine(settings)
    ensures forall k :: 0 <= k < |Added(lines, settings, n)| ==> Terminated(Added(lines, settings, n)[k])
    decreases n
  {
    if n > 0 {
      AddedTerminated(lines, settings, n - 1);
      LineTerminated(settings[n - 1]);
    }
  }

  /** An added line would be glued to an unterminated last line that stays as it is. */
  predicate Glued(lines: seq<string>, settings: seq<Setting>) {
    && lines != [] && !Terminated(lines[|lines| - 1])
    && Match(lines[|lines| - 1], settings).None?
    && exists i :: 0 <= i < |settings| && !Seen(lines, settings, i)
  }

  lemma RewrittenShape(lines: seq<string>, settings: seq<Setting>)
    requires FileShape(lines) && OneLine(settings)
    ensures FileShape(Rewritten(lines, settings))
    ensures lines != [] && (Terminated(lines[|lines| - 1]) || Match(lines[|lines| - 1], settings).Some?) ==>
              Terminated(Rewritten(lines, settings)[|lines| - 1])
  {
    forall i | 0 <= i < |lines|
      ensures Terminated(lines[i]) || Match(lines[i], settings).Some? ==> Terminated(Rewrite(lines[i], settings))
    {
      RewriteTerminated(lines[i], settings);
    }
  }

  lemma ShapeConcat(a: seq<string>, b: seq<string>)
    requires FileShape(a) && forall k :: 0 <= k < |b| ==> Terminated(b[k])
    requires a == [] || b == [] || Terminated(a[|a| - 1])
    ensures FileShape(a + b)
  {
    if b == [] { assert a + b == a; }
  }

  lemma OutputShape(lines: seq<string>, settings: seq<Setting>)
    requires FileShape(lines) && OneLine(settings) && !Glued(lines, settings)
    ensures FileShape(Output(lines, settings))
  {
    if forall i :: 0 <= i < |settings| ==> Seen(lines, settings, i) { AddedNothing(lines, settings, |settings|); }
    AddedTerminated(lines, settings, |settings|);
    RewrittenShape(lines, settings);
    ShapeConcat(Rewritten(lines, settings), Added(lines, settings, |settings|));
  }

  lemma OutputRead(text: string, settings: seq<Setting>)
    requires OneLine(settings) && !Glued(ReadLines(text), settings)
    ensures ReadLines(Configured(text, settings)) == Output(ReadLines(text), settings)
  {
    ReadLinesShape(text);
    OutputShape(ReadLines(text), settings);
    ReadLinesOfConcat(Output(ReadLines(text), settings));
  }

  /** Every line is as the rewriting leaves it, and no setting is missing. */
  predicate Settled(lines: seq<string>, settings: seq<Setting>) {
    && (forall j :: 0 <= j < |lines| ==> Rewrite(lines[j], settings) == lines[j])
    && (forall i :: 0 <= i < |settings| ==> Seen(lines, settings, i))
  }

  lemma OwnMatch(settings: seq<Setting>, i: nat)
    requires KeysOk(settings) && i < |settings|
    ensures Match(Line(settings[i]), settings) == Some(i) <==> !Blank(settings[i].value)
  {
    OwnLine(settings[i]);
    MatchIsHit(Line(settings[i]), settings, i);
  }

  lemma RewriteSettles(line: string, settings: seq<Setting>)
    requires KeysOk(settings) && Visible(settings)
    ensures Rewrite(Rewrite(line, settings), settings) == Rewrite(line, settings)
    ensures Match(Rewrite(line, settings), settings) == Match(line, settings)
  {
    MatchIsFirst(line, settings);
    if Match(line, settings).Some? { OwnMatch(settings, Match(line, settings).value); }
  }

  lemma OutputSettled(lines: seq<string>, settings: seq<Setting>)
    requires KeysOk(settings) && Visible(settings)
    ensures Settled(Output(lines, settings), settings)
  {
    var rewritten, added := Rewritten(lines, settings), Added(lines, settings, |settings|);
    var output := Output(lines, settings);
    forall i | 0 <= i < |settings|
      ensures Match(Line(settings[i]), settings) == Some(i)
    {
      OwnMatch(settings, i);
    }
    forall k | 0 <= k < |added|
      ensures Rewrite(added[k], settings) == added[k]
    {
      var i := AddedFrom(lines, settings, |settings|, k);
    }
    forall j | 0 <= j < |lines|
      ensures Rewrite(output[j], settings) == output[j] && Match(output[j], settings) == Match(lines[j], settings)
    {
      RewriteSettles(lines[j], settings);
      assert output[j] == rewritten[j];
    }
    forall i | 0 <= i < |settings|
      ensures Seen(output, settings, i)
    {
      if Seen(lines, settings, i) {
        var j :| 0 <= j < |lines| && Match(lines[j], settings) == Some(i);
        assert Match(output[j], settings) == Some(i);
      } else {
        AddedContains(lines, settings, |settings|, i);
        var k :| 0 <= k < |added| && added[k] == Line(settings[i]);
        assert output[|lines| + k] == added[k];
      }
    }
  }

  lemma SettledIsFixed(lines: seq<string>, settings: seq<Setting>)
    requires Settled(lines, settings)
    ensures Output(lines, settings) == lines
  {
    AddedNothing(lines, settings, |settings|);
  }

  /** A text that the rewriting leaves alone is settled. */
  lemma FixedIsSettled(text: string, settings: seq<Setting>)
    requires OneLine(settings) && Configured(text, settings) == text
    ensures Settled(ReadLines(text), settings)
  {
    var lines := ReadLines(text);
    var rewritten, added := Rewritten(lines, settings), Added(lines, settings, |settings|);
    ReadLinesShape(text);
    if Glued(lines, settings) {
      GluedEnds(lines, settings);
      EndsTerminated(text);
      assert false;
    }
    OutputRead(text, settings);
    assert lines == rewritten + added;
    assert |added| == 0;
    forall i | 0 <= i < |settings|
      ensures Seen(lines, settings, i)
    {
      if !Seen(lines, settings, i) { AddedContains(lines, settings, |settings|, i); }
    }
    assert forall j :: 0 <= j < |lines| ==> lines[j] == rewritten[j];
  }

  lemma GluedEnds(lines: seq<string>, settings: seq<Setting>)
    requires OneLine(settings) && Glued(lines, settings)
    ensures var text := Concat(Output(lines, settings)); text != "" && text[|text| - 1] == '\n'
  {
    var rewritten, added := Rewritten(lines, settings), Added(lines, settings, |settings|);
    SomethingAdded(lines, settings);
    AddedTerminated(lines, settings, |settings|);
    ConcatAppend(rewritten, added);
    ConcatEnds(added);
  }

  lemma {:induction false} ConcatEnds(lines: seq<string>)
    requires lines != [] && Terminated(lines[|lines| - 1])
    ensures Concat(lines) != "" && Concat(lines)[|Concat(lines)| - 1] == '\n'
    decreases |lines|
  {
    if |lines| == 1 {
      assert Concat(lines) == lines[0];
    } else {
      ConcatEnds(lines[1..]);
    }
  }

  // ---- The glued file ----

  /** Old lines, the glued line, and the other added lines. */
  function GluedLines(before: seq<string>, start: string, added: seq<string>): seq<string>
    requires added != []
  {
    before + [start + added[0]] + added[1..]
  }

  lemma GluedShape(before: seq<string>, glue: string, after: seq<string>)
    requires (forall k :: 0 <= k < |before| ==> Terminated(before[k])) && Terminated(glue)
    requires forall k :: 0 <= k < |after| ==> Terminated(after[k])
    ensures FileShape(before + [glue] + after)
  {
  }

  lemma GluedText(before: seq<string>, start: string, added: seq<string>)
    requires added != []
    ensures Concat(before + [start] + added) == Concat(GluedLines(before, start, added))
  {
    assert added == [added[0]] + added[1..];
    GlueConcat(before, start, added[0], added[1..]);
  }

  lemma GluedLinesRead(before: seq<string>, start: string, added: seq<string>)
    requires added != [] && Unbroken(start)
    requires (forall k :: 0 <= k < |before| ==> Terminated(before[k])) && forall k :: 0 <= k < |added| ==> Terminated(added[k])
    ensures ReadLines(Concat(before + [start] + added)) == GluedLines(before, start, added)
  {
    GlueTerminated(start, added[0]);
    GluedShape(before, start + added[0], added[1..]);
    GluedText(before, start, added);
    ReadLinesOfConcat(GluedLines(before, start, added));
  }

  lemma BeforeTerminated(lines: seq<string>, settings: seq<Setting>)
    requires lines != [] && FileShape(lines) && OneLine(settings)
    ensures var before := Rewritten(lines[..|lines| - 1], settings);
            forall k :: 0 <= k < |before| ==> Terminated(before[k])
  {
    forall k | 0 <= k < |lines| - 1
      ensures Terminated(Rewrite(lines[k], settings))
    {
      RewriteTerminated(lines[k], settings);
    }
  }

  lemma RewrittenLast(lines: seq<string>, settings: seq<Setting>)
    requires lines != [] && Match(lines[|lines| - 1], settings).None?
    ensures Rewritten(lines, settings) == Rewritten(lines[..|lines| - 1], settings) + [lines[|lines| - 1]]
  {
  }

  lemma SomethingAdded(lines: seq<string>, settings: seq<Setting>)
    requires Glued(lines, settings)
    ensures Added(lines, settings, |settings|) != []
  {
    var i :| 0 <= i < |settings| && !Seen(lines, settings, i);
    AddedContains(lines, settings, |settings|, i);
  }

  /** The lines of the output when the first added line is glued to the last old one. */
  lemma GluedOutput(text: string, settings: seq<Setting>)
    requires OneLine(settings) && Glued(ReadLines(text), settings)
    ensures var lines, added := ReadLines(text), Added(ReadLines(text), settings, |settings|);
            && added != [] && lines[|lines| - 1] != ""
            && ReadLines(Configured(text, settings))
               == GluedLines(Rewritten(lines[..|lines| - 1], settings), lines[|lines| - 1], added)
  {
    var lines := ReadLines(text);
    ReadLinesShape(text);
    SomethingAdded(lines, settings);
    AddedTerminated(lines, settings, |settings|);
    BeforeTerminated(lines, settings);
    RewrittenLast(lines, settings);
    GluedLinesRead(Rewritten(lines[..|lines| - 1], settings), lines[|lines| - 1], Added(lines, settings, |settings|));
  }

  lemma GlueTerminated(start: string, line: string)
    requires Unbroken(start) && Terminated(line)
    ensures Terminated(start + line)
  {
    assert (start + line)[..|start + line| - 1] == start + line[..|line| - 1];
  }

  lemma GlueConcat(before: seq<string>, start: string, line: string, after: seq<string>)
    ensures Concat((before + [start]) + ([line] + after)) == Concat(before + [start + line] + after)
  {
    ConcatAppend(before + [start], [line] + after);
    ConcatAppend(before, [start]);
    ConcatAppend(before + [start + line], after);
    ConcatAppend(before, [start + line]);
    assert Concat([start]) == start && Concat([start + line]) == start + line;
    assert ([line] + after)[1..] == after;
  }

  lemma BeforeUnseen(lines: seq<string>, settings: seq<Setting>, first: nat)
    requires KeysOk(settings) && Visible(settings) && lines != [] && !Seen(lines, settings, first)
    ensures !Seen(Rewritten(lines[..|lines| - 1], settings), settings, first)
  {
    var before := Rewritten(lines[..|lines| - 1], settings);
    forall j | 0 <= j < |before|
      ensures Match(before[j], settings) != Some(first)
    {
      assert before[j] == Rewrite(lines[j], settings);
      RewriteSettles(lines[j], settings);
    }
  }

  lemma LaterAdded(lines: seq<string>, settings: seq<Setting>, first: nat, k: nat)
    requires KeysOk(settings) && Visible(settings) && first < |settings| && |Added(lines, settings, first)| == 0
    requires 0 < k < |Added(lines, settings, |settings|)|
    ensures Match(Added(lines, settings, |settings|)[k], settings) != Some(first)
  {
    var i := AddedFrom(lines, settings, |settings|, k);
    OwnMatch(settings, i);
  }

  lemma AfterUnseen(lines: seq<string>, settings: seq<Setting>, first: nat)
    requires KeysOk(settings) && Visible(settings) && first < |settings| && |Added(lines, settings, first)| == 0
    requires Added(lines, settings, |settings|) != []
    ensures !Seen(Added(lines, settings, |settings|)[1..], settings, first)
  {
    var added := Added(lines, settings, |settings|);
    forall k | 0 <= k < |added[1..]|
      ensures Match(added[1..][k], settings) != Some(first)
    {
      LaterAdded(lines, settings, first, k + 1);
    }
  }

  lemma GlueNotInForce(before: seq<string>, glue: string, after: seq<string>, settings: seq<Setting>, first: nat)
    requires KeysOk(settings) && Visible(settings) && first < |settings| && |glue| > |Line(settings[first])|
    requires !Seen(before, settings, first) && !Seen(after, settings, first)
    ensures Line(settings[first]) !in before + [glue] + after
    ensures !Settled(before + [glue] + after, settings)
  {
    var lines, own := before + [glue] + after, Line(settings[first]);
    OwnMatch(settings, first);
    assert forall j :: 0 <= j < |before| ==> lines[j] == before[j];
    assert forall j :: |before| < j < |lines| ==> lines[j] == after[j - |before| - 1];
    assert forall j :: 0 <= j < |lines| && Match(lines[j], settings) == Some(first) ==> lines[j] == glue;
    assert Match(glue, settings) == Some(first) ==> Rewrite(glue, settings) == own != glue;
    assert Seen(lines, settings, first) ==> exists j :: 0 <= j < |lines| && Rewrite(lines[j], settings) != lines[j];
  }

  /** The setting whose line was glued is still nowhere in force. */
  lemma GluedLosesOne(text: string, settings: seq<Setting>)
    requires KeysOk(settings) && OneLine(settings) && Visible(settings) && Glued(ReadLines(text), settings)
    ensures exists i :: 0 <= i < |settings| && Line(settings[i]) !in ReadLines(Configured(text, settings))
    ensures !Settled(ReadLines(Configured(text, settings)), settings)
  {
    GluedOutput(text, settings);
    GluedPieces(ReadLines(text), settings);
  }

  lemma GluedPieces(lines: seq<string>, settings: seq<Setting>)
    requires KeysOk(settings) && Visible(settings) && Glued(lines, settings) && lines[|lines| - 1] != ""
    requires Added(lines, settings, |settings|) != []
    ensures var last, added := |lines| - 1, Added(lines, settings, |settings|);
            var output := GluedLines(Rewritten(lines[..last], settings), lines[last], added);
            && (exists i :: 0 <= i < |settings| && Line(settings[i]) !in output)
            && !Settled(output, settings)
  {
    var last, added := |lines| - 1, Added(lines, settings, |settings|);
    var first := AddedFrom(lines, settings, |settings|, 0);
    BeforeUnseen(lines, settings, first);
    AfterUnseen(lines, settings, first);
    GlueNotInForce(Rewritten(lines[..last], settings), lines[last] + added[0], added[1..], settings, first);
  }

  // ---- The properties ----

  /**
   Rewriting twice equals rewriting once, exactly when no value is blank and no added line
   is glued to an unterminated last line.
   */
  lemma IdempotentIff(text: string, settings: seq<Setting>)
    requires KeysOk(settings) && OneLine(settings)
    ensures Configured(Configured(text, settings), settings) == Configured(text, settings)
            <==> Visible(settings) && !Glued(ReadLines(text), settings)
  {
    var once := Configured(text, settings);
    if Visible(settings) && !Glued(ReadLines(text), settings) {
      OutputRead(text, settings);
      OutputSettled(ReadLines(text), settings);
      SettledIsFixed(ReadLines(once), settings);
    } else if Configured(once, settings) == once {
      FixedIsSettled(once, settings);
      if Visible(settings) {
        GluedLosesOne(text, settings);
      } else {
        SettledIsVisible(ReadLines(once), settings);
      }
    }
  }

  /** A single line without its newline that belongs to no setting gets the first one glued to it. */
  lemma UnendedFile(text: string, settings: seq<Setting>)
    requires KeysOk(settings) && OneLine(settings) && settings != [] && text != "" && Unbroken(text)
    requires forall i :: 0 <= i < |settings| ==> !Hits(text, settings[i].key)
    ensures Glued(ReadLines(text), settings)
    ensures Configured(Configured(text, settings), settings) != Configured(text, settings)
  {
    UnbrokenIsOneLine(text);
    MatchIsFirst(text, settings);
    assert ReadLines(text) == [text];
    assert !Seen([text], settings, 0);
    IdempotentIff(text, settings);
  }

  /** For one, this file grows with every run. */
  lemma UnendedFileGrows()
    ensures var settings := Settings("256mb", "allkeys-lru");
            Configured(Configured("port 6379", settings), settings) != Configured("port 6379", settings)
  {
    PortLine("port 6379");
    TheSettingsAreOk("256mb", "allkeys-lru");
    UnendedFile("port 6379", Settings("256mb", "allkeys-lru"));
  }

  lemma PortLine(text: string)
    requires text == "port 6379"
    ensures Unbroken(text)
    ensures !Hits(text, "maxmemory") && !Hits(text, "maxmemory-policy") && !Hits(text, "bind")
  {
    StripOnlyTrims(text);
    assert Strip(text)[0] == 'p';
    NotHit(text, "maxmemory");
    NotHit(text, "maxmemory-policy");
    NotHit(text, "bind");
  }

  lemma PrefixHead(text: string, prefix: string)
    ensures prefix != "" && StartsWith(text, prefix) ==> text != "" && text[0] == prefix[0]
  {
  }

  lemma NotHit(line: string, key: string)
    requires Strip(line) != "" && key != "" && Strip(line)[0] != key[0] && Strip(line)[0] != '#'
    ensures !Hits(line, key)
  {
    PrefixHead(Strip(line), key + " ");
    PrefixHead(Strip(line), "# " + key + " ");
    assert (key + " ")[0] == key[0];
  }

  lemma SettledIsVisible(lines: seq<string>, settings: seq<Setting>)
    requires KeysOk(settings) && Settled(lines, settings)
    ensures Visible(settings)
  {
    forall i | 0 <= i < |settings|
      ensures !Blank(settings[i].value)
    {
      assert Seen(lines, settings, i);
      var j :| 0 <= j < |lines| && Match(lines[j], settings) == Some(i);
      OwnMatch(settings, i);
    }
  }

  /** Every setting is in force afterwards exactly when nothing was glued. */
  lemma EverySettingInForceIff(text: string, settings: seq<Setting>)
    requires KeysOk(settings) && OneLine(settings) && Visible(settings)
    ensures (forall i :: 0 <= i < |settings| ==> Line(settings[i]) in ReadLines(Configured(text, settings)))
            <==> !Glued(ReadLines(text), settings)
  {
    if Glued(ReadLines(text), settings) {
      GluedLosesOne(text, settings);
    } else {
      OutputRead(text, settings);
      OutputSettled(ReadLines(text), settings);
      var lines := ReadLines(Configured(text, settings));
      forall i | 0 <= i < |settings|
        ensures Line(settings[i]) in lines
      {
        assert Seen(lines, settings, i);
        var j :| 0 <= j < |lines| && Match(lines[j], settings) == Some(i);
        assert lines[j] == Line(settings[i]);
      }
    }
  }

  /** The lines that belong to no setting. */
  function Others(lines: seq<string>, settings: seq<Setting>): seq<string> {
    if lines == [] then []
    else Others(lines[..|lines| - 1], settings)
         + if Match(lines[|lines| - 1], settings).None? then [lines[|lines| - 1]] else []
  }

  lemma {:induction false} OthersConcat(a: seq<string>, b: seq<string>, settings: seq<Setting>)
    ensures Others(a + b, settings) == Others(a, settings) + Others(b, settings)
    decreases |b|
  {
    if b == [] {
      assert a + b == a;
    } else {
      assert (a + b)[..|a + b| - 1] == a + b[..|b| - 1];
      OthersConcat(a, b[..|b| - 1], settings);
    }
  }

  lemma {:induction false} OthersRewritten(lines: seq<string>, settings: seq<Setting>)
    requires KeysOk(settings) && Visible(settings)
    ensures Others(Rewritten(lines, settings), settings) == Others(lines, settings)
    decreases |lines|
  {
    if lines != [] {
      var last := |lines| - 1;
      OthersRewritten(lines[..last], settings);
      assert Rewritten(lines, settings)[..last] == Rewritten(lines[..last], settings);
      RewriteSettles(lines[last], settings);
    }
  }

  lemma {:induction false} OthersAdded(lines: seq<string>, settings: seq<Setting>, n: nat)
    requires KeysOk(settings) && Visible(settings) && n <= |settings|
    ensures Others(Added(lines, settings, n), settings) == []
    decreases n
  {
    if n > 0 {
      OthersAdded(lines, settings, n - 1);
      OwnMatch(settings, n - 1);
      var own := [Line(settings[n - 1])];
      assert own[..0] == [] && Others(own, settings) == [];
      OthersConcat(Added(lines, settings, n - 1), own, settings);
      assert Added(lines, settings, n - 1) + [] == Added(lines, settings, n - 1);
    }
  }

  /** All other lines keep their content and order. */
  lemma OtherLinesKept(text: string, settings: seq<Setting>)
    requires KeysOk(settings) && OneLine(settings) && Visible(settings) && !Glued(ReadLines(text), settings)
    ensures Others(ReadLines(Configured(text, settings)), settings) == Others(ReadLines(text), settings)
  {
    var before := ReadLines(text);
    OutputRead(text, settings);
    OthersConcat(Rewritten(before, settings), Added(before, settings, |settings|), settings);
    OthersRewritten(before, settings);
    OthersAdded(before, settings, |settings|);
    var others := Others(before, settings);
    assert others + [] == others;
  }

  /** Every line of a setting carries its value. */
  lemma LinesCarryValues(text: string, settings: seq<Setting>)
    requires KeysOk(settings) && OneLine(settings) && Visible(settings) && !Glued(ReadLines(text), settings)
    ensures var lines := ReadLines(Configured(text, settings));
            forall i, j :: 0 <= i < |settings| && 0 <= j < |lines| && Hits(lines[j], settings[i].key) ==>
              lines[j] == Line(settings[i])
  {
    var lines := ReadLines(Configured(text, settings));
    OutputRead(text, settings);
    OutputSettled(ReadLines(text), settings);
    forall i, j | 0 <= i < |settings| && 0 <= j < |lines| && Hits(lines[j], settings[i].key)
      ensures lines[j] == Line(settings[i])
    {
      MatchIsHit(lines[j], settings, i);
    }
  }

  /** A line that hits one key is rewritten to that setting, and hits no other key. */
  lemma HitIsRewritten(line: string, settings: seq<Setting>, i: nat)
    requires KeysOk(settings) && i < |settings| && Hits(line, settings[i].key)
    ensures Rewrite(line, settings) == Line(settings[i])
    ensures forall j :: 0 <= j < |settings| && j != i ==> !Hits(line, settings[j].key)
  {
    MatchIsHit(line, settings, i);
    forall j | 0 <= j < |settings| && j != i
      ensures !Hits(line, settings[j].key)
    {
      MatchIsHit(line, settings, j);
    }
  }

  /** A policy line is never taken for a memory limit. */
  lemma PolicyIsNotCaptured(line: string, maxmemory: string, policy: string)
    requires Unbroken(maxmemory) && Unbroken(policy)
    ensures Hits(line, "maxmemory-policy") ==>
              !Hits(line, "maxmemory") && Rewrite(line, Settings(maxmemory, policy)) == Line(Setting("maxmemory-policy", policy))
  {
    var settings := Settings(maxmemory, policy);
    TheSettingsAreOk(maxmemory, policy);
    assert settings[0].key == "maxmemory" && settings[1] == Setting("maxmemory-policy", policy);
    if Hits(line, settings[1].key) { HitIsRewritten(line, settings, 1); }
  }

  // ---- The file ----

  class ConfigFile {
    var text: string

    constructor (text: string)
      ensures this.text == text
    {
      this.text := text;
    }

    method ConfigureRedis(maxmemory: string, policy: string)
      modifies this
      ensures text == Configured(old(text), Settings(maxmemory, policy))
      ensures Unbroken(maxmemory) && Unbroken(policy) ==>
                (Configured(text, Settings(maxmemory, policy)) == text
                 <==> Visible(Settings(maxmemory, policy)) && !Glued(ReadLines(old(text)), Settings(maxmemory, policy)))
    {
      var settings := Settings(maxmemory, policy);
      var lines := ReadLines(text);
      var updated := RewriteLines(lines, settings);
      text := Concat(updated);
      if Unbroken(maxmemory) && Unbroken(policy) {
        TheSettingsAreOk(maxmemory, policy);
        IdempotentIff(old(text), settings);
      }
    }
  }

  method RewriteLines(lines: seq<string>, settings: seq<Setting>) returns (updated: seq<string>)
    ensures updated == Output(lines, settings)
  {
    updated := [];
    var flags := seq(|settings|, i => false);
    for j := 0 to |lines|
      invariant updated == Rewritten(lines[..j], settings)
      invariant |flags| == |settings|
      invariant forall i :: 0 <= i < |settings| ==> (flags[i] <==> Seen(lines[..j], settings, i))
    {
      var line := lines[j];
      var i := 0;
      while i < |settings| && !Hits(line, settings[i].key)
        invariant i <= |settings|
        invariant forall k :: 0 <= k < i ==> !Hits(line, settings[k].key)
      {
        i := i + 1;
      }
      MatchAt(line, settings, i);
      SeenNext(lines, settings, j);
      RewrittenNext(lines, settings, j);
      if i < |settings| {
        updated := updated + [Line(settings[i])];
        flags := flags[i := true];
      } else {
        updated := updated + [line];
      }
    }
    assert lines[..|lines|] == lines;
    for i := 0 to |settings|
      invariant updated == Rewritten(lines, settings) + Added(lines, settings, i)
    {
      if !flags[i] { updated := updated + [Line(settings[i])]; }
    }
  }

  lemma {:induction false} MatchAt(line: string, settings: seq<Setting>, i: nat)
    requires i <= |settings| && (i < |settings| ==> Hits(line, settings[i].key))
    requires forall k :: 0 <= k < i ==> !Hits(line, settings[k].key)
    ensures Match(line, settings) == if i < |settings| then Some(i) else None
    decreases i
  {
    if i > 0 {
      assert forall k :: 0 <= k < |settings| - 1 ==> settings[1..][k] == settings[k + 1];
      MatchAt(line, settings[1..], i - 1);
    }
  }

  lemma RewrittenNext(lines: seq<string>, settings: seq<Setting>, j: nat)
    requires j < |lines|
    ensures Rewritten(lines[..j + 1], settings) == Rewritten(lines[..j], settings) + [Rewrite(lines[j], settings)]
  {
  }

  lemma SeenNext(lines: seq<string>, settings: seq<Setting>, j: nat)
    requires j < |lines|
    ensures forall i: nat :: Seen(lines[..j + 1], settings, i) <==>
              Seen(lines[..j], settings, i) || Match(lines[j], settings) == Some(i)
  {
    var shorter, longer := lines[..j], lines[..j + 1];
    assert longer == shorter + [lines[j]];
    forall i: nat
      ensures Seen(longer, settings, i) <==> Seen(shorter, settings, i) || Match(lines[j], settings) == Some(i)
    {
      if Seen(shorter, settings, i) {
        var k :| 0 <= k < |shorter| && Match(shorter[k], settings) == Some(i);
        assert longer[k] == shorter[k];
      }
      assert longer[j] == lines[j];
    }
  }
}
