/** The installer's .env file: written from a configuration, read back, and updated in place. */
module EnvFile {
  import opened Common
  import opened Text
  import opened TextFile

  type Config = map<string, string>

  // ---- Reading ----

  /** The key and value of a line, if it is not blank, not a comment, and has an equals sign. */
  function Entry(line: string): Option<(string, string)> {
    var text := Strip(line);
    if text == "" || text[0] == '#' then None
    else
      match IndexOf(text, '=')
      case None => None
      case Some(at) => Some((Strip(text[..at]), Strip(text[at + 1..])))
  }

  /** One line read into the dictionary. */
  function Add(config: Config, line: string): Config {
    match Entry(line)
    case None => config
    case Some((key, value)) => config[key := value]
  }

  /** Later lines override earlier ones. */
  function Collect(lines: seq<string>): Config {
    if lines == [] then map[] else Add(Collect(lines[..|lines| - 1]), lines[|lines| - 1])
  }

  lemma CollectNext(lines: seq<string>, line: string)
    ensures Collect(lines + [line]) == Add(Collect(lines), line)
  {
    assert (lines + [line])[..|lines|] == lines;
  }

  function ConfigOf(file: Option<string>): Config {
    match file
    case None => map[]
    case Some(text) => Collect(Lines(text))
  }

  /** A key and a value that can be written on a line of their own. */
  predicate WellFormedEntry(key: string, value: string) {
    && Trimmed(key) && Unbroken(key) && '=' !in key && (key == "" || key[0] != '#')
    && Trimmed(value) && Unbroken(value)
  }

  predicate WellFormed(config: Config) {
    forall key :: key in config ==> WellFormedEntry(key, config[key])
  }

  lemma StripKeeps(text: string)
    ensures Trimmed(Strip(text)) && (Unbroken(text) ==> Unbroken(Strip(text)))
    ensures '=' !in text ==> '=' !in Strip(text)
  {
    StripOnlyTrims(text);
    var kept := Strip(text);
    assert forall i :: 0 <= i < |kept| ==> kept[i] in text;
  }

  lemma EntryWellFormed(line: string)
    requires Unbroken(line)
    ensures var entry := Entry(line); entry.Some? ==> WellFormedEntry(entry.value.0, entry.value.1)
  {
    var text := Strip(line);
    StripKeeps(line);
    if text != "" && text[0] != '#' && IndexOf(text, '=').Some? {
      PartsWellFormed(text, IndexOf(text, '=').value);
    }
  }

  lemma PartsWellFormed(text: string, at: nat)
    requires Unbroken(text) && Trimmed(text) && at < |text| && text[0] != '#' && '=' !in text[..at]
    ensures WellFormedEntry(Strip(text[..at]), Strip(text[at + 1..]))
  {
    var left, right := text[..at], text[at + 1..];
    StripKeeps(left);
    StripKeeps(right);
    if at > 0 {
      assert left[0] == text[0];
      StripOnlyTrims(left);
    }
  }

  /** Whatever is in the file, what is read from it is well formed. */
  lemma {:induction false} CollectWellFormed(lines: seq<string>)
    requires forall i :: 0 <= i < |lines| ==> Unbroken(lines[i])
    ensures WellFormed(Collect(lines))
    decreases |lines|
  {
    if lines != [] {
      CollectWellFormed(lines[..|lines| - 1]);
      EntryWellFormed(lines[|lines| - 1]);
    }
  }

  lemma ReadIsWellFormed(file: Option<string>)
    ensures WellFormed(ConfigOf(file))
  {
    if file.Some? {
      LinesUnbroken(file.value);
      CollectWellFormed(Lines(file.value));
    }
  }

  // ---- Writing ----

  const HEADER: seq<string> := ["# WiFi Captive Portal Configuration", "# Generated by installer", ""]

  /** The order of text, by code points. */
  predicate Before(a: string, b: string) {
    b != "" && (a == "" || a[0] < b[0] || (a[0] == b[0] && Before(a[1..], b[1..])))
  }

  lemma {:induction false} BeforeTotal(a: string, b: string)
    ensures a == b || Before(a, b) || Before(b, a)
    ensures !(Before(a, b) && Before(b, a)) && !Before(a, a)
    decreases |a|
  {
    if a != "" {
      BeforeTotal(a[1..], a[1..]);
      if b != "" {
        BeforeTotal(a[1..], b[1..]);
        assert a == [a[0]] + a[1..] && b == [b[0]] + b[1..];
      }
    }
  }

  lemma {:induction false} BeforeTransitive(a: string, b: string, c: string)
    requires Before(a, b) && Before(b, c)
    ensures Before(a, c)
    decreases |a|
  {
    if a != "" && a[0] == b[0] && b[0] == c[0] { BeforeTransitive(a[1..], b[1..], c[1..]); }
  }

  predicate IsLeast(key: string, keys: set<string>) {
    key in keys && forall other :: other in keys ==> !Before(other, key)
  }

  lemma {:induction false} LeastExists(keys: set<string>)
    requires keys != {}
    ensures exists key :: IsLeast(key, keys)
    decreases |keys|
  {
    var some :| some in keys;
    BeforeTotal(some, some);
    var others := keys - {some};
    if others == {} {
      assert keys == {some};
      assert IsLeast(some, keys);
    } else {
      LeastExists(others);
      var least :| IsLeast(least, others);
      BeforeTotal(some, least);
      if Before(some, least) {
        forall other | other in keys
          ensures !Before(other, some)
        {
          if other != some && Before(other, some) { BeforeTransitive(other, some, least); }
        }
        assert IsLeast(some, keys);
      } else {
        assert IsLeast(least, keys);
      }
    }
  }

  lemma LeastUnique(a: string, b: string, keys: set<string>)
    requires IsLeast(a, keys) && IsLeast(b, keys)
    ensures a == b
  {
    BeforeTotal(a, b);
  }

  /** sorted() on the keys of a configuration. */
  ghost function Sorted(keys: set<string>): seq<string>
    decreases |keys|
  {
    if keys == {} then []
    else
      LeastExists(keys);
      var least :| IsLeast(least, keys);
      [least] + Sorted(keys - {least})
  }

  lemma {:induction false} SortedLists(keys: set<string>)
    ensures forall key :: key in Sorted(keys) <==> key in keys
    ensures forall i, j :: 0 <= i < j < |Sorted(keys)| ==> Before(Sorted(keys)[i], Sorted(keys)[j])
    decreases |keys|
  {
    if keys != {} {
      LeastExists(keys);
      var least, rest := Sorted(keys)[0], Sorted(keys)[1..];
      assert IsLeast(least, keys);
      SortedLists(keys - {least});
      assert rest == Sorted(keys - {least});
      forall j | 0 <= j < |rest|
        ensures Before(least, rest[j])
      {
        assert rest[j] in rest;
        BeforeTotal(least, rest[j]);
      }
    }
  }

  lemma SortedStep(key: string, keys: set<string>)
    requires IsLeast(key, keys)
    ensures Sorted(keys) == [key] + Sorted(keys - {key})
  {
    LeastUnique(key, Sorted(keys)[0], keys);
  }

  function EntryLine(key: string, value: string): string {
    key + "=" + value
  }

  function EntryLines(config: Config, keys: seq<string>): seq<string>
    requires forall i :: 0 <= i < |keys| ==> keys[i] in config
  {
    seq(|keys|, i requires 0 <= i < |keys| => EntryLine(keys[i], config[keys[i]]))
  }

  /** The whole file under some header. */
  ghost function TextUnder(header: seq<string>, config: Config): string {
    SortedLists(config.Keys);
    Joined(header + EntryLines(config, Sorted(config.Keys)))
  }

  ghost function FileText(config: Config): string {
    TextUnder(HEADER, config)
  }

  /** Lines that are read as nothing. */
  predicate Silent(lines: seq<string>) {
    forall i :: 0 <= i < |lines| ==> Entry(lines[i]).None? && Unbroken(lines[i])
  }

  lemma CommentIsSilent(line: string)
    requires line == "" || line[0] == '#'
    ensures Entry(line).None?
  {
    StripOnlyTrims(line);
  }

  lemma FirstHeaderUnbroken()
    ensures Unbroken("# WiFi Captive Portal Configuration")
  {
  }

  lemma SecondHeaderUnbroken()
    ensures Unbroken("# Generated by installer")
  {
  }

  lemma ThreeSilent(a: string, b: string, c: string)
    requires Entry(a).None? && Entry(b).None? && Entry(c).None? && Unbroken(a) && Unbroken(b) && Unbroken(c)
    ensures Silent([a, b, c])
  {
  }

  lemma HeaderIsSilent()
    ensures Silent(HEADER)
  {
    FirstHeaderUnbroken();
    SecondHeaderUnbroken();
    CommentIsSilent("# WiFi Captive Portal Configuration");
    CommentIsSilent("# Generated by installer");
    CommentIsSilent("");
    ThreeSilent("# WiFi Captive Portal Configuration", "# Generated by installer", "");
  }

  lemma {:induction false} SilentCollected(lines: seq<string>)
    requires Silent(lines)
    ensures Collect(lines) == map[]
    decreases |lines|
  {
    if lines != [] { SilentCollected(lines[..|lines| - 1]); }
  }

  lemma EntryOfLine(key: string, value: string)
    requires WellFormedEntry(key, value)
    ensures Entry(EntryLine(key, value)) == Some((key, value))
    ensures Unbroken(EntryLine(key, value))
  {
    var line := EntryLine(key, value);
    assert line == key + ['='] + value;
    assert !IsBlank('=');
    assert line[0] == if key == "" then '=' else key[0];
    assert line[|line| - 1] == if value == "" then '=' else value[|value| - 1];
    assert Trimmed(line);
    StripOnlyTrims(line);
    IndexOfConcat(key, '=', value);
    assert line[..|key|] == key && line[|key| + 1..] == value;
    StripOnlyTrims(key);
    StripOnlyTrims(value);
  }

  function Restricted(config: Config, keys: seq<string>): Config {
    map key | key in keys && key in config :: config[key]
  }

  lemma RestrictedNext(config: Config, keys: seq<string>, key: string)
    requires key in config
    ensures Restricted(config, keys + [key]) == Restricted(config, keys)[key := config[key]]
  {
  }

  lemma EntryLinesNext(config: Config, keys: seq<string>, key: string)
    requires key in config && forall i :: 0 <= i < |keys| ==> keys[i] in config
    ensures EntryLines(config, keys + [key]) == EntryLines(config, keys) + [EntryLine(key, config[key])]
  {
  }

  lemma {:induction false} EntriesCollected(header: seq<string>, config: Config, keys: seq<string>)
    requires Silent(header) && WellFormed(config) && forall i :: 0 <= i < |keys| ==> keys[i] in config
    ensures Collect(header + EntryLines(config, keys)) == Restricted(config, keys)
    decreases |keys|
  {
    if keys == [] {
      SilentCollected(header);
      assert header + EntryLines(config, keys) == header;
    } else {
      var shorter, key := keys[..|keys| - 1], keys[|keys| - 1];
      var lines, line := header + EntryLines(config, shorter), EntryLine(key, config[key]);
      EntriesCollected(header, config, shorter);
      assert keys == shorter + [key];
      EntryLinesNext(config, shorter, key);
      assert header + EntryLines(config, keys) == lines + [line];
      CollectNext(lines, line);
      EntryOfLine(key, config[key]);
      RestrictedNext(config, shorter, key);
    }
  }

  lemma LinesOfFile(header: seq<string>, config: Config)
    requires Silent(header) && WellFormed(config)
    ensures forall i :: 0 <= i < |Sorted(config.Keys)| ==> Sorted(config.Keys)[i] in config
    ensures Lines(TextUnder(header, config)) == header + EntryLines(config, Sorted(config.Keys))
  {
    SortedLists(config.Keys);
    var keys := Sorted(config.Keys);
    var lines := EntryLines(config, keys);
    forall i | 0 <= i < |keys|
      ensures Unbroken(lines[i])
    {
      EntryOfLine(keys[i], config[keys[i]]);
    }
    LinesOfJoined(header + lines);
  }

  lemma WellFormedReadsBack(header: seq<string>, config: Config)
    requires Silent(header) && WellFormed(config)
    ensures ConfigOf(Some(TextUnder(header, config))) == config
  {
    SortedLists(config.Keys);
    LinesOfFile(header, config);
    EntriesCollected(header, config, Sorted(config.Keys));
  }

  /** Reading back a written file gives the configuration, exactly for the well-formed ones. */
  lemma WriteReadRoundTrip(config: Config)
    ensures ConfigOf(Some(FileText(config))) == config <==> WellFormed(config)
  {
    ReadIsWellFormed(Some(FileText(config)));
    if WellFormed(config) {
      HeaderIsSilent();
      WellFormedReadsBack(HEADER, config);
    }
  }

  /** After an update the file reads as the old configuration overridden, exactly for well-formed updates. */
  lemma UpdateReadsAsOverride(file: Option<string>, updates: Config)
    ensures ConfigOf(Some(FileText(ConfigOf(file) + updates))) == ConfigOf(file) + updates <==> WellFormed(updates)
  {
    ReadIsWellFormed(file);
    WriteReadRoundTrip(ConfigOf(file) + updates);
    var merged := ConfigOf(file) + updates;
    assert forall key :: key in updates ==> key in merged && merged[key] == updates[key];
  }

  /** The order of the lines does not depend on how the dictionary was filled. */
  method LinesInOrder(header: seq<string>, config: Config) returns (lines: seq<string>)
    ensures Joined(lines) == TextUnder(header, config)
  {
    lines := header;
    var todo := config.Keys;
    ghost var done: seq<string> := [];
    while todo != {}
      invariant todo <= config.Keys
      invariant done + Sorted(todo) == Sorted(config.Keys)
      invariant forall i :: 0 <= i < |done| ==> done[i] in config
      invariant lines == header + EntryLines(config, done)
      decreases todo
    {
      LeastExists(todo);
      var key :| IsLeast(key, todo);
      SortedStep(key, todo);
      lines := lines + [EntryLine(key, config[key])];
      EntryLinesNext(config, done, key);
      ghost var longer := done + [key];
      assert longer + Sorted(todo - {key}) == done + ([key] + Sorted(todo - {key}));
      done := longer;
      todo := todo - {key};
    }
    assert Sorted(todo) == [] && done + [] == done;
  }

  class ConfigFile {
    var text: Option<string>

    constructor ()
      ensures text == None
    {
      text := None;
    }

    method WriteEnvFile(config: Config)
      modifies this
      ensures text == Some(FileText(config))
    {
      var lines := LinesInOrder(HEADER, config);
      text := Some(Joined(lines));
    }

    method ReadEnvFile() returns (config: Config)
      ensures config == ConfigOf(text)
      ensures WellFormed(config)
    {
      config := map[];
      ReadIsWellFormed(text);
      if text.Some? {
        var lines := Lines(text.value);
        for i := 0 to |lines|
          invariant config == Collect(lines[..i])
        {
          CollectNext(lines[..i], lines[i]);
          assert lines[..i + 1] == lines[..i] + [lines[i]];
          match Entry(lines[i]) {
            case None =>
            case Some((key, value)) => config := config[key := value];
          }
        }
        assert lines[..|lines|] == lines;
      }
    }

    method UpdateEnvFile(updates: Config)
      modifies this
      ensures text == Some(FileText(ConfigOf(old(text)) + updates))
      ensures ConfigOf(text) == ConfigOf(old(text)) + updates <==> WellFormed(updates)
    {
      var config := ReadEnvFile();
      WriteEnvFile(config + updates);
      UpdateReadsAsOverride(old(text), updates);
    }
  }
}
