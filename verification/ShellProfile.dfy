/** `save_to_shell_profile`: setting an exported variable in the lines of a shell profile. */
module ShellProfile {
  import opened Text

  const NL := '\n'
  const CR := '\r'

  /** Reading a file in text mode: every carriage return, alone or before a line feed, is a line feed. */
  function ReadText(raw: string): string {
    if raw == "" then ""
    else if raw[0] != CR then [raw[0]] + ReadText(raw[1..])
    else if |raw| > 1 && raw[1] == NL then [NL] + ReadText(raw[2..])
    else [NL] + ReadText(raw[1..])
  }

  /** The lines of a file as they are read. */
  function Lines(raw: string): seq<string> {
    Split(ReadText(raw), NL)
  }

  predicate Breaks(s: string) {
    NL in s || CR in s
  }

  const COMMENT := "# KukiClaw AI Provider"

  function Prefix(name: string): string {
    "export " + name + "="
  }

  function ExportLine(name: string, value: string): string {
    Prefix(name) + "\"" + value + "\""
  }

  predicate Sets(line: string, name: string) {
    Prefix(name) <= line
  }

  /** The lines after the loop: exports of the variable are replaced. */
  function NewLines(lines: seq<string>, name: string, exportLine: string): seq<string> {
    seq(|lines|, i requires 0 <= i < |lines| => if Sets(lines[i], name) then exportLine else lines[i])
  }

  predicate Found(lines: seq<string>, name: string) {
    exists i :: 0 <= i < |lines| && Sets(lines[i], name)
  }

  /** What is appended when no line exports the variable yet. */
  function Addition(name: string, value: string): string {
    "\n" + COMMENT + "\n" + ExportLine(name, value) + "\n"
  }

  /**
   The profile afterwards; `None` is a profile that does not exist.  Lines are replaced in the text as it was
   read, and an addition goes behind the file as it is.
   */
  function Save(profile: Option<string>, name: string, value: string): string {
    match profile
    case None => COMMENT + "\n" + ExportLine(name, value) + "\n"
    case Some(content) =>
      var lines := Lines(content);
      if Found(lines, name) then Join(NewLines(lines, name, ExportLine(name, value)), NL) else content + Addition(name, value)
  }

  method SaveToShellProfile(profile: Option<string>, name: string, value: string) returns (r: string)
    ensures r == Save(profile, name, value)
  {
    var exportLine := ExportLine(name, value);
    if profile == None {
      return COMMENT + "\n" + exportLine + "\n";
    }
    var content := ReadText(profile.value);
    if Contains(content, name) {
      var lines := Split(content, NL);
      var newLines: seq<string> := [];
      var found := false;
      for i := 0 to |lines|
        invariant newLines == NewLines(lines[..i], name, exportLine)
        invariant found <==> Found(lines[..i], name)
      {
        assert lines[..i + 1] == lines[..i] + [lines[i]];
        if Prefix(name) <= lines[i] {
          newLines := newLines + [exportLine];
          assert lines[..i + 1][i] == lines[i];
          found := true;
        } else {
          newLines := newLines + [lines[i]];
        }
      }
      assert lines[..|lines|] == lines;
      if found {
        r := Join(newLines, NL);
      } else {
        r := profile.value + Addition(name, value);
      }
    } else {
      NotMentioned(content, name);
      r := profile.value + Addition(name, value);
    }
  }

  lemma NameInLine(content: string, at: nat, line: string, name: string)
    requires at + |line| <= |content| && content[at..at + |line|] == line && Sets(line, name)
    ensures Contains(content, name)
  {
    var k := at + |"export "|;
    forall j | 0 <= j < |name| ensures content[k..k + |name|][j] == name[j] {
      assert content[at..at + |line|][|"export "| + j] == line[|"export "| + j];
      assert Prefix(name)[|"export "| + j] == name[j];
      assert line[..|Prefix(name)|] == Prefix(name);
    }
    assert content[k..k + |name|] == name;
    assert OccursAt(content, name, k);
  }

  /** The quick test on the whole text is sound: without the name no line exports it. */
  lemma NotMentioned(content: string, name: string)
    requires !Contains(content, name)
    ensures !Found(Split(content, NL), name)
  {
    var lines := Split(content, NL);
    forall i | 0 <= i < |lines| ensures !Sets(lines[i], name) {
      var at := LineAt(content, i);
      if Sets(lines[i], name) { NameInLine(content, at, lines[i], name); }
    }
  }

  /** Where line i of the text starts. */
  lemma {:induction false} LineAt(content: string, i: nat) returns (at: nat)
    requires i < |Split(content, NL)|
    ensures at + |Split(content, NL)[i]| <= |content| && content[at..at + |Split(content, NL)[i]|] == Split(content, NL)[i]
    decreases |content|
  {
    var line := Split(content, NL)[i];
    if i == 0 {
      FirstLine(content);
      at := 0;
    } else {
      var a := LineAt(content[1..], if content[0] == NL then i - 1 else i);
      at := a + 1;
      TailSlice(content, a, |line|);
    }
  }

  lemma TailSlice(s: string, a: nat, n: nat)
    requires s != "" && a + n < |s|
    ensures s[1..][a..a + n] == s[a + 1..a + 1 + n]
  {
  }

  lemma {:induction false} FirstLine(content: string)
    ensures Split(content, NL)[0] <= content
    decreases |content|
  {
    if content != "" && content[0] != NL { FirstLine(content[1..]); }
  }

  // ---- reading ----

  lemma {:induction false} ReadTextClean(raw: string)
    ensures CR !in ReadText(raw)
    ensures CR !in raw ==> ReadText(raw) == raw
    ensures Breaks(raw) ==> NL in ReadText(raw)
    decreases |raw|
  {
    if raw != "" {
      if raw[0] == CR && |raw| > 1 && raw[1] == NL { ReadTextClean(raw[2..]); } else { ReadTextClean(raw[1..]); }
      if CR !in raw { assert [raw[0]] + raw[1..] == raw; }
    }
  }

  predicate EndsInCR(s: string) {
    s != "" && s[|s| - 1] == CR
  }

  lemma ReadCons(c: char, s: string)
    ensures c != CR ==> ReadText([c] + s) == [c] + ReadText(s)
    ensures c == CR && (s == "" || s[0] != NL) ==> ReadText([c] + s) == [NL] + ReadText(s)
    ensures c == CR && s != "" && s[0] == NL ==> ReadText([c] + s) == ReadText(s)
  {
    var raw := [c] + s;
    assert raw[1..] == s;
    if c == CR && s != "" && s[0] == NL {
      assert raw[2..] == s[1..];
    }
  }

  /** Reading goes part by part; only a line feed after a carriage return is swallowed. */
  lemma {:induction false} ReadTextAppend(a: string, b: string)
    ensures ReadText(a + b) ==
      ReadText(a) + if EndsInCR(a) && b != "" && b[0] == NL then ReadText(b[1..]) else ReadText(b)
    decreases |a|
  {
    hide ReadText;
    if a == "" {
      ReadNothing();
      assert a + b == b;
    } else {
      var c, rest := a[0], a[1..];
      assert a == [c] + rest && a + b == [c] + (rest + b);
      ReadCons(c, rest);
      ReadCons(c, rest + b);
      ReadTextAppend(rest, b);
      if rest == "" {
        ReadNothing();
        assert rest + b == b;
        if b != "" { ReadCons(b[0], b[1..]); assert b == [b[0]] + b[1..]; }
      } else {
        assert (rest + b)[0] == rest[0];
      }
    }
  }

  lemma ReadNothing()
    ensures ReadText("") == ""
  {
  }

  function ReadAll(parts: seq<string>): seq<string> {
    seq(|parts|, i requires 0 <= i < |parts| => ReadText(parts[i]))
  }

  /** Reading lines none of which ends in a carriage return, joined, is reading each. */
  lemma {:induction false} ReadTextJoin(parts: seq<string>)
    requires forall i :: 0 <= i < |parts| ==> !EndsInCR(parts[i])
    ensures ReadText(Join(parts, NL)) == Join(ReadAll(parts), NL)
    decreases |parts|
  {
    if |parts| > 1 {
      var rest := Join(parts[1..], NL);
      ReadTextJoin(parts[1..]);
      assert ReadAll(parts)[1..] == ReadAll(parts[1..]);
      assert parts[0] + [NL] + rest == parts[0] + ([NL] + rest);
      ReadTextAppend(parts[0], [NL] + rest);
      ReadCons(NL, rest);
      assert ReadText(parts[0]) + ([NL] + ReadText(rest)) == ReadText(parts[0]) + [NL] + ReadText(rest);
    }
  }

  /** Cutting a text into lines brings no new characters. */
  lemma {:induction false} SplitKeepsOut(s: string, c: char)
    requires c !in s
    ensures forall i :: 0 <= i < |Split(s, NL)| ==> c !in Split(s, NL)[i]
  {
    if s != "" { SplitKeepsOut(s[1..], c); }
  }

  lemma {:induction false} JoinKeepsOut(parts: seq<string>, c: char)
    requires c != NL && forall i :: 0 <= i < |parts| ==> c !in parts[i]
    ensures c !in Join(parts, NL)
    decreases |parts|
  {
    if |parts| > 1 { JoinKeepsOut(parts[1..], c); }
  }

  lemma LinesAreClean(raw: string)
    ensures forall i :: 0 <= i < |Lines(raw)| ==> NL !in Lines(raw)[i] && CR !in Lines(raw)[i]
    ensures Join(Lines(raw), NL) == ReadText(raw)
  {
    ReadTextClean(raw);
    SplitFree(ReadText(raw), NL);
    SplitKeepsOut(ReadText(raw), CR);
    JoinSplit(ReadText(raw), NL);
  }

  // ---- the lines of the saved profile ----

  /** The lines that are added. */
  function Added(line: string): seq<string> {
    [COMMENT, line, ""]
  }

  /** What an addition follows: a file that ends in a carriage return shares its last break with it. */
  function Before(content: string): seq<string> {
    var lines := Lines(content);
    if EndsInCR(content) then lines[..|lines| - 1] else lines
  }

  /** The lines of the saved profile as they are written. */
  function PartsAfter(profile: Option<string>, name: string, line: string): seq<string> {
    match profile
    case None => Added(line)
    case Some(content) =>
      if Found(Lines(content), name) then NewLines(Lines(content), name, line) else Before(content) + Added(line)
  }

  lemma JoinAdded(line: string)
    ensures Join(Added(line), NL) == COMMENT + "\n" + line + "\n"
  {
    assert [COMMENT, line, ""][1..] == [line, ""] && [line, ""][1..] == [""];
    assert Join([""], NL) == "" && Join([line, ""], NL) == line + [NL] + "";
    assert line + [NL] + "" == line + "\n";
    assert COMMENT + [NL] + (line + "\n") == COMMENT + "\n" + line + "\n";
  }

  /** The export line, or a clean line that does not export the variable. */
  predicate GoodPart(part: string, name: string, line: string) {
    part == line || (NL !in part && CR !in part && !Sets(part, name))
  }

  ghost predicate AllGood(parts: seq<string>, name: string, line: string) {
    forall i :: 0 <= i < |parts| ==> GoodPart(parts[i], name, line)
  }

  lemma AddedGood(name: string, line: string)
    ensures AllGood(Added(line), name, line) && line in Added(line)
  {
    CommentIsClean();
    assert Prefix(name)[0] == 'e';
    assert Added(line)[1] == line;
  }

  /** Clean lines with the exporting ones replaced. */
  lemma ReplacedGood(lines: seq<string>, name: string, line: string)
    requires forall i :: 0 <= i < |lines| ==> NL !in lines[i] && CR !in lines[i]
    ensures AllGood(NewLines(lines, name, line), name, line)
    ensures Found(lines, name) ==> line in NewLines(lines, name, line)
    ensures !Found(lines, name) ==> AllGood(lines, name, line)
  {
    hide Sets;
    if Found(lines, name) {
      var i :| 0 <= i < |lines| && Sets(lines[i], name);
      assert NewLines(lines, name, line)[i] == line;
    }
  }

  lemma PartsAreGood(profile: Option<string>, name: string, line: string)
    ensures var parts := PartsAfter(profile, name, line); AllGood(parts, name, line) && line in parts
  {
    hide GoodPart, Found, Added, Lines, NewLines;
    AddedGood(name, line);
    match profile
    case None =>
    case Some(content) =>
      LinesAreClean(content);
      ReplacedGood(Lines(content), name, line);
  }

  /** A file that ends in a carriage return is read as ending in an empty line. */
  lemma EndsInBreak(content: string)
    requires EndsInCR(content)
    ensures Lines(content) == Before(content) + [""] && Before(content) != []
    ensures ReadText(content) == Join(Before(content), NL) + [NL]
  {
    var head := content[..|content| - 1];
    assert content == head + [CR];
    ReadTextAppend(head, [CR]);
    assert [CR][1..] == "" && [CR] + "" == [CR];
    ReadCons(CR, "");
    var s := ReadText(head);
    assert ReadText(content) == s + [NL] + "";
    SplitAppend(s, "", NL);
    JoinSplit(s, NL);
  }

  /** What is appended, read behind the file. */
  lemma ReadAddition(content: string, line: string)
    ensures var x := COMMENT + "\n" + line + "\n";
      ReadText(content + ("\n" + x)) == Join(Before(content), NL) + [NL] + ReadText(x)
  {
    var x := COMMENT + "\n" + line + "\n";
    LinesAreClean(content);
    ReadTextAppend(content, "\n" + x);
    assert ("\n" + x)[1..] == x && "\n" + x == [NL] + x;
    ReadCons(NL, x);
    if EndsInCR(content) {
      EndsInBreak(content);
    } else {
      assert Join(Before(content), NL) + ([NL] + ReadText(x)) == Join(Before(content), NL) + [NL] + ReadText(x);
    }
  }

  lemma Unread(lines: seq<string>)
    requires forall i :: 0 <= i < |lines| ==> CR !in lines[i]
    ensures ReadAll(lines) == lines
  {
    forall i | 0 <= i < |lines| ensures ReadAll(lines)[i] == lines[i] { ReadTextClean(lines[i]); }
  }

  lemma AppendedReads(content: string, line: string)
    requires !EndsInCR(line)
    ensures ReadText(content + ("\n" + (COMMENT + "\n" + line + "\n")))
         == Join(Before(content), NL) + [NL] + Join(Added(ReadText(line)), NL)
  {
    hide ReadText;
    ReadAddition(content, line);
    var x := COMMENT + "\n" + line + "\n";
    CommentReads(line);
  }

  lemma CommentReads(line: string)
    requires !EndsInCR(line)
    ensures ReadText(COMMENT + "\n" + line + "\n") == Join(Added(ReadText(line)), NL)
  {
    hide ReadText;
    JoinAdded(line);
    ReadTextJoin(Added(line));
    AddedReads(line);
  }

  lemma BeforeIsClean(content: string)
    ensures Before(content) != [] && ReadAll(Before(content)) == Before(content)
  {
    hide ReadText;
    LinesAreClean(content);
    if EndsInCR(content) { EndsInBreak(content); }
    Unread(Before(content));
  }

  /** Reading the saved profile back gives its lines, each as it is read. */
  lemma SavedReads(profile: Option<string>, name: string, value: string)
    ensures var line := ExportLine(name, value);
      ReadText(Save(profile, name, value)) == Join(ReadAll(PartsAfter(profile, name, line)), NL)
    ensures (profile.None? || Found(Lines(profile.value), name)) ==>
      Save(profile, name, value) == Join(PartsAfter(profile, name, ExportLine(name, value)), NL)
  {
    hide ReadText, Join, Split, Found, Before;
    var line := ExportLine(name, value);
    var parts := PartsAfter(profile, name, line);
    PartsAreGood(profile, name, line);
    assert line[|line| - 1] == '"';
    JoinAdded(line);
    if profile.Some? && !Found(Lines(profile.value), name) {
      var content := profile.value;
      assert Addition(name, value) == "\n" + (COMMENT + "\n" + line + "\n");
      AppendedReads(content, line);
      BeforeIsClean(content);
      CommentReads(line);
      AddedReads(line);
      JoinAppend(Before(content), Added(ReadText(line)), NL);
      assert ReadAll(parts) == ReadAll(Before(content)) + ReadAll(Added(line));
    } else {
      ReadTextJoin(parts);
    }
  }

  lemma AddedReads(line: string)
    ensures ReadAll(Added(line)) == Added(ReadText(line))
  {
    hide ReadText;
    CommentIsClean();
    ReadTextClean(COMMENT);
    ReadNothing();
    var read := ReadAll([COMMENT, line, ""]);
    assert read[0] == COMMENT && read[1] == ReadText(line) && read[2] == "";
  }

  lemma CommentIsClean()
    ensures CR !in COMMENT && NL !in COMMENT && COMMENT[0] == '#'
  {
  }

  // ---- every other line stays ----

  /**
   Without a line break in the value, and with lines as they are read: either each line stays in its place, but
   for those that export the variable, or the file is kept as it is and the export follows it.
   */
  lemma OtherLinesStay(content: string, name: string, value: string)
    requires !Breaks(name) && !Breaks(value)
    ensures var saved := Save(Some(content), name, value);
      var before, after := Lines(content), Lines(saved);
      if Found(before, name) then
        && |after| == |before|
        && forall i :: 0 <= i < |before| ==> after[i] == if Sets(before[i], name) then ExportLine(name, value) else before[i]
      else
        && content <= saved && after == Before(content) + [COMMENT, ExportLine(name, value), ""]
        && before == if EndsInCR(content) then Before(content) + [""] else Before(content)
  {
    SavedLines(Some(content), name, value);
    if EndsInCR(content) { EndsInBreak(content); }
  }

  lemma SavedLines(profile: Option<string>, name: string, value: string)
    requires !Breaks(name) && !Breaks(value)
    ensures Lines(Save(profile, name, value)) == PartsAfter(profile, name, ExportLine(name, value))
  {
    hide ReadText, Join, Split, Save, PartsAfter;
    var line := ExportLine(name, value);
    var parts := PartsAfter(profile, name, line);
    PartsAreGood(profile, name, line);
    SavedReads(profile, name, value);
    assert NL !in line && CR !in line;
    Unread(parts);
    SplitJoin(parts, NL);
  }

  // ---- saving again ----

  /** Without a line break in the value, saving again writes the text as it is read. */
  lemma SaveAgainReads(profile: Option<string>, name: string, value: string)
    requires !Breaks(name) && !Breaks(value)
    ensures var once := Save(profile, name, value); Save(Some(once), name, value) == ReadText(once)
  {
    var once, line := Save(profile, name, value), ExportLine(name, value);
    var parts := PartsAfter(profile, name, line);
    PartsAreGood(profile, name, line);
    SavedLines(profile, name, value);
    LinesAreClean(once);
    var i :| 0 <= i < |parts| && parts[i] == line;
    assert Sets(parts[i], name);
    assert NewLines(parts, name, line) == parts;
  }

  lemma CleanIsRead(s: string)
    ensures ReadText(s) == s <==> CR !in s
  {
    ReadTextClean(s);
  }

  /** A carriage return is saved exactly when it was in a file that is only appended to. */
  lemma SavedCR(profile: Option<string>, name: string, value: string)
    requires !Breaks(name) && !Breaks(value)
    ensures CR in Save(profile, name, value) <==>
      profile.Some? && !Found(Lines(profile.value), name) && CR in profile.value
  {
    var line := ExportLine(name, value);
    assert CR !in line;
    if profile.None? || Found(Lines(profile.value), name) {
      PartsAreGood(profile, name, line);
      SavedReads(profile, name, value);
      JoinKeepsOut(PartsAfter(profile, name, line), CR);
    } else {
      assert CR !in Addition(name, value);
    }
  }

  lemma {:induction false} LinesAreShort(s: string)
    ensures forall i :: 0 <= i < |Split(s, NL)| ==> |Split(s, NL)[i]| + |Split(s, NL)| <= |s| + 1
    ensures NL in s ==> |Split(s, NL)| >= 2
  {
    if s != "" {
      LinesAreShort(s[1..]);
      var rest := Split(s[1..], NL);
      assert s == [s[0]] + s[1..];
      assert forall i :: 0 < i < |rest| ==> rest[1..][i - 1] == rest[i];
    }
  }

  lemma {:induction false} SplitHead(p: string, rest: string)
    requires NL !in p
    ensures p <= Split(p + rest, NL)[0]
  {
    if p != "" {
      assert (p + rest)[1..] == p[1..] + rest;
      SplitHead(p[1..], rest);
    }
  }

  /** An export line with a line break in it, as it is read. */
  ghost predicate BrokenLine(line: string, name: string) {
    NL in line && NL !in Prefix(name) && Prefix(name) <= line
  }

  /** It is cut into shorter lines, the first still exporting. */
  lemma LineBreaks(line: string, name: string)
    requires BrokenLine(line, name)
    ensures var pieces := Split(line, NL);
      Sets(pieces[0], name) && forall i :: 0 <= i < |pieces| ==> |pieces[i]| < |line|
  {
    assert line == Prefix(name) + line[|Prefix(name)|..];
    SplitHead(Prefix(name), line[|Prefix(name)|..]);
    LinesAreShort(line);
  }

  ghost predicate ShortExports(lines: seq<string>, name: string, line: string) {
    forall i :: 0 <= i < |lines| && Sets(lines[i], name) ==> |lines[i]| < |line|
  }

  lemma ExportsAppend(a: seq<string>, b: seq<string>, name: string, line: string)
    ensures ShortExports(a, name, line) && ShortExports(b, name, line) ==> ShortExports(a + b, name, line)
    ensures Found(a, name) || Found(b, name) ==> Found(a + b, name)
  {
    hide Sets;
    if Found(a, name) {
      var i :| 0 <= i < |a| && Sets(a[i], name);
      assert Sets((a + b)[i], name);
    }
    if Found(b, name) {
      var i :| 0 <= i < |b| && Sets(b[i], name);
      assert Sets((a + b)[|a| + i], name);
    }
  }

  lemma CutPart(part: string, name: string, line: string)
    requires BrokenLine(line, name) && GoodPart(part, name, line)
    ensures ShortExports(Split(part, NL), name, line) && (part == line ==> Found(Split(part, NL), name))
  {
    hide Sets, Split;
    if part == line {
      LineBreaks(line, name);
      assert Sets(Split(part, NL)[0], name);
    } else {
      SplitPrefix(part, "", NL);
    }
  }

  /** In the saved text some line exports the variable, and all that do are shorter than the export line. */
  lemma {:induction false} CutLines(parts: seq<string>, name: string, line: string)
    requires BrokenLine(line, name) && parts != []
    requires forall i :: 0 <= i < |parts| ==> GoodPart(parts[i], name, line)
    ensures var lines := Split(Join(parts, NL), NL);
      ShortExports(lines, name, line) && (line in parts ==> Found(lines, name))
    decreases |parts|
  {
    hide Sets, Split, Found, ShortExports, GoodPart, BrokenLine;
    CutPart(parts[0], name, line);
    if |parts| > 1 {
      var rest := Join(parts[1..], NL);
      CutLines(parts[1..], name, line);
      SplitAppend(parts[0], rest, NL);
      ExportsAppend(Split(parts[0], NL), Split(rest, NL), name, line);
      assert line in parts ==> parts[0] == line || line in parts[1..];
    }
  }

  /** Replacing lines by a longer one makes the text longer. */
  lemma {:induction false} Longer(lines: seq<string>, name: string, line: string)
    requires lines != []
    requires forall i :: 0 <= i < |lines| && Sets(lines[i], name) ==> |lines[i]| < |line|
    ensures |Join(NewLines(lines, name, line), NL)| >= |Join(lines, NL)|
    ensures Found(lines, name) ==> |Join(NewLines(lines, name, line), NL)| > |Join(lines, NL)|
    decreases |lines|
  {
    if |lines| > 1 {
      Longer(lines[1..], name, line);
      assert NewLines(lines, name, line)[1..] == NewLines(lines[1..], name, line);
      if Found(lines, name) && !Sets(lines[0], name) {
        var i :| 0 <= i < |lines| && Sets(lines[i], name);
        assert Sets(lines[1..][i - 1], name);
      }
    }
  }

  /** An export line whose value has a line break is broken when read. */
  lemma ReadsBroken(name: string, value: string)
    requires !Breaks(name) && Breaks(value)
    ensures BrokenLine(ReadText(ExportLine(name, value)), name)
  {
    var line, rest := ExportLine(name, value), "\"" + value + "\"";
    assert line == Prefix(name) + rest;
    assert CR !in Prefix(name) && NL !in Prefix(name);
    ReadTextAppend(Prefix(name), rest);
    ReadTextClean(Prefix(name));
    ReadTextClean(line);
    assert Breaks(line) by {
      var c: char :| c in value && (c == NL || c == CR);
      assert c in rest;
    }
  }

  /** Read lines with the export line put in, as they are read after being written. */
  lemma RewrittenReads(lines: seq<string>, name: string, line: string)
    requires !EndsInCR(line) && forall i :: 0 <= i < |lines| ==> CR !in lines[i]
    ensures ReadText(Join(NewLines(lines, name, line), NL)) == Join(NewLines(lines, name, ReadText(line)), NL)
  {
    var new' := NewLines(lines, name, line);
    ReadTextJoin(new');
    forall i | 0 <= i < |lines| ensures ReadAll(new')[i] == NewLines(lines, name, ReadText(line))[i] {
      ReadTextClean(lines[i]);
    }
    assert ReadAll(new') == NewLines(lines, name, ReadText(line));
  }

  /** With a line break in the value the text, as read, grows with every save. */
  lemma SaveAgainGrows(profile: Option<string>, name: string, value: string)
    requires !Breaks(name) && Breaks(value)
    ensures var once := Save(profile, name, value);
      |ReadText(Save(Some(once), name, value))| > |ReadText(once)|
  {
    var once, line := Save(profile, name, value), ExportLine(name, value);
    var parts, broken := PartsAfter(profile, name, line), ReadText(line);
    PartsAreGood(profile, name, line);
    SavedReads(profile, name, value);
    ReadsBroken(name, value);
    ReadGood(parts, name, line);
    CutLines(ReadAll(parts), name, broken);
    LinesAreClean(once);
    assert !EndsInCR(line) by { assert line[|line| - 1] == '"'; }
    RewrittenReads(Lines(once), name, line);
    Longer(Lines(once), name, broken);
  }

  lemma ReadGood(parts: seq<string>, name: string, line: string)
    requires line in parts && forall i :: 0 <= i < |parts| ==> GoodPart(parts[i], name, line)
    ensures ReadText(line) in ReadAll(parts)
    ensures forall i :: 0 <= i < |parts| ==> GoodPart(ReadAll(parts)[i], name, ReadText(line))
  {
    var i :| 0 <= i < |parts| && parts[i] == line;
    assert ReadAll(parts)[i] == ReadText(line);
    forall i | 0 <= i < |parts| ensures GoodPart(ReadAll(parts)[i], name, ReadText(line)) { ReadTextClean(parts[i]); }
  }

  /**
   Saving twice is the same as saving once exactly when the value has no line break of either kind, and the
   profile has no carriage return or is rewritten anyway, because it exports the variable already.
   */
  lemma SaveIdempotentExactly(profile: Option<string>, name: string, value: string)
    requires !Breaks(name)
    ensures Save(Some(Save(profile, name, value)), name, value) == Save(profile, name, value) <==>
      !Breaks(value) && (profile.None? || Found(Lines(profile.value), name) || CR !in profile.value)
  {
    if Breaks(value) {
      SaveAgainGrows(profile, name, value);
    } else {
      SaveAgainReads(profile, name, value);
      CleanIsRead(Save(profile, name, value));
      SavedCR(profile, name, value);
    }
  }

  /** A file with carriage returns is appended to the first time and rewritten the second. */
  lemma CarriageReturnIsLost()
    ensures var once := Save(Some("x\r\n"), "K", "v"); Save(Some(once), "K", "v") != once
  {
    var content := "x\r\n";
    assert content[1] == CR;
    assert !Found(Lines(content), "K") by {
      NotMentioned(ReadText(content), "K");
      ReadTextClean(content);
      assert |ReadText(content)| <= 3;
    }
    SaveIdempotentExactly(Some(content), "K", "v");
  }

  // ---- the lines in characters ----

  /** What an exporting line begins with, and what a new profile holds. */
  lemma ExportsSay(line: string, name: string, value: string)
    ensures Sets(line, name) <==> "export " + name + "=" <= line
    ensures Save(None, name, value) == "# KukiClaw AI Provider\nexport " + name + "=\"" + value + "\"\n"
  {
    var comment := "# KukiClaw AI Provider\n";
    assert Save(None, name, value) == comment + ExportLine(name, value) + "\n";
    assert comment + ("export " + name + "=" + "\"" + value + "\"") + "\n" == "# KukiClaw AI Provider\nexport " + name + "=\"" + value + "\"\n";
  }

  /** A profile without the variable gets a blank line and what a new profile holds. */
  lemma AppendedSays(content: string, name: string, value: string)
    requires !Found(Lines(content), name)
    ensures Save(Some(content), name, value) == content + "\n" + Save(None, name, value)
  {
    hide Found, Lines, ExportLine;
    var comment := "# KukiClaw AI Provider\n";
    assert Addition(name, value) == "\n" + Save(None, name, value);
    assert content + ("\n" + Save(None, name, value)) == content + "\n" + Save(None, name, value);
  }

  /** Reading in text mode: nothing changes before the first carriage return, which is a line feed, together with one after it. */
  lemma {:induction false} ReadSays(a: string, b: string)
    requires CR !in a
    ensures ReadText(a) == a
    ensures ReadText(a + "\r\n" + b) == a + "\n" + ReadText(b)
    ensures (b == "" || b[0] != '\n') ==> ReadText(a + "\r" + b) == a + "\n" + ReadText(b)
  {
    if a == "" {
      ReadNothing();
      ReadReturn(b);
      assert "" + "\r\n" + b == "\r\n" + b && "" + "\r" + b == "\r" + b;
    } else {
      hide ReadText;
      ReadSays(a[1..], b);
      ReadCons(a[0], a[1..]);
      ReadCons(a[0], a[1..] + "\r\n" + b);
      ReadCons(a[0], a[1..] + "\r" + b);
      assert a == [a[0]] + a[1..];
      assert a + "\r\n" + b == [a[0]] + (a[1..] + "\r\n" + b) && a + "\r" + b == [a[0]] + (a[1..] + "\r" + b);
    }
  }

  lemma ReadReturn(b: string)
    ensures ReadText("\r\n" + b) == "\n" + ReadText(b)
    ensures (b == "" || b[0] != '\n') ==> ReadText("\r" + b) == "\n" + ReadText(b)
  {
    hide ReadText;
    ReadCons('\r', "\n" + b);
    ReadCons('\n', b);
    ReadCons('\r', b);
    assert "\r\n" + b == ['\r'] + ("\n" + b) && "\n" + b == ['\n'] + b && "\r" + b == ['\r'] + b;
  }
}
