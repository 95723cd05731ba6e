/** `replaceBlockLines`: replacing the lines from a start marker to an end marker in a document. */
module BlockRewrite {
  import opened Text

  const NL := '\n'

  datatype Result = MissingStart | MissingEnd | Rewritten(text: string)

  /** Where the line of position i begins: after the last line break at or before i. */
  function LineStart(text: string, i: nat): (r: nat)
    requires i < |text|
    ensures r <= i + 1 && (text[i] != NL ==> r <= i)
    ensures forall j :: r <= j <= i ==> text[j] != NL
    decreases i
  {
    if text[i] == NL then i + 1 else if i == 0 then 0 else LineStart(text, i - 1)
  }

  /** Where the line of position i ends: after the next line break, or at the end of the text. */
  function LineEnd(text: string, i: nat): (r: nat)
    requires i <= |text|
    ensures i <= r <= |text|
    decreases |text| - i
  {
    if i == |text| then i else if text[i] == NL then i + 1 else LineEnd(text, i + 1)
  }

  function IndentedLines(indent: string, lines: seq<string>): seq<string> {
    seq(|lines|, i requires 0 <= i < |lines| => indent + lines[i])
  }

  function Replacement(indent: string, start: string, end: string, lines: seq<string>): string {
    Join([indent + start] + IndentedLines(indent, lines) + [indent + end], NL)
  }

  /** The text between two positions, empty when they are out of order. */
  function Slice(text: string, from: nat, to: nat): string {
    if from <= to <= |text| then text[from..to] else ""
  }

  /** The text with the block from the start marker's line to the end marker's line rewritten. */
  function WriteBlock(text: string, lineStart: nat, startIndex: nat, endIndex: nat, start: string, end: string, lines: seq<string>): string
    requires lineStart <= |text| && endIndex <= |text|
  {
    var indent := Slice(text, lineStart, startIndex);
    var after := text[LineEnd(text, endIndex)..];
    var head := text[..lineStart] + Replacement(indent, start, end, lines);
    if after == "" then head else head + [NL] + after
  }

  /** Where the line of a found start marker begins; an empty marker is found even at the end of the text. */
  function LineStartOf(text: string, i: nat): (r: nat)
    ensures r <= |text|
  {
    if i < |text| then LineStart(text, i) else if text == "" then 0 else LineStart(text, |text| - 1)
  }

  function ReplaceBlockLines(text: string, start: string, end: string, lines: seq<string>): Result {
    var startIndex := IndexOf(text, start, 0);
    if startIndex == -1 then MissingStart
    else
      var endIndex := IndexOf(text, end, startIndex);
      if endIndex == -1 then MissingEnd
      else Rewritten(WriteBlock(text, LineStartOf(text, startIndex), startIndex, endIndex, start, end, lines))
  }

  /** Both markers are non-empty and stand on one line. */
  predicate Markers(start: string, end: string) {
    start != "" && end != "" && NL !in start && NL !in end
  }

  // ---- the pieces of the result ----

  /** The replacement from the start marker up to the line of the end marker. */
  function Body(indent: string, start: string, lines: seq<string>): string {
    Join([start] + IndentedLines(indent, lines), NL) + [NL]
  }

  lemma ReplacementParts(indent: string, start: string, end: string, lines: seq<string>)
    ensures Replacement(indent, start, end, lines) == indent + Body(indent, start, lines) + (indent + end)
  {
    var middle := IndentedLines(indent, lines);
    JoinAppend([indent + start] + middle, [indent + end], NL);
    var b := Join([start] + middle, NL);
    assert indent + b + [NL] + (indent + end) == indent + (b + [NL]) + (indent + end);
  }

  /** The text begins with the block's line and start marker: what a run finds there, it writes back. */
  ghost predicate Opens(text: string, before: string, indent: string, start: string) {
    && before + indent + start <= text
    && NL !in indent && (before == "" || before[|before| - 1] == NL)
    && IndexOf(text, start, 0) == |before| + |indent|
  }

  lemma {:induction false} LineStartAt(text: string, before: string, i: nat)
    requires |before| <= i < |text| && before <= text && (before == "" || before[|before| - 1] == NL)
    requires forall j :: |before| <= j <= i ==> text[j] != NL
    ensures LineStart(text, i) == |before|
    decreases i
  {
    if i > |before| {
      LineStartAt(text, before, i - 1);
    } else if i > 0 {
      assert text[i - 1] == before[i - 1];
    }
  }

  lemma OpensLine(text: string, before: string, indent: string, start: string)
    requires start != "" && NL !in start && Opens(text, before, indent, start)
    ensures LineStart(text, |before| + |indent|) == |before|
  {
    var i := |before| + |indent|;
    var head := before + indent + start;
    assert head == text[..|head|];
    forall j | |before| <= j <= i ensures text[j] != NL {
      assert text[j] == head[j];
    }
    assert before <= text by { assert before == head[..|before|]; }
    LineStartAt(text, before, i);
  }

  /** An occurrence moves to any place that reads the same. */
  lemma MoveOccurrence(s: string, i: nat, t: string, k: nat, pat: string)
    requires OccursAt(s, pat, i) && k + |pat| <= |t|
    requires forall j :: i <= j < i + |pat| ==> s[j] == t[j + (k - i)]
    ensures OccursAt(t, pat, k)
  {
  }

  /** Texts that agree up to the end of the first start marker find it at the same place. */
  lemma FirstStartKept(text: string, other: string, start: string, at: nat)
    requires IndexOf(text, start, 0) == at && at + |start| <= |other|
    requires forall j :: 0 <= j < at + |start| ==> j < |text| && other[j] == text[j]
    ensures IndexOf(other, start, 0) == at
  {
    MoveOccurrence(text, at, other, at, start);
    var found: nat := IndexOf(other, start, 0);
    if found < at {
      MoveOccurrence(other, found, text, found, start);
    }
  }

  lemma OpensCut(text: string, before: string, indent: string, start: string)
    requires start != "" && NL !in start && Opens(text, before, indent, start)
    ensures var at := |before| + |indent|;
      IndexOf(text, start, 0) == at < |text| && LineStart(text, at) == |before| && text[..|before|] == before && text[|before|..at] == indent
  {
    OpensLine(text, before, indent, start);
    var head := before + indent + start;
    assert head == text[..|head|];
    assert forall j :: 0 <= j < |head| ==> text[j] == head[j];
  }

  lemma RunFinds(text: string, at: nat, lineStart: nat, start: string, end: string, lines: seq<string>)
    requires Markers(start, end) && IndexOf(text, start, 0) == at && at < |text| && LineStart(text, at) == lineStart <= at
    ensures var endIndex := IndexOf(text, end, at);
      && endIndex <= |text|
      && ReplaceBlockLines(text, start, end, lines) ==
        if endIndex == -1 then MissingEnd
        else Rewritten(WriteBlock(text, lineStart, at, endIndex, start, end, lines))
  {
  }

  /** One run on a text that opens with the block: everything up to the end marker's line is replaced. */
  lemma RunOn(text: string, before: string, indent: string, start: string, end: string, lines: seq<string>)
    requires Markers(start, end) && Opens(text, before, indent, start)
    ensures var endIndex := IndexOf(text, end, |before| + |indent|);
      && endIndex <= |text|
      && ReplaceBlockLines(text, start, end, lines) ==
        if endIndex == -1 then MissingEnd
        else Rewritten(Written(before, indent, Body(indent, start, lines), end, TailAfter(text[LineEnd(text, endIndex)..])))
  {
    hide Body, Written, Opens, ReplaceBlockLines;
    OpensCut(text, before, indent, start);
    RunFinds(text, |before| + |indent|, |before|, start, end, lines);
    var endIndex := IndexOf(text, end, |before| + |indent|);
    if endIndex != -1 {
      BlockIsWritten(text, before, indent, endIndex, start, end, lines);
    }
  }

  function TailAfter(after: string): string {
    if after == "" then "" else [NL] + after
  }

  lemma BlockIsWritten(text: string, before: string, indent: string, endIndex: nat, start: string, end: string, lines: seq<string>)
    requires |before| + |indent| <= |text| && endIndex <= |text|
    requires text[..|before|] == before && text[|before|..|before| + |indent|] == indent
    ensures WriteBlock(text, |before|, |before| + |indent|, endIndex, start, end, lines)
      == Written(before, indent, Body(indent, start, lines), end, TailAfter(text[LineEnd(text, endIndex)..]))
  {
    ReplacementParts(indent, start, end, lines);
  }

  /** Every text in which a run finds the start marker opens with its block. */
  lemma TextOpens(text: string, start: string)
    requires start != "" && NL !in start && IndexOf(text, start, 0) != -1
    ensures var at := IndexOf(text, start, 0);
      Opens(text, text[..LineStart(text, at)], text[LineStart(text, at)..at], start)
  {
    hide IndexOf;
    var at: nat := IndexOf(text, start, 0);
    assert text[at..at + |start|] == start;
    assert text[at] == start[0];
    var ls := LineStart(text, at);
    assert text[..ls] + text[ls..at] + start == text[..at + |start|];
    LineStartAfterBreak(text, at);
  }

  lemma {:induction false} LineStartAfterBreak(text: string, i: nat)
    requires i < |text|
    ensures LineStart(text, i) == 0 || text[LineStart(text, i) - 1] == NL
    decreases i
  {
    if text[i] != NL && i > 0 { LineStartAfterBreak(text, i - 1); }
  }

  // ---- running again ----

  lemma {:induction false} LineEndAt(text: string, i: nat, e: nat)
    requires i <= e <= |text| && forall j :: i <= j < e ==> text[j] != NL
    ensures LineEnd(text, i) == if e < |text| then LineEnd(text, e) else e
    decreases e - i
  {
    if i < e { LineEndAt(text, i + 1, e); }
  }

  lemma {:induction false} LineEndWithin(text: string, i: nat, e: nat)
    requires i <= e < |text| && text[e] == NL
    ensures LineEnd(text, i) <= e + 1
    decreases e - i
  {
    if i < e && text[i] != NL { LineEndWithin(text, i + 1, e); }
  }

  /** The written text: block, and what follows it on its own lines. */
  function Written(before: string, indent: string, body: string, end: string, tail: string): string {
    before + indent + body + (indent + end) + tail
  }

  /** The tail of a written text is empty, or a line break and more. */
  predicate Tail(tail: string) {
    tail == "" || (|tail| > 1 && tail[0] == NL)
  }

  lemma NotInBody(w: string, at: nat, body: string, end: string)
    requires end != "" && NL !in end && body != "" && body[|body| - 1] == NL && !Contains(body, end)
    requires OccursAt(w, body, at)
    ensures IndexOf(w, end, at) == -1 || IndexOf(w, end, at) >= at + |body|
  {
    var e := IndexOf(w, end, at);
    if e != -1 && e < at + |body| {
      assert w[at + (|body| - 1)] == NL;
      NotAcross(w, end, e, at + |body| - 1);
      forall j | e <= j < e + |end| ensures w[j] == body[j - at] {
        assert w[at + (j - at)] == body[j - at];
      }
      MoveOccurrence(w, e, body, e - at, end);
    }
  }

  /** If the end marker is not in the body, the first one found is on the block's last line. */
  lemma EndOnLastLine(w: string, at: nat, body: string, indent: nat, end: string)
    requires end != "" && NL !in end && body != "" && body[|body| - 1] == NL && !Contains(body, end)
    requires OccursAt(w, body, at) && OccursAt(w, end, at + |body| + indent)
    ensures at + |body| <= IndexOf(w, end, at) <= at + |body| + indent
  {
    NotInBody(w, at, body, end);
  }

  /** Where the block's parts are in a written text, at being the place of the start marker. */
  ghost predicate Parts(w: string, at: nat, indent: nat, body: string, end: string, tail: string) {
    var last := at + |body|;
    && OccursAt(w, body, at) && OccursAt(w, end, last + indent)
    && (forall j :: last <= j < last + indent ==> w[j] != NL)
    && w[last + indent + |end|..] == tail
  }

  /** An occurrence of a marker without line breaks does not reach over one. */
  lemma NotAcross(w: string, pat: string, i: nat, e: nat)
    requires OccursAt(w, pat, i) && NL !in pat && i <= e < |w| && w[e] == NL
    ensures i + |pat| <= e
  {
  }

  lemma LastLineEnds(w: string, at: nat, indent: nat, body: string, end: string, tail: string, e: nat)
    requires Parts(w, at, indent, body, end, tail) && NL !in end && Tail(tail)
    requires at + |body| <= e <= at + |body| + indent
    ensures TailAfter(w[LineEnd(w, e)..]) == tail
  {
    var last := at + |body| + indent;
    var stop := last + |end|;
    forall j | e <= j < stop ensures w[j] != NL {
      if j >= last { assert w[last + (j - last)] == end[j - last]; }
    }
    LineEndAt(w, e, stop);
    if tail != "" {
      assert w[stop] == w[stop..][0] == NL;
      assert w[stop + 1..] == w[stop..][1..];
      assert [NL] + tail[1..] == tail;
    }
  }

  lemma WrittenOpens(text: string, before: string, indent: string, start: string, body: string, end: string, tail: string)
    requires Opens(text, before, indent, start) && start <= body
    ensures Opens(Written(before, indent, body, end, tail), before, indent, start)
  {
    hide IndexOf, OccursAt;
    var w := Written(before, indent, body, end, tail);
    var at := |before| + |indent|;
    var head := before + indent + start;
    assert forall j :: 0 <= j < |head| ==> head[j] == text[..|head|][j] == text[j];
    forall j | 0 <= j < |head| ensures w[j] == head[j] {
      if j >= at { assert w[at + (j - at)] == body[j - at] == start[j - at]; }
    }
    assert head == w[..|head|];
    FirstStartKept(text, w, start, at);
  }

  lemma BodyShape(indent: string, start: string, lines: seq<string>)
    ensures var body := Body(indent, start, lines);
      body != "" && body[|body| - 1] == NL && start <= body
  {
  }

  /** Without the end marker in the body the same lines are found and written again. */
  lemma TailFoundAgain(w: string, at: nat, indent: nat, body: string, end: string, tail: string)
    requires Parts(w, at, indent, body, end, tail) && end != "" && NL !in end && Tail(tail)
    requires body != "" && body[|body| - 1] == NL && !Contains(body, end)
    ensures var e := IndexOf(w, end, at);
      0 <= e <= |w| && TailAfter(w[LineEnd(w, e)..]) == tail
  {
    EndOnLastLine(w, at, body, indent, end);
    LastLineEnds(w, at, indent, body, end, tail, IndexOf(w, end, at));
  }

  /** With the end marker in the body less is replaced than was written: the tail found is longer. */
  lemma TailGrows(w: string, at: nat, indent: nat, body: string, end: string, tail: string)
    requires Parts(w, at, indent, body, end, tail) && end != ""
    requires body != "" && body[|body| - 1] == NL && Contains(body, end)
    ensures var e := IndexOf(w, end, at);
      0 <= e <= |w| && |TailAfter(w[LineEnd(w, e)..])| > |tail|
  {
    LineEndsEarly(w, at, body, end);
  }

  /** Running on a text that has the parts of a written block finds its tail again, or a longer one. */
  lemma TailFound(w: string, before: string, indent: string, start: string, end: string, lines: seq<string>, tail: string)
    returns (found: string)
    requires Markers(start, end) && Opens(w, before, indent, start) && Tail(tail)
    requires Parts(w, |before| + |indent|, |indent|, Body(indent, start, lines), end, tail)
    ensures ReplaceBlockLines(w, start, end, lines) == Rewritten(Written(before, indent, Body(indent, start, lines), end, found))
    ensures if Contains(Body(indent, start, lines), end) then |found| > |tail| else found == tail
  {
    hide Body, Written, IndexOf, OccursAt, Contains, Opens, Parts, ReplaceBlockLines;
    var at := |before| + |indent|;
    var body := Body(indent, start, lines);
    BodyShape(indent, start, lines);
    RunOn(w, before, indent, start, end, lines);
    if Contains(body, end) {
      TailGrows(w, at, |indent|, body, end, tail);
    } else {
      TailFoundAgain(w, at, |indent|, body, end, tail);
    }
    found := TailAfter(w[LineEnd(w, IndexOf(w, end, at))..]);
  }

  /** Running again on a written block gives it back exactly when its body does not hold the end marker. */
  lemma RunAgain(text: string, before: string, indent: string, start: string, end: string, lines: seq<string>, tail: string)
    requires Markers(start, end) && Opens(text, before, indent, start) && Tail(tail)
    ensures var body := Body(indent, start, lines);
      var w := Written(before, indent, body, end, tail);
      ReplaceBlockLines(w, start, end, lines) == Rewritten(w) <==> !Contains(body, end)
  {
    hide Body, Written, IndexOf, OccursAt, Contains, Opens, Parts, ReplaceBlockLines, Tail, Markers;
    var body := Body(indent, start, lines);
    BodyShape(indent, start, lines);
    WrittenOpens(text, before, indent, start, body, end, tail);
    WrittenParts(text, before, indent, start, body, end, tail);
    var found := TailFound(Written(before, indent, body, end, tail), before, indent, start, end, lines, tail);
    SameTail(before, indent, body, end, tail, found);
  }

  lemma WrittenParts(text: string, before: string, indent: string, start: string, body: string, end: string, tail: string)
    requires Opens(text, before, indent, start)
    ensures Parts(Written(before, indent, body, end, tail), |before| + |indent|, |indent|, body, end, tail)
  {
  }

  lemma SameTail(before: string, indent: string, body: string, end: string, tail: string, found: string)
    ensures Written(before, indent, body, end, tail) == Written(before, indent, body, end, found) ==> tail == found
  {
    var head := before + indent + body + (indent + end);
    assert (head + tail)[|head|..] == tail && (head + found)[|head|..] == found;
  }

  lemma LineEndsEarly(w: string, at: nat, body: string, end: string)
    requires end != "" && Contains(body, end) && OccursAt(w, body, at) && body != "" && body[|body| - 1] == NL
    ensures at <= IndexOf(w, end, at) <= |w| && LineEnd(w, IndexOf(w, end, at)) <= at + |body|
  {
    EndInBody(w, at, body, end);
    assert w[at + (|body| - 1)] == NL;
    LineEndWithin(w, IndexOf(w, end, at), at + |body| - 1);
  }

  lemma EndInBody(w: string, at: nat, body: string, end: string)
    requires end != "" && Contains(body, end) && OccursAt(w, body, at)
    ensures at <= IndexOf(w, end, at) < at + |body|
  {
    var o: nat := IndexOf(body, end, 0);
    forall j | o <= j < o + |end| ensures body[j] == w[j + at] { assert body[j] == w[at + j]; }
    MoveOccurrence(body, o, w, at + o, end);
  }

  // ---- the condition on markers and lines ----

  /** A marker without line breaks occurs in joined lines exactly when it occurs in one of them. */
  lemma {:induction false} ContainsJoined(parts: seq<string>, pat: string)
    requires parts != [] && pat != "" && NL !in pat
    ensures Contains(Join(parts, NL) + [NL], pat) <==> exists i :: 0 <= i < |parts| && Contains(parts[i], pat)
    decreases |parts|
  {
    var first := parts[0];
    var rest := if |parts| == 1 then "" else Join(parts[1..], NL) + [NL];
    assert Join(parts, NL) + [NL] == first + [NL] + rest;
    ContainsParts(first, rest, pat);
    if |parts| > 1 {
      ContainsJoined(parts[1..], pat);
      if exists i :: 0 <= i < |parts[1..]| && Contains(parts[1..][i], pat) {
        var i :| 0 <= i < |parts[1..]| && Contains(parts[1..][i], pat);
        assert Contains(parts[i + 1], pat);
      }
      if exists i :: 0 <= i < |parts| && Contains(parts[i], pat) {
        var i :| 0 <= i < |parts| && Contains(parts[i], pat);
        if i > 0 { assert Contains(parts[1..][i - 1], pat); }
      }
    }
  }

  lemma ContainsParts(a: string, b: string, pat: string)
    requires pat != "" && NL !in pat
    ensures Contains(a + [NL] + b, pat) <==> Contains(a, pat) || Contains(b, pat)
  {
    hide IndexOf;
    var s := a + [NL] + b;
    assert forall j :: 0 <= j < |a| ==> s[j] == a[j];
    assert forall j :: 0 <= j < |b| ==> s[|a| + 1 + j] == b[j];
    if Contains(a, pat) { MoveOccurrence(a, IndexOf(a, pat, 0), s, IndexOf(a, pat, 0), pat); }
    if Contains(b, pat) { MoveOccurrence(b, IndexOf(b, pat, 0), s, |a| + 1 + IndexOf(b, pat, 0), pat); }
    if Contains(s, pat) { PartHolds(a, b, pat, IndexOf(s, pat, 0)); }
  }

  lemma PartHolds(a: string, b: string, pat: string, i: nat)
    requires pat != "" && NL !in pat && OccursAt(a + [NL] + b, pat, i)
    ensures Contains(a, pat) || Contains(b, pat)
  {
    hide IndexOf;
    var s := a + [NL] + b;
    assert forall j :: 0 <= j < |a| ==> s[j] == a[j];
    assert forall j :: 0 <= j < |b| ==> s[|a| + 1 + j] == b[j];
    if i <= |a| {
      NotAcross(s, pat, i, |a|);
      MoveOccurrence(s, i, a, i, pat);
    } else {
      MoveOccurrence(s, i, b, i - |a| - 1, pat);
    }
  }

  /** The indentation a run finds: the text before the start marker on its line. */
  function IndentOf(text: string, start: string): string {
    var at := IndexOf(text, start, 0);
    if at == -1 then "" else Slice(text, LineStartOf(text, at), at)
  }

  ghost predicate EndMarkerApart(text: string, start: string, end: string, lines: seq<string>) {
    !Contains(start, end) && forall i :: 0 <= i < |lines| ==> !Contains(IndentOf(text, start) + lines[i], end)
  }

  lemma BodyContains(indent: string, start: string, end: string, lines: seq<string>)
    requires Markers(start, end)
    ensures Contains(Body(indent, start, lines), end) <==>
      Contains(start, end) || exists i :: 0 <= i < |lines| && Contains(indent + lines[i], end)
  {
    var parts := [start] + IndentedLines(indent, lines);
    ContainsJoined(parts, end);
    assert parts[0] == start;
    forall i | 0 <= i < |lines| ensures parts[i + 1] == indent + lines[i] {}
    if exists i :: 0 <= i < |parts| && Contains(parts[i], end) {
      var i :| 0 <= i < |parts| && Contains(parts[i], end);
      if i > 0 { assert Contains(indent + lines[i - 1], end); }
    }
  }

  /** A successful rewrite as block and tail. */
  lemma RewriteParts(text: string, start: string, end: string, lines: seq<string>)
    requires Markers(start, end) && ReplaceBlockLines(text, start, end, lines).Rewritten?
    ensures var at := IndexOf(text, start, 0);
      && 0 <= at < |text| && LineStart(text, at) <= at
      && var before, indent := text[..LineStart(text, at)], text[LineStart(text, at)..at];
      && var after := text[LineEnd(text, IndexOf(text, end, at))..];
      && Opens(text, before, indent, start) && IndentOf(text, start) == indent
      && ReplaceBlockLines(text, start, end, lines).text
           == Written(before, indent, Body(indent, start, lines), end, TailAfter(after))
  {
    hide Body, Written, IndexOf, Opens, ReplaceBlockLines;
    RewrittenFinds(text, start, end, lines);
    TextOpens(text, start);
    var at: nat := IndexOf(text, start, 0);
    RunOn(text, text[..LineStart(text, at)], text[LineStart(text, at)..at], start, end, lines);
  }

  lemma RewrittenFinds(text: string, start: string, end: string, lines: seq<string>)
    requires ReplaceBlockLines(text, start, end, lines).Rewritten?
    ensures IndexOf(text, start, 0) != -1 && IndexOf(text, end, IndexOf(text, start, 0)) != -1
  {
  }

  /**
   A rewrite that succeeds is idempotent exactly when the end marker occurs neither in the start marker
   nor in any of the lines as they are written, indented.
   */
  lemma RewriteIdempotentExactly(text: string, start: string, end: string, lines: seq<string>)
    requires Markers(start, end) && ReplaceBlockLines(text, start, end, lines).Rewritten?
    ensures var once := ReplaceBlockLines(text, start, end, lines).text;
      ReplaceBlockLines(once, start, end, lines) == Rewritten(once) <==> EndMarkerApart(text, start, end, lines)
  {
    RewriteParts(text, start, end, lines);
    var at: nat := IndexOf(text, start, 0);
    var before, indent := text[..LineStart(text, at)], text[LineStart(text, at)..at];
    var after := text[LineEnd(text, IndexOf(text, end, at))..];
    RunAgain(text, before, indent, start, end, lines, TailAfter(after));
    BodyContains(indent, start, end, lines);
  }

  /** Before the line of the start marker and after the line of the end marker nothing changes. */
  lemma OutsideStays(text: string, start: string, end: string, lines: seq<string>)
    requires Markers(start, end) && ReplaceBlockLines(text, start, end, lines).Rewritten?
    ensures var at := IndexOf(text, start, 0);
      var endIndex := IndexOf(text, end, at);
      var once := ReplaceBlockLines(text, start, end, lines).text;
      var before, after := text[..LineStart(text, at)], text[LineEnd(text, endIndex)..];
      before <= once && |after| <= |once| && once[|once| - |after|..] == after
  {
    RewriteParts(text, start, end, lines);
    var at: nat := IndexOf(text, start, 0);
    var before, indent := text[..LineStart(text, at)], text[LineStart(text, at)..at];
    var after := text[LineEnd(text, IndexOf(text, end, at))..];
  }

  // ---- the result line by line ----

  /** A line ends behind the next line break, or with the text. */
  lemma {:induction false} LineEndExactly(text: string, i: nat)
    requires i <= |text|
    ensures var e := LineEnd(text, i);
      if e > i && text[e - 1] == NL then forall j :: i <= j < e - 1 ==> text[j] != NL
      else e == |text| && forall j :: i <= j < e ==> text[j] != NL
    decreases |text| - i
  {
    if i < |text| && text[i] != NL { LineEndExactly(text, i + 1); }
  }

  /** The lines of a block, in order. */
  lemma BlockLines(indent: string, start: string, end: string, lines: seq<string>)
    requires Markers(start, end) && NL !in indent && forall i :: 0 <= i < |lines| ==> NL !in lines[i]
    ensures var block := Split(Replacement(indent, start, end, lines), NL);
      && |block| == |lines| + 2 && block[0] == indent + start && block[|lines| + 1] == indent + end
      && forall i :: 0 <= i < |lines| ==> block[i + 1] == indent + lines[i]
  {
    var parts := [indent + start] + IndentedLines(indent, lines) + [indent + end];
    forall i | 0 <= i < |parts| ensures NL !in parts[i] {
      if 0 < i <= |lines| { assert parts[i] == indent + lines[i - 1]; }
    }
    SplitJoin(parts, NL);
  }

  /**
   A rewrite that succeeds: the text falls into what is before the start marker's line, its indentation, the first
   start marker, and the rest; the end marker is the first one from there on; written are the same beginning, the
   block, and, on a new line, what follows the end marker's line.
   */
  lemma RewriteSays(text: string, start: string, end: string, lines: seq<string>)
    returns (before: string, indent: string, rest: string, at: nat, after: string)
    requires Markers(start, end) && ReplaceBlockLines(text, start, end, lines).Rewritten?
    ensures text == before + (indent + (start + rest)) && (before == "" || before[|before| - 1] == NL) && NL !in indent
    ensures forall i :: 0 <= i < |before| + |indent| ==> !OccursAt(text, start, i)
    ensures |before| + |indent| <= at <= |text| && OccursAt(text, end, at)
    ensures forall i :: |before| + |indent| <= i < at ==> !OccursAt(text, end, i)
    ensures after == text[LineEnd(text, at)..]
    ensures ReplaceBlockLines(text, start, end, lines).text
      == before + Replacement(indent, start, end, lines) + (if after == "" then "" else "\n" + after)
  {
    RewriteParts(text, start, end, lines);
    RewrittenFinds(text, start, end, lines);
    var p: nat := IndexOf(text, start, 0);
    before, indent := text[..LineStart(text, p)], text[LineStart(text, p)..p];
    rest := text[p + |start|..];
    at := IndexOf(text, end, p);
    after := text[LineEnd(text, at)..];
    SaysText(text, start, p, LineStart(text, p));
    OpensSays(text, before, indent, start);
    ReplacementParts(indent, start, end, lines);
    WrittenSays(before, indent, Body(indent, start, lines), end, after);
  }

  lemma SaysText(text: string, start: string, p: nat, ls: nat)
    requires OccursAt(text, start, p) && ls <= p
    ensures text == text[..ls] + (text[ls..p] + (start + text[p + |start|..]))
  {
    assert text[p..p + |start|] == start;
  }

  lemma OpensSays(text: string, before: string, indent: string, start: string)
    requires Opens(text, before, indent, start)
    ensures (before == "" || before[|before| - 1] == NL) && NL !in indent
  {
  }

  lemma WrittenSays(before: string, indent: string, body: string, end: string, after: string)
    ensures Written(before, indent, body, end, TailAfter(after))
      == before + (indent + body + (indent + end)) + (if after == "" then "" else "\n" + after)
  {
    assert before + indent + body + (indent + end) == before + (indent + body + (indent + end));
  }
}
