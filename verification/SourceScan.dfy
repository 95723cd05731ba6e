/**
 The quote-aware scanner of the temporary-path guardrail: finding the parenthesis that closes a call,
 and splitting the text between into top-level arguments.
 */
module SourceScan {
  import opened Text

  datatype Quote = Quote(open: Option<char>, escaped: bool)

  const Unquoted := Quote(None, false)
  const COMMA := ','

  predicate IsQuote(ch: char) {
    ch == '\'' || ch == '"' || ch == '`'
  }

  /** The next state inside a quoted section. */
  function Consume(q: Quote, ch: char): Quote
    requires q.open.Some?
  {
    if q.escaped then q.(escaped := false)
    else if ch == '\\' then q.(escaped := true)
    else if ch == q.open.value then q.(open := None)
    else q
  }

  class QuoteScanState {
    var quote: Option<char>
    var escaped: bool

    constructor ()
      ensures View() == Unquoted
    {
      quote, escaped := None, false;
    }

    function View(): Quote
      reads this
    {
      Quote(quote, escaped)
    }

    method BeginQuotedSection(ch: char) returns (begun: bool)
      modifies this
      ensures begun == IsQuote(ch)
      ensures View() == if begun then old(View()).(open := Some(ch)) else old(View())
    {
      if ch != '\'' && ch != '"' && ch != '`' {
        return false;
      }
      quote := Some(ch);
      return true;
    }

    method ConsumeQuotedChar(ch: char) returns (consumed: bool)
      modifies this
      ensures consumed == old(quote.Some?)
      ensures View() == if consumed then Consume(old(View()), ch) else old(View())
    {
      if quote == None {
        return false;
      }
      if escaped {
        escaped := false;
        return true;
      }
      if ch == '\\' {
        escaped := true;
        return true;
      }
      if ch == quote.value {
        quote := None;
      }
      return true;
    }
  }

  // ---- the closing parenthesis ----

  /** Scanning from i at a depth; -1 when the text ends first. */
  function FindFrom(source: string, i: nat, q: Quote, depth: nat): (r: int)
    ensures r == -1 || (i <= r < |source| && source[r] == ')')
    decreases |source| - i
  {
    if i >= |source| then -1
    else
      var ch := source[i];
      if q.open.Some? then FindFrom(source, i + 1, Consume(q, ch), depth)
      else if IsQuote(ch) then FindFrom(source, i + 1, q.(open := Some(ch)), depth)
      else if ch == '(' then FindFrom(source, i + 1, q, depth + 1)
      else if ch == ')' then if depth <= 1 then i else FindFrom(source, i + 1, q, depth - 1)
      else FindFrom(source, i + 1, q, depth)
  }

  method FindMatchingParen(source: string, openIndex: nat) returns (r: int)
    ensures r == FindFrom(source, openIndex + 1, Unquoted, 1)
  {
    var depth: nat := 1;
    var quoteState := new QuoteScanState();
    var i := openIndex + 1;
    while i < |source|
      invariant depth >= 1
      invariant FindFrom(source, i, quoteState.View(), depth) == FindFrom(source, openIndex + 1, Unquoted, 1)
      decreases |source| - i
    {
      var ch := source[i];
      i := i + 1;
      var consumed := quoteState.ConsumeQuotedChar(ch);
      if consumed {
        continue;
      }
      var begun := quoteState.BeginQuotedSection(ch);
      if begun {
        continue;
      }
      if ch == '(' {
        depth := depth + 1;
        continue;
      }
      if ch == ')' {
        depth := depth - 1;
        if depth == 0 {
          return i - 1;
        }
      }
    }
    return -1;
  }

  // ---- top-level arguments ----

  /** Quote state and the three bracket counters, which stop at zero. */
  datatype Levels = Levels(q: Quote, paren: nat, bracket: nat, brace: nat)

  const Top := Levels(Unquoted, 0, 0, 0)

  function Down(n: nat): nat {
    if n > 0 then n - 1 else 0
  }

  function Move(s: Levels, ch: char): Levels {
    if s.q.open.Some? then s.(q := Consume(s.q, ch))
    else if IsQuote(ch) then s.(q := s.q.(open := Some(ch)))
    else if ch == '(' then s.(paren := s.paren + 1)
    else if ch == ')' then s.(paren := Down(s.paren))
    else if ch == '[' then s.(bracket := s.bracket + 1)
    else if ch == ']' then s.(bracket := Down(s.bracket))
    else if ch == '{' then s.(brace := s.brace + 1)
    else if ch == '}' then s.(brace := Down(s.brace))
    else s
  }

  predicate Separates(s: Levels, ch: char) {
    s.q.open.None? && ch == COMMA && s.paren == 0 && s.bracket == 0 && s.brace == 0
  }

  function Prepend(current: string, pieces: seq<string>): seq<string>
    requires |pieces| > 0
  {
    [current + pieces[0]] + pieces[1..]
  }

  lemma PrependTwice(a: string, b: string, pieces: seq<string>)
    requires |pieces| > 0
    ensures Prepend(a, Prepend(b, pieces)) == Prepend(a + b, pieces)
    ensures Prepend("", pieces) == pieces
  {
    assert a + (b + pieces[0]) == (a + b) + pieces[0];
    assert "" + pieces[0] == pieces[0];
    assert Prepend(b, pieces)[1..] == pieces[1..];
  }

  /** The pieces between separators, with all their white space. */
  function Pieces(s: Levels, source: string): (r: seq<string>)
    ensures |r| > 0
    decreases |source|
  {
    if source == "" then [""]
    else if Separates(s, source[0]) then [""] + Pieces(s, source[1..])
    else Prepend([source[0]], Pieces(Move(s, source[0]), source[1..]))
  }

  function TrimAll(pieces: seq<string>): seq<string> {
    seq(|pieces|, i requires 0 <= i < |pieces| => Trim(pieces[i]))
  }

  /** All pieces trimmed; a blank last one does not count. */
  function Arguments(pieces: seq<string>): seq<string>
    requires |pieces| > 0
  {
    var n := |pieces| - 1;
    TrimAll(pieces[..n]) + (if Trim(pieces[n]) == "" then [] else [Trim(pieces[n])])
  }

  lemma PiecesStep(current: string, s: Levels, text: string)
    requires text != ""
    ensures Prepend(current, Pieces(s, text)) ==
      if Separates(s, text[0]) then [current] + Pieces(s, text[1..])
      else Prepend(current + [text[0]], Pieces(Move(s, text[0]), text[1..]))
  {
    assert current + "" == current;
    PrependTwice(current, [text[0]], Pieces(Move(s, text[0]), text[1..]));
  }

  lemma Regroup(done: seq<string>, current: string, rest: seq<string>)
    ensures done + ([current] + rest) == (done + [current]) + rest
  {
  }

  /** One character more: a piece is done, or the current one grows. */
  lemma ScanStep(all: seq<string>, done: seq<string>, current: string, s: Levels, text: string)
    requires text != "" && all == done + Prepend(current, Pieces(s, text))
    ensures var rest := Pieces(Move(s, text[0]), text[1..]);
      all == if Separates(s, text[0]) then (done + [current]) + Prepend("", rest)
             else done + Prepend(current + [text[0]], rest)
  {
    var rest := Pieces(Move(s, text[0]), text[1..]);
    PiecesStep(current, s, text);
    if Separates(s, text[0]) {
      PrependTwice("", "", rest);
      Regroup(done, current, rest);
    }
  }

  method SplitTopLevelArguments(source: string) returns (out: seq<string>)
    ensures out == Arguments(Pieces(Top, source))
  {
    out := [];
    ghost var done: seq<string> := [];
    var current := "";
    var parenDepth: nat, bracketDepth: nat, braceDepth: nat := 0, 0, 0;
    var quoteState := new QuoteScanState();
    ghost var all := Pieces(Top, source);
    ghost var state, rest := Top, all;
    assert source[0..] == source;
    PrependTwice("", "", all);
    for i := 0 to |source|
      invariant out == TrimAll(done)
      invariant state == Levels(quoteState.View(), parenDepth, bracketDepth, braceDepth)
      invariant rest == Pieces(state, source[i..]) && all == done + Prepend(current, rest)
    {
      var ch := source[i];
      ScanStep(all, done, current, state, source[i..]);
      assert source[i..][1..] == source[i + 1..];
      state := Move(state, ch);
      rest := Pieces(state, source[i + 1..]);
      if quoteState.quote.Some? {
        current := current + [ch];
        var _ := quoteState.ConsumeQuotedChar(ch);
        continue;
      }
      var begun := quoteState.BeginQuotedSection(ch);
      if begun {
        current := current + [ch];
        continue;
      }
      if ch == '(' {
        parenDepth := parenDepth + 1;
        current := current + [ch];
        continue;
      }
      if ch == ')' {
        if parenDepth > 0 { parenDepth := parenDepth - 1; }
        current := current + [ch];
        continue;
      }
      if ch == '[' {
        bracketDepth := bracketDepth + 1;
        current := current + [ch];
        continue;
      }
      if ch == ']' {
        if bracketDepth > 0 { bracketDepth := bracketDepth - 1; }
        current := current + [ch];
        continue;
      }
      if ch == '{' {
        braceDepth := braceDepth + 1;
        current := current + [ch];
        continue;
      }
      if ch == '}' {
        if braceDepth > 0 { braceDepth := braceDepth - 1; }
        current := current + [ch];
        continue;
      }
      if ch == COMMA && parenDepth == 0 && bracketDepth == 0 && braceDepth == 0 {
        out := out + [Trim(current)];
        done := done + [current];
        current := "";
        continue;
      }
      current := current + [ch];
    }
    assert source[|source|..] == "" && current + "" == current;
    assert all == done + [current];
    if Trim(current) != "" {
      out := out + [Trim(current)];
    }
  }

  /** The pieces are the source: joined by commas they give it back, for every source. */
  lemma {:induction false} JoinPieces(s: Levels, source: string)
    ensures Join(Pieces(s, source), COMMA) == source
    decreases |source|
  {
    if source != "" {
      var pieces := Pieces(s, source);
      if Separates(s, source[0]) {
        JoinPieces(s, source[1..]);
        assert pieces[1..] == Pieces(s, source[1..]);
        assert source == [COMMA] + source[1..];
      } else {
        JoinPieces(Move(s, source[0]), source[1..]);
        var rest := Pieces(Move(s, source[0]), source[1..]);
        assert pieces[1..] == rest[1..];
        assert source == [source[0]] + source[1..];
      }
    }
  }

  // ---- printing and scanning back ----

  /** One step that neither closes an unopened bracket nor meets a separator. */
  predicate Inside(s: Levels, ch: char) {
    s.q.open.Some? ||
    (&& !Separates(s, ch)
     && (ch == ')' ==> s.paren > 0) && (ch == ']' ==> s.bracket > 0) && (ch == '}' ==> s.brace > 0))
  }

  /** Reading the text from s stays inside and ends in e. */
  predicate Reads(s: Levels, text: string, e: Levels)
    decreases |text|
  {
    if text == "" then s == e
    else Inside(s, text[0]) && Reads(Move(s, text[0]), text[1..], e)
  }

  /** An argument text: quotes closed, brackets balanced without dipping, no top-level comma. */
  predicate SelfContained(text: string) {
    Reads(Top, text, Top)
  }

  lemma FindStep(source: string, i: nat, s: Levels)
    requires i < |source| && Inside(s, source[i])
    ensures FindFrom(source, i, s.q, s.paren + 1)
         == FindFrom(source, i + 1, Move(s, source[i]).q, Move(s, source[i]).paren + 1)
  {
  }

  /** Where a text occurs, its parts occur. */
  lemma OccursParts(source: string, a: string, b: string, i: nat)
    requires OccursAt(source, a + b, i)
    ensures OccursAt(source, a, i) && OccursAt(source, b, i + |a|)
  {
    var text := source[i..i + |a + b|];
    assert text[..|a|] == a && text[|a|..] == b;
    assert source[i..i + |a|] == text[..|a|] && source[i + |a|..i + |a| + |b|] == text[|a|..];
  }

  lemma FirstOccurs(source: string, text: string, i: nat)
    requires text != "" && OccursAt(source, text, i)
    ensures i < |source| && source[i] == text[0] && OccursAt(source, text[1..], i + 1)
  {
  }

  lemma ReadsNothing(s: Levels, e: Levels)
    requires Reads(s, "", e)
    ensures s == e
  {
  }

  lemma ReadsStep(s: Levels, text: string, e: Levels)
    requires text != "" && Reads(s, text, e)
    ensures Inside(s, text[0]) && Reads(Move(s, text[0]), text[1..], e)
  {
  }

  /** The scan for the closing parenthesis passes over a text that is read inside. */
  lemma {:induction false} FindPasses(source: string, i: nat, text: string, s: Levels, e: Levels)
    requires OccursAt(source, text, i) && Reads(s, text, e)
    ensures FindFrom(source, i, s.q, s.paren + 1) == FindFrom(source, i + |text|, e.q, e.paren + 1)
    decreases |text|
  {
    hide FindFrom, OccursAt, Reads;
    if text == "" {
      ReadsNothing(s, e);
    } else {
      FirstOccurs(source, text, i);
      ReadsStep(s, text, e);
      FindStep(source, i, s);
      FindPasses(source, i + 1, text[1..], Move(s, text[0]), e);
    }
  }

  lemma FindComma(source: string, i: nat)
    requires i < |source| && source[i] == COMMA
    ensures FindFrom(source, i, Unquoted, 1) == FindFrom(source, i + 1, Unquoted, 1)
  {
  }

  /** Where joined pieces occur, the first one, a comma and the joined rest occur. */
  lemma JoinOccurs(source: string, i: nat, pieces: seq<string>)
    requires |pieces| > 1 && OccursAt(source, Join(pieces, COMMA), i)
    ensures var n := i + |pieces[0]|;
      && OccursAt(source, pieces[0], i) && n < |source| && source[n] == COMMA
      && OccursAt(source, Join(pieces[1..], COMMA), n + 1)
      && |Join(pieces, COMMA)| == |pieces[0]| + 1 + |Join(pieces[1..], COMMA)|
  {
    var p, rest := pieces[0], Join(pieces[1..], COMMA);
    assert p + [COMMA] + rest == p + ([COMMA] + rest);
    OccursParts(source, p, [COMMA] + rest, i);
    OccursParts(source, [COMMA], rest, i + |p|);
  }

  lemma FindPassesOne(source: string, i: nat, text: string)
    requires OccursAt(source, text, i) && SelfContained(text)
    ensures FindFrom(source, i, Unquoted, 1) == FindFrom(source, i + |text|, Unquoted, 1)
  {
    hide FindFrom, OccursAt;
    FindPasses(source, i, text, Top, Top);
  }

  lemma {:induction false} FindPassesAll(source: string, i: nat, pieces: seq<string>)
    requires OccursAt(source, Join(pieces, COMMA), i)
    requires forall k :: 0 <= k < |pieces| ==> SelfContained(pieces[k])
    ensures FindFrom(source, i, Unquoted, 1) == FindFrom(source, i + |Join(pieces, COMMA)|, Unquoted, 1)
    decreases |pieces|
  {
    hide FindFrom, OccursAt, Reads;
    if |pieces| == 1 {
      FindPassesOne(source, i, pieces[0]);
    } else if |pieces| > 1 {
      JoinOccurs(source, i, pieces);
      FindPassesOne(source, i, pieces[0]);
      FindComma(source, i + |pieces[0]|);
      FindPassesAll(source, i + |pieces[0]| + 1, pieces[1..]);
    }
  }

  lemma {:induction false} PiecesPass(text: string, tail: string, s: Levels, e: Levels)
    requires Reads(s, text, e)
    ensures Pieces(s, text + tail) == Prepend(text, Pieces(e, tail))
    decreases |text|
  {
    if text == "" {
      assert text + tail == tail;
      PrependTwice("", "", Pieces(e, tail));
    } else {
      assert (text + tail)[1..] == text[1..] + tail;
      PiecesPass(text[1..], tail, Move(s, text[0]), e);
      assert text == [text[0]] + text[1..];
      PrependTwice([text[0]], text[1..], Pieces(e, tail));
    }
  }

  /** Splitting undoes joining for self-contained pieces. */
  lemma {:induction false} PiecesOfJoin(pieces: seq<string>)
    requires |pieces| > 0 && forall k :: 0 <= k < |pieces| ==> SelfContained(pieces[k])
    ensures Pieces(Top, Join(pieces, COMMA)) == pieces
    decreases |pieces|
  {
    var p := pieces[0];
    assert pieces == [p] + pieces[1..];
    assert p + "" == p;
    if |pieces| == 1 {
      PiecesPass(p, "", Top, Top);
    } else {
      var rest := Join(pieces[1..], COMMA);
      PiecesOfJoin(pieces[1..]);
      assert p + [COMMA] + rest == p + ([COMMA] + rest);
      PiecesPass(p, [COMMA] + rest, Top, Top);
      assert ([COMMA] + rest)[1..] == rest;
    }
  }

  /** A call as it is printed. */
  function Print(pre: string, args: seq<string>, post: string): string {
    pre + ("(" + (Join(args, COMMA) + (")" + post)))
  }

  lemma PrintedAt(pre: string, args: seq<string>, post: string)
    ensures var source := Print(pre, args, post);
      OccursAt(source, Join(args, COMMA), |pre| + 1) && OccursAt(source, [')'], |pre| + 1 + |Join(args, COMMA)|)
  {
  }

  lemma FindClose(source: string, i: nat)
    requires i < |source| && source[i] == ')'
    ensures FindFrom(source, i, Unquoted, 1) == i
  {
  }

  lemma ClosedAfter(source: string, i: nat, args: seq<string>, close: nat)
    requires forall k :: 0 <= k < |args| ==> SelfContained(args[k])
    requires OccursAt(source, Join(args, COMMA), i) && close == i + |Join(args, COMMA)| && OccursAt(source, [')'], close)
    ensures FindFrom(source, i, Unquoted, 1) == close
  {
    hide FindFrom, Reads;
    FindPassesAll(source, i, args);
    FindClose(source, close);
  }

  /** Printed as `pre(a,b,...)post`, a call is closed at exactly its own parenthesis. */
  lemma CallIsClosed(pre: string, args: seq<string>, post: string)
    requires forall k :: 0 <= k < |args| ==> SelfContained(args[k])
    ensures FindFrom(Print(pre, args, post), |pre| + 1, Unquoted, 1) == |pre| + 1 + |Join(args, COMMA)|
  {
    hide FindFrom, OccursAt, Reads;
    PrintedAt(pre, args, post);
    ClosedAfter(Print(pre, args, post), |pre| + 1, args, |pre| + 1 + |Join(args, COMMA)|);
  }

  lemma TrimmedArguments(pieces: seq<string>)
    requires |pieces| > 0 && forall k :: 0 <= k < |pieces| ==> Trim(pieces[k]) == pieces[k] && !Blank(pieces[k])
    ensures Arguments(pieces) == pieces
  {
  }

  lemma ArgumentsOfJoin(args: seq<string>)
    requires forall k :: 0 <= k < |args| ==> SelfContained(args[k]) && Trim(args[k]) == args[k] && !Blank(args[k])
    ensures Arguments(Pieces(Top, Join(args, COMMA))) == args
  {
    if args == [] {
    } else {
      PiecesOfJoin(args);
      TrimmedArguments(args);
    }
  }

  /** Scanning undoes printing: the call is closed at its own parenthesis and the arguments come back. */
  lemma ScanUndoesPrint(pre: string, args: seq<string>, post: string)
    requires forall k :: 0 <= k < |args| ==> SelfContained(args[k]) && Trim(args[k]) == args[k] && !Blank(args[k])
    ensures var source := Print(pre, args, post);
      var close := FindFrom(source, |pre| + 1, Unquoted, 1);
      |pre| + 1 <= close <= |source| && Arguments(Pieces(Top, source[|pre| + 1..close])) == args
  {
    hide FindFrom, Pieces, Reads;
    CallIsClosed(pre, args, post);
    PrintedAt(pre, args, post);
    ArgumentsOfJoin(args);
  }
}
