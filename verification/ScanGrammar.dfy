/**
 The arguments that the scanner handles, as a grammar of literal characters: quoted sections with escapes, three
 kinds of brackets that are balanced each for itself, and commas inside brackets only.
 */
module ScanGrammar {
  import opened Text
  import opened SourceScan

  /** Inside quotes: a character that stands for itself, or a backslash and any character. */
  datatype Unit = Lit(c: char) | Esc(c: char)

  datatype Token = Plain(c: char) | Section(quote: char, body: seq<Unit>)

  predicate GoodToken(t: Token) {
    match t
    case Plain(c) => c != '\'' && c != '"' && c != '`'
    case Section(q, body) =>
      && (q == '\'' || q == '"' || q == '`')
      && forall i :: 0 <= i < |body| && body[i].Lit? ==> body[i].c != q && body[i].c != '\\'
  }

  function BodyText(body: seq<Unit>): string {
    if body == [] then ""
    else (match body[0] case Lit(c) => [c] case Esc(c) => ['\\', c]) + BodyText(body[1..])
  }

  function TokenText(t: Token): string {
    match t
    case Plain(c) => [c]
    case Section(q, body) => [q] + (BodyText(body) + [q])
  }

  function TextOf(tokens: seq<Token>): string {
    if tokens == [] then "" else TokenText(tokens[0]) + TextOf(tokens[1..])
  }

  /** How often the character stands outside quotes. */
  function Count(tokens: seq<Token>, c: char): nat {
    if tokens == [] then 0 else (if tokens[0] == Plain(c) then 1 else 0) + Count(tokens[1..], c)
  }

  /** Brackets of one kind that are open after the first i tokens, on top of `from`. */
  function Depth(from: nat, tokens: seq<Token>, i: nat, open: char, close: char): int
    requires i <= |tokens|
  {
    from + Count(tokens[..i], open) - Count(tokens[..i], close)
  }

  /** Never more closed than opened, and `to` open in the end. */
  ghost predicate BalancedFrom(from: nat, tokens: seq<Token>, to: nat, open: char, close: char) {
    && (forall i :: 0 <= i <= |tokens| ==> Depth(from, tokens, i, open, close) >= 0)
    && Depth(from, tokens, |tokens|, open, close) == to
  }

  ghost predicate ArgumentFrom(p: nat, b: nat, c: nat, tokens: seq<Token>, p': nat, b': nat, c': nat) {
    && (forall i :: 0 <= i < |tokens| ==> GoodToken(tokens[i]))
    && BalancedFrom(p, tokens, p', '(', ')') && BalancedFrom(b, tokens, b', '[', ']') && BalancedFrom(c, tokens, c', '{', '}')
    && forall i :: 0 <= i < |tokens| && tokens[i] == Plain(',') ==>
         Depth(p, tokens, i, '(', ')') > 0 || Depth(b, tokens, i, '[', ']') > 0 || Depth(c, tokens, i, '{', '}') > 0
  }

  /** The tokens of an argument. */
  ghost predicate Argument(tokens: seq<Token>) {
    ArgumentFrom(0, 0, 0, tokens, 0, 0, 0)
  }

  // ---- from the grammar to the scanner ----

  lemma {:induction false} ReadsAppend(s: Levels, a: string, m: Levels, b: string, e: Levels)
    requires Reads(s, a, m) && Reads(m, b, e)
    ensures Reads(s, a + b, e)
    decreases |a|
  {
    if a == "" {
      assert a + b == b;
    } else {
      assert (a + b)[1..] == a[1..] + b;
      ReadsAppend(Move(s, a[0]), a[1..], m, b, e);
    }
  }

  lemma ReadsOne(s: Levels, c: char)
    requires Inside(s, c)
    ensures Reads(s, [c], Move(s, c))
  {
    assert [c][1..] == "";
  }

  lemma {:induction false} BodyReads(s: Levels, q: char, body: seq<Unit>)
    requires s.q == Quote(Some(q), false) && q != '\\' && GoodBody(q, body)
    ensures Reads(s, BodyText(body), s)
    decreases |body|
  {
    if body != [] {
      assert GoodBody(q, body[1..]);
      BodyReads(s, q, body[1..]);
      var u := match body[0] case Lit(c) => [c] case Esc(c) => ['\\', c];
      match body[0] {
        case Lit(c) => ReadsOne(s, c);
        case Esc(c) =>
          var escaped := s.(q := Quote(Some(q), true));
          ReadsOne(s, '\\');
          ReadsOne(escaped, c);
          ReadsAppend(s, ['\\'], escaped, [c], s);
          assert ['\\', c] == ['\\'] + [c];
      }
      ReadsAppend(s, u, s, BodyText(body[1..]), s);
    }
  }

  ghost predicate GoodBody(q: char, body: seq<Unit>) {
    forall i :: 0 <= i < |body| && body[i].Lit? ==> body[i].c != q && body[i].c != '\\'
  }

  /** A quoted section is passed over, whatever its characters. */
  lemma SectionReads(s: Levels, q: char, body: seq<Unit>)
    requires s.q == Unquoted && (q == '\'' || q == '"' || q == '`') && GoodBody(q, body)
    ensures Reads(s, [q] + (BodyText(body) + [q]), s)
  {
    var inside := s.(q := Quote(Some(q), false));
    ReadsOne(s, q);
    BodyReads(inside, q, body);
    ReadsOne(inside, q);
    ReadsAppend(inside, BodyText(body), inside, [q], s);
    ReadsAppend(s, [q], inside, BodyText(body) + [q], s);
  }

  lemma CountFirst(tokens: seq<Token>, i: nat, c: char)
    requires 0 < i <= |tokens|
    ensures Count(tokens[..i], c) == (if tokens[0] == Plain(c) then 1 else 0) + Count(tokens[1..][..i - 1], c)
  {
    assert tokens[..i][1..] == tokens[1..][..i - 1];
  }

  /** The depth after the first token. */
  function After(from: nat, t: Token, open: char, close: char): int {
    from + (if t == Plain(open) then 1 else 0) - (if t == Plain(close) then 1 else 0)
  }

  lemma BalancedTail(from: nat, tokens: seq<Token>, to: nat, open: char, close: char)
    requires tokens != []
    ensures BalancedFrom(from, tokens, to, open, close) <==>
      After(from, tokens[0], open, close) >= 0 && BalancedFrom(After(from, tokens[0], open, close), tokens[1..], to, open, close)
    ensures forall i :: 0 < i <= |tokens| && After(from, tokens[0], open, close) >= 0 ==>
      Depth(from, tokens, i, open, close) == Depth(After(from, tokens[0], open, close), tokens[1..], i - 1, open, close)
  {
    var rest := tokens[1..];
    var next := After(from, tokens[0], open, close);
    forall i | 0 < i <= |tokens|
      ensures from + Count(tokens[..i], open) - Count(tokens[..i], close) == next + Count(rest[..i - 1], open) - Count(rest[..i - 1], close)
    {
      CountFirst(tokens, i, open);
      CountFirst(tokens, i, close);
    }
    assert Depth(from, tokens, 0, open, close) == from;
    assert rest[..0] == [];
    if BalancedFrom(from, tokens, to, open, close) {
      assert Depth(from, tokens, 1, open, close) == next;
      forall i | 0 <= i <= |rest| ensures Depth(next, rest, i, open, close) >= 0 {
        assert Depth(from, tokens, i + 1, open, close) == Depth(next, rest, i, open, close);
      }
    }
    if next >= 0 && BalancedFrom(next, rest, to, open, close) {
      forall i | 0 <= i <= |tokens| ensures Depth(from, tokens, i, open, close) >= 0 {
        if i > 0 { assert Depth(from, tokens, i, open, close) == Depth(next, rest, i - 1, open, close); }
      }
    }
  }

  /** An argument read token by token. */
  lemma ArgumentTail(p: nat, b: nat, c: nat, tokens: seq<Token>, p': nat, b': nat, c': nat)
    requires tokens != []
    ensures ArgumentFrom(p, b, c, tokens, p', b', c') <==>
      var t := tokens[0];
      && GoodToken(t) && (t == Plain(',') ==> p > 0 || b > 0 || c > 0)
      && After(p, t, '(', ')') >= 0 && After(b, t, '[', ']') >= 0 && After(c, t, '{', '}') >= 0
      && ArgumentFrom(After(p, t, '(', ')'), After(b, t, '[', ']'), After(c, t, '{', '}'), tokens[1..], p', b', c')
  {
    hide Depth, Count;
    BalancedTail(p, tokens, p', '(', ')');
    BalancedTail(b, tokens, b', '[', ']');
    BalancedTail(c, tokens, c', '{', '}');
    DepthStart(p, tokens, '(', ')');
    DepthStart(b, tokens, '[', ']');
    DepthStart(c, tokens, '{', '}');
    var rest := tokens[1..];
    assert forall i :: 0 <= i < |rest| ==> rest[i] == tokens[i + 1];
    if ArgumentFrom(p, b, c, tokens, p', b', c') {
      var t := tokens[0];
      forall i | 0 <= i < |rest| && rest[i] == Plain(',')
        ensures Depth(After(p, t, '(', ')'), rest, i, '(', ')') > 0 || Depth(After(b, t, '[', ']'), rest, i, '[', ']') > 0
             || Depth(After(c, t, '{', '}'), rest, i, '{', '}') > 0
      {
        assert tokens[i + 1] == Plain(',');
      }
    }
  }

  lemma DepthStart(from: nat, tokens: seq<Token>, open: char, close: char)
    ensures Depth(from, tokens, 0, open, close) == from
  {
  }

  lemma TokenReads(s: Levels, t: Token)
    requires s.q == Unquoted && GoodToken(t) && (t == Plain(',') ==> s.paren > 0 || s.bracket > 0 || s.brace > 0)
    requires After(s.paren, t, '(', ')') >= 0 && After(s.bracket, t, '[', ']') >= 0 && After(s.brace, t, '{', '}') >= 0
    ensures Reads(s, TokenText(t),
      Levels(Unquoted, After(s.paren, t, '(', ')'), After(s.bracket, t, '[', ']'), After(s.brace, t, '{', '}')))
  {
    match t
    case Plain(c) => ReadsOne(s, c);
    case Section(q, body) => SectionReads(s, q, body);
  }

  lemma {:induction false} ArgumentReads(s: Levels, tokens: seq<Token>, e: Levels)
    requires s.q == Unquoted == e.q && ArgumentFrom(s.paren, s.bracket, s.brace, tokens, e.paren, e.bracket, e.brace)
    ensures Reads(s, TextOf(tokens), e)
    decreases |tokens|
  {
    if tokens == [] {
      DepthStart(s.paren, tokens, '(', ')');
      DepthStart(s.bracket, tokens, '[', ']');
      DepthStart(s.brace, tokens, '{', '}');
    } else {
      var t := tokens[0];
      ArgumentTail(s.paren, s.bracket, s.brace, tokens, e.paren, e.bracket, e.brace);
      var m := Levels(Unquoted, After(s.paren, t, '(', ')'), After(s.bracket, t, '[', ']'), After(s.brace, t, '{', '}'));
      TokenReads(s, t);
      ArgumentReads(m, tokens[1..], e);
      ReadsAppend(s, TokenText(t), m, TextOf(tokens[1..]), e);
    }
  }

  // ---- and back ----

  /** Reading on inside quotes comes to their end. */
  lemma {:induction false} SectionEnds(s: Levels, q: char, text: string, e: Levels) returns (body: seq<Unit>, rest: string)
    requires s.q == Quote(Some(q), false) && e.q == Unquoted && q != '\\' && Reads(s, text, e)
    ensures GoodBody(q, body) && text == BodyText(body) + ([q] + rest) && Reads(s.(q := Unquoted), rest, e)
    decreases |text|
  {
    var c := text[0];
    if c == '\\' {
      var escaped := s.(q := Quote(Some(q), true));
      var more;
      assert Reads(escaped, text[1..], e);
      assert text[1..] != "";
      more, rest := SectionEnds(s, q, text[1..][1..], e);
      body := [Esc(text[1])] + more;
      assert body[1..] == more;
      assert text == ['\\', text[1]] + text[1..][1..];
      assert text == ['\\', text[1]] + BodyText(more) + ([q] + rest);
    } else if c == q {
      body, rest := [], text[1..];
      assert text == [q] + rest;
    } else {
      var more;
      more, rest := SectionEnds(s, q, text[1..], e);
      body := [Lit(c)] + more;
      assert body[1..] == more;
      assert text == [c] + BodyText(more) + ([q] + rest);
    }
  }

  /** One token read off a text. */
  ghost predicate TokenRead(s: Levels, t: Token, m: Levels) {
    && GoodToken(t) && (t == Plain(',') ==> s.paren > 0 || s.bracket > 0 || s.brace > 0)
    && m == Levels(Unquoted, m.paren, m.bracket, m.brace)
    && m.paren == After(s.paren, t, '(', ')') && m.bracket == After(s.bracket, t, '[', ']') && m.brace == After(s.brace, t, '{', '}')
  }

  lemma FirstToken(s: Levels, text: string, e: Levels) returns (t: Token, m: Levels, rest: string)
    requires s.q == Unquoted == e.q && text != "" && Reads(s, text, e)
    ensures TokenRead(s, t, m) && Reads(m, rest, e) && text == TokenText(t) + rest && |rest| < |text|
  {
    var c := text[0];
    assert text == [c] + text[1..];
    if IsQuote(c) {
      var body;
      body, rest := SectionEnds(Move(s, c), c, text[1..], e);
      t, m := Section(c, body), s;
      assert text == TokenText(t) + rest;
    } else {
      t, m, rest := Plain(c), Move(s, c), text[1..];
    }
  }

  lemma {:induction false} ReadsArgument(s: Levels, text: string, e: Levels) returns (tokens: seq<Token>)
    requires s.q == Unquoted == e.q && Reads(s, text, e)
    ensures ArgumentFrom(s.paren, s.bracket, s.brace, tokens, e.paren, e.bracket, e.brace) && TextOf(tokens) == text
    decreases |text|
  {
    if text == "" {
      tokens := [];
      DepthStart(s.paren, tokens, '(', ')');
      DepthStart(s.bracket, tokens, '[', ']');
      DepthStart(s.brace, tokens, '{', '}');
    } else {
      hide ArgumentFrom, Reads, GoodToken, TokenText, After;
      var t, m, rest := FirstToken(s, text, e);
      var more := ReadsArgument(m, rest, e);
      tokens := [t] + more;
      assert tokens[1..] == more;
      ArgumentTail(s.paren, s.bracket, s.brace, tokens, e.paren, e.bracket, e.brace);
    }
  }

  /** The texts that the scanner passes over as one argument are exactly those of the grammar. */
  lemma SelfContainedExactly(text: string)
    ensures SelfContained(text) <==> exists tokens :: Argument(tokens) && TextOf(tokens) == text
  {
    if SelfContained(text) {
      var tokens := ReadsArgument(Top, text, Top);
      assert Argument(tokens);
    }
    if exists tokens :: Argument(tokens) && TextOf(tokens) == text {
      var tokens :| Argument(tokens) && TextOf(tokens) == text;
      ArgumentReads(Top, tokens, Top);
    }
  }

  // ---- what follows for texts ----

  lemma {:induction false} LitText(t: string) returns (body: seq<Unit>)
    ensures |body| == |t| && BodyText(body) == t && forall i :: 0 <= i < |t| ==> body[i] == Lit(t[i])
    decreases |t|
  {
    if t == "" {
      body := [];
    } else {
      var more := LitText(t[1..]);
      body := [Lit(t[0])] + more;
      assert body[1..] == more;
      assert t == [t[0]] + t[1..];
    }
  }

  /** Anything without the quote and a backslash, between two of the same quotes, is self-contained. */
  lemma QuotedIsSelfContained(q: char, t: string)
    requires q == '\'' || q == '"' || q == '`'
    requires q !in t && '\\' !in t
    ensures SelfContained([q] + (t + [q]))
  {
    var body := LitText(t);
    SectionReads(Top, q, body);
  }

  /** So it is with a backslash and any character anywhere in it. */
  lemma EscapedIsSelfContained(q: char, t: string, c: char, u: string)
    requires q == '\'' || q == '"' || q == '`'
    requires q !in t && '\\' !in t && q !in u && '\\' !in u
    ensures SelfContained([q] + (t + ['\\', c] + u + [q]))
  {
    var a := LitText(t);
    var b := LitText(u);
    BodyAppend(a, [Esc(c)] + b);
    assert ([Esc(c)] + b)[1..] == b;
    assert BodyText(a + ([Esc(c)] + b)) == t + ['\\', c] + u;
    SectionReads(Top, q, a + ([Esc(c)] + b));
  }

  lemma {:induction false} BodyAppend(a: seq<Unit>, b: seq<Unit>)
    ensures BodyText(a + b) == BodyText(a) + BodyText(b)
    decreases |a|
  {
    if a == [] {
      assert a + b == b;
    } else {
      assert (a + b)[1..] == a[1..] + b;
      BodyAppend(a[1..], b);
    }
  }

  lemma ConcatenationIsSelfContained(a: string, b: string)
    requires SelfContained(a) && SelfContained(b)
    ensures SelfContained(a + b)
  {
    ReadsAppend(Top, a, Top, b, Top);
  }

  lemma {:induction false} ReadsDeeper(s: Levels, text: string, e: Levels, p: nat, b: nat, c: nat)
    requires Reads(s, text, e)
    ensures Reads(Deeper(s, p, b, c), text, Deeper(e, p, b, c))
    decreases |text|
  {
    hide Inside, Move;
    if text != "" {
      DeeperStep(s, text[0], p, b, c);
      ReadsDeeper(Move(s, text[0]), text[1..], e, p, b, c);
    }
  }

  lemma DeeperStep(s: Levels, ch: char, p: nat, b: nat, c: nat)
    requires Inside(s, ch)
    ensures Inside(Deeper(s, p, b, c), ch) && Move(Deeper(s, p, b, c), ch) == Deeper(Move(s, ch), p, b, c)
  {
  }

  function Deeper(s: Levels, p: nat, b: nat, c: nat): Levels {
    Levels(s.q, s.paren + p, s.bracket + b, s.brace + c)
  }

  /** Between matching brackets any self-contained texts may stand, with commas between them. */
  lemma BracketedIsSelfContained(open: char, a: string, b: string, close: char)
    requires (open == '(' && close == ')') || (open == '[' && close == ']') || (open == '{' && close == '}')
    requires SelfContained(a) && SelfContained(b)
    ensures SelfContained([open] + (a + [close])) && SelfContained([open] + (a + [','] + b + [close]))
  {
    hide Reads, Move, Deeper;
    var s := Move(Top, open);
    OpenBracket(open);
    InsideBracket(s, a);
    InsideBracket(s, b);
    Enclosed(open, a, close);
    TwoInside(s, a, b);
    Enclosed(open, a + [','] + b, close);
  }

  lemma OpenBracket(open: char)
    requires open == '(' || open == '[' || open == '{'
    ensures var s := Move(Top, open); Deeper(Top, s.paren, s.bracket, s.brace) == s && Reads(s, [','], s)
  {
    hide Reads;
    var s := Move(Top, open);
    assert s.q == Unquoted && s.paren + s.bracket + s.brace == 1;
    assert Move(s, ',') == s && Inside(s, ',');
    ReadsOne(s, ',');
  }

  lemma InsideBracket(s: Levels, a: string)
    requires SelfContained(a) && Deeper(Top, s.paren, s.bracket, s.brace) == s
    ensures Reads(s, a, s)
  {
    ReadsDeeper(Top, a, Top, s.paren, s.bracket, s.brace);
  }

  lemma TwoInside(s: Levels, a: string, b: string)
    requires Reads(s, a, s) && Reads(s, [','], s) && Reads(s, b, s)
    ensures Reads(s, a + [','] + b, s)
  {
    hide Reads;
    ReadsAppend(s, a, s, [','], s);
    ReadsAppend(s, a + [','], s, b, s);
  }

  lemma Enclosed(open: char, x: string, close: char)
    requires (open == '(' && close == ')') || (open == '[' && close == ']') || (open == '{' && close == '}')
    requires Reads(Move(Top, open), x, Move(Top, open))
    ensures Reads(Top, [open] + (x + [close]), Top)
  {
    hide Reads;
    var s := Move(Top, open);
    ReadsOne(Top, open);
    ReadsOne(s, close);
    ReadsAppend(s, x, s, [close], Top);
    ReadsAppend(Top, [open], s, x + [close], Top);
  }

  /** A comma outside brackets and quotes, or a bracket closed that is not open, makes a text not self-contained. */
  lemma {:induction false} TopCommaIsNot(a: string, c: char, b: string)
    requires SelfContained(a) && (c == ',' || c == ')' || c == ']' || c == '}')
    ensures !SelfContained(a + ([c] + b))
  {
    StopsReading(Top, a, Top, c, b);
  }

  lemma {:induction false} StopsReading(s: Levels, a: string, m: Levels, c: char, b: string)
    requires Reads(s, a, m) && !Inside(m, c)
    ensures forall e :: !Reads(s, a + ([c] + b), e)
    decreases |a|
  {
    if a == "" {
      assert a + ([c] + b) == [c] + b;
    } else {
      assert (a + ([c] + b))[1..] == a[1..] + ([c] + b);
      StopsReading(Move(s, a[0]), a[1..], m, c, b);
    }
  }

  /**
   The round trip over the grammar: written with commas in a call, the arguments are found up to the call's own
   parenthesis and split again.
   */
  lemma ScanUndoesGrammar(pre: string, args: seq<seq<Token>>, post: string)
    requires forall k :: 0 <= k < |args| ==> Argument(args[k]) && Trim(TextOf(args[k])) == TextOf(args[k]) && !Blank(TextOf(args[k]))
    ensures var texts := seq(|args|, k requires 0 <= k < |args| => TextOf(args[k]));
      var source := pre + ("(" + (Join(texts, ',') + (")" + post)));
      var close := FindFrom(source, |pre| + 1, Unquoted, 1);
      && close == |pre| + 1 + |Join(texts, ',')|
      && Arguments(Pieces(Top, source[|pre| + 1..close])) == texts
  {
    var texts := seq(|args|, k requires 0 <= k < |args| => TextOf(args[k]));
    forall k | 0 <= k < |texts| ensures SelfContained(texts[k]) { ArgumentReads(Top, args[k], Top); }
    CallIsClosed(pre, texts, post);
    ScanUndoesPrint(pre, texts, post);
  }
}
