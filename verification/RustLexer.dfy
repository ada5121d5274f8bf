/** The scanner's Rust lexer: where lexemes end, the loop that cuts them, and the
    proof that the cut loses nothing, invents nothing and numbers lines right. */
module RustLexer {
  import opened Bytes

  /** The character classes of the host language (`isspace`, `isalpha`, `isalnum`). */
  datatype Classes = Classes(space: char -> bool, alpha: char -> bool, alnum: char -> bool)

  /** A newline is white space and no part of a word: all the lexer relies on. */
  predicate Sane(cc: Classes)
  {
    cc.space('\n') && !cc.alpha('\n') && !cc.alnum('\n')
  }

  predicate WordStart(cc: Classes, c: char) { cc.alpha(c) || c == '_' }

  predicate WordPart(cc: Classes, c: char) { cc.alnum(c) || c == '_' }

  /** `source.startswith(ab, i)`. */
  predicate At2(s: string, i: nat, a: char, b: char) { i + 1 < |s| && s[i] == a && s[i + 1] == b }

  /** `s.count("\n")`. */
  function Newlines(s: string): (n: nat)
  {
    if s == [] then 0 else Newlines(s[..|s| - 1]) + (if s[|s| - 1] == '\n' then 1 else 0)
  }

  // ---------------------------------------------------------------------
  // Where lexemes end
  // ---------------------------------------------------------------------

  function WordEnd(cc: Classes, s: string, i: nat): (e: nat)
    requires i <= |s|
    ensures i <= e <= |s|
    ensures forall k | i <= k < e :: WordPart(cc, s[k])
    ensures e == |s| || !WordPart(cc, s[e])
    decreases |s| - i
  {
    if i < |s| && WordPart(cc, s[i]) then WordEnd(cc, s, i + 1) else i
  }

  /** The end of a quoted literal whose body starts at `i`; backslash escapes one character. */
  function QuotedEnd(s: string, i: nat, quote: char): (e: nat)
    ensures e <= |s| && (i <= |s| ==> i <= e)
    decreases |s| - i
  {
    if i >= |s| then |s|
    else if s[i] == '\\' then QuotedEnd(s, i + 2, quote)
    else if s[i] == quote then i + 1
    else QuotedEnd(s, i + 1, quote)
  }

  function HashesEnd(s: string, i: nat): (e: nat)
    requires i <= |s|
    ensures i <= e <= |s|
    ensures forall k | i <= k < e :: s[k] == '#'
    ensures e == |s| || s[e] != '#'
    decreases |s| - i
  {
    if i < |s| && s[i] == '#' then HashesEnd(s, i + 1) else i
  }

  /** A double quote at `i` followed by `hashes` number signs. */
  predicate Terminates(s: string, i: nat, hashes: nat)
  {
    i + 1 + hashes <= |s| && s[i] == '"' && forall k | i + 1 <= k < i + 1 + hashes :: s[k] == '#'
  }

  /** The end of a raw string whose body starts at `i`: past the first terminator, or the end of the source. */
  function RawBodyEnd(s: string, i: nat, hashes: nat): (e: nat)
    requires i <= |s|
    ensures i <= e <= |s|
    ensures (i <= e - 1 - hashes && Terminates(s, e - 1 - hashes, hashes)
              && forall k | i <= k < e - 1 - hashes :: !Terminates(s, k, hashes))
         || (e == |s| && forall k | i <= k < |s| :: !Terminates(s, k, hashes))
    decreases |s| - i
  {
    if i == |s| then |s|
    else if Terminates(s, i, hashes) then i + 1 + hashes
    else RawBodyEnd(s, i + 1, hashes)
  }

  function RawPrefix(s: string, i: nat): (n: nat)
    ensures i + n <= |s| || n == 0
  {
    if At2(s, i, 'b', 'r') || At2(s, i, 'c', 'r') then 2
    else if i < |s| && s[i] == 'r' then 1
    else 0
  }

  function RawStringEnd(s: string, i: nat): (e: Option<nat>)
    ensures e.Some? ==> i < e.value <= |s|
  {
    var prefix := RawPrefix(s, i);
    if prefix == 0 then None else
    var cursor := HashesEnd(s, i + prefix);
    if cursor >= |s| || s[cursor] != '"' then None
    else Some(RawBodyEnd(s, cursor + 1, cursor - (i + prefix)))
  }

  /** The end of the token that starts at `i`, where there is neither white space nor a comment. */
  function TokenEnd(cc: Classes, s: string, i: nat): (e: nat)
    requires i < |s|
    ensures i < e <= |s|
  {
    var raw := RawStringEnd(s, i);
    if raw.Some? then raw.value
    else if At2(s, i, 'r', '#') && i + 2 < |s| && WordStart(cc, s[i + 2]) then WordEnd(cc, s, i + 3)
    else if s[i] == '"' then QuotedEnd(s, i + 1, '"')
    else if At2(s, i, 'b', '"') || At2(s, i, 'c', '"') then QuotedEnd(s, i + 2, '"')
    else if s[i] == '\'' then
      if i + 1 < |s| && WordStart(cc, s[i + 1])
         && (var w := WordEnd(cc, s, i + 1); w >= |s| || s[w] != '\'') then i + 1
      else QuotedEnd(s, i + 1, '\'')
    else if At2(s, i, 'b', '\'') then QuotedEnd(s, i + 2, '\'')
    else if WordStart(cc, s[i]) then WordEnd(cc, s, i + 1)
    else i + 1
  }

  function LineCommentEnd(s: string, i: nat): (e: nat)
    requires i <= |s|
    ensures i <= e <= |s|
    ensures forall k | i <= k < e :: s[k] != '\n'
    ensures e == |s| || s[e] == '\n'
    decreases |s| - i
  {
    if i == |s| || s[i] == '\n' then i else LineCommentEnd(s, i + 1)
  }

  /** The depth-counting loop over a block comment. */
  function BlockCommentEnd(s: string, i: nat, depth: nat): (e: nat)
    requires i <= |s|
    ensures i <= e <= |s|
    decreases |s| - i
  {
    if i == |s| || depth == 0 then i
    else if At2(s, i, '/', '*') then BlockCommentEnd(s, i + 2, depth + 1)
    else if At2(s, i, '*', '/') then BlockCommentEnd(s, i + 2, depth - 1)
    else BlockCommentEnd(s, i + 1, depth)
  }

  // ---------------------------------------------------------------------
  // Nested comments by their grammar: a comment is an opener, then plain
  // characters and whole comments, then a closer.
  // ---------------------------------------------------------------------

  /** Where the comment whose body starts at `i` ends, if it does. */
  function CommentClose(s: string, i: nat): (e: Option<nat>)
    requires i <= |s|
    ensures e.Some? ==> i < e.value <= |s|
    decreases |s| - i
  {
    if At2(s, i, '*', '/') then Some(i + 2)
    else if At2(s, i, '/', '*') then
      match CommentClose(s, i + 2)
      case None => None
      case Some(j) => CommentClose(s, j)
    else if i < |s| then CommentClose(s, i + 1)
    else None
  }

  /** Counting depth agrees with the grammar: `depth` open comments close one after another. */
  lemma {:induction false} DepthFollowsGrammar(s: string, i: nat, depth: nat)
    requires i <= |s| && depth > 0
    ensures CommentClose(s, i).None? ==> BlockCommentEnd(s, i, depth) == |s|
    ensures CommentClose(s, i).Some? ==>
      BlockCommentEnd(s, i, depth) == BlockCommentEnd(s, CommentClose(s, i).value, depth - 1)
    decreases |s| - i
  {
    if At2(s, i, '*', '/') {
    } else if At2(s, i, '/', '*') {
      DepthFollowsGrammar(s, i + 2, depth + 1);
      if CommentClose(s, i + 2).Some? {
        DepthFollowsGrammar(s, CommentClose(s, i + 2).value, depth);
      }
    } else if i < |s| {
      DepthFollowsGrammar(s, i + 1, depth);
    }
  }

  // ---------------------------------------------------------------------
  // The lexer
  // ---------------------------------------------------------------------

  datatype Token = Token(text: string, line: nat)

  datatype Lexeme = Skip(end: nat) | Take(end: nat)

  function LexemeAt(cc: Classes, s: string, i: nat): (l: Lexeme)
    requires i < |s|
    ensures i < l.end <= |s|
  {
    if cc.space(s[i]) then Skip(i + 1)
    else if At2(s, i, '/', '/') then Skip(LineCommentEnd(s, i + 2))
    else if At2(s, i, '/', '*') then Skip(BlockCommentEnd(s, i + 2, 1))
    else Take(TokenEnd(cc, s, i))
  }

  /** A cut: the half-open span of a token. */
  datatype Span = Span(start: nat, end: nat)

  function Cuts(cc: Classes, s: string, i: nat): (spans: seq<Span>)
    requires i <= |s|
    decreases |s| - i
  {
    if i == |s| then []
    else
      var l := LexemeAt(cc, s, i);
      if l.Skip? then Cuts(cc, s, l.end) else [Span(i, l.end)] + Cuts(cc, s, l.end)
  }

  predicate InSource(s: string, spans: seq<Span>)
  {
    forall k | 0 <= k < |spans| :: spans[k].start < spans[k].end <= |s|
  }

  /** The token that a cut stands for. */
  function TokenOf(s: string, span: Span): (t: Token)
    requires span.start < span.end <= |s|
  {
    Token(s[span.start..span.end], 1 + Newlines(s[..span.start]))
  }

  function TokensOf(s: string, spans: seq<Span>): (ts: seq<Token>)
    requires InSource(s, spans)
    ensures |ts| == |spans| && forall k | 0 <= k < |spans| :: ts[k] == TokenOf(s, spans[k])
  {
    if spans == [] then [] else [TokenOf(s, spans[0])] + TokensOf(s, spans[1..])
  }

  // ---------------------------------------------------------------------
  // The cut tiles the source
  // ---------------------------------------------------------------------

  /** One piece of what lies between tokens. */
  predicate Trivia(cc: Classes, s: string, i: nat, j: nat)
  {
    i < j <= |s| &&
    ( (j == i + 1 && cc.space(s[i]))
    || (At2(s, i, '/', '/') && (forall k | i <= k < j :: s[k] != '\n') && (j == |s| || s[j] == '\n'))
    || (At2(s, i, '/', '*') &&
          (CommentClose(s, i + 2) == Some(j) || (CommentClose(s, i + 2).None? && j == |s|))) )
  }

  /** `s[i..j]` is a run of white space and comments. */
  ghost predicate Gap(cc: Classes, s: string, i: nat, j: nat)
    decreases j - i
  {
    i == j || exists m | i < m <= j :: Trivia(cc, s, i, m) && Gap(cc, s, m, j)
  }

  /** A token may start here: neither white space nor a comment does. */
  predicate Startable(cc: Classes, s: string, i: nat)
  {
    i < |s| && !cc.space(s[i]) && !At2(s, i, '/', '/') && !At2(s, i, '/', '*')
  }

  /** From `i` on: in order, without overlap, with nothing but gaps in between. */
  ghost predicate Tiles(cc: Classes, s: string, i: nat, spans: seq<Span>)
    decreases |spans|
  {
    if spans == [] then Gap(cc, s, i, |s|)
    else
      && i <= spans[0].start < spans[0].end <= |s|
      && Gap(cc, s, i, spans[0].start)
      && Startable(cc, s, spans[0].start)
      && Tiles(cc, s, spans[0].end, spans[1..])
  }

  lemma SkipIsTrivia(cc: Classes, s: string, i: nat)
    requires i < |s| && LexemeAt(cc, s, i).Skip?
    ensures Trivia(cc, s, i, LexemeAt(cc, s, i).end)
  {
    hide BlockCommentEnd, CommentClose;
    if !cc.space(s[i]) && !At2(s, i, '/', '/') {
      DepthFollowsGrammar(s, i + 2, 1);
      BlockCommentDone(s);
    }
  }

  lemma BlockCommentDone(s: string)
    ensures forall j: nat | j <= |s| :: BlockCommentEnd(s, j, 0) == j
  {
  }

  lemma GapGrows(cc: Classes, s: string, i: nat, m: nat, spans: seq<Span>)
    requires Trivia(cc, s, i, m) && Tiles(cc, s, m, spans)
    ensures Tiles(cc, s, i, spans)
  {
    hide CommentClose;
    var j := if spans == [] then |s| else spans[0].start;
    assert Gap(cc, s, i, j);
  }

  /** Every source is tiled, whatever the character classes are. */
  lemma {:induction false} CutsTile(cc: Classes, s: string, i: nat)
    requires i <= |s|
    ensures InSource(s, Cuts(cc, s, i))
    ensures Tiles(cc, s, i, Cuts(cc, s, i))
    decreases |s| - i
  {
    hide Trivia, TokenEnd, LineCommentEnd, BlockCommentEnd;
    if i < |s| {
      var l := LexemeAt(cc, s, i);
      CutsTile(cc, s, l.end);
      if l.Skip? {
        SkipIsTrivia(cc, s, i);
        GapGrows(cc, s, i, l.end, Cuts(cc, s, l.end));
      } else {
        var spans := Cuts(cc, s, i);
        assert spans[1..] == Cuts(cc, s, l.end);
      }
    }
  }

  // ---------------------------------------------------------------------
  // Quoted literals end at the first quote that no backslash escapes
  // ---------------------------------------------------------------------

  /** The character at `k` of a literal whose body starts at `i` is escaped. */
  predicate Escaped(s: string, i: nat, k: nat)
    requires i <= k <= |s|
    decreases k
  {
    k > i && s[k - 1] == '\\' && !Escaped(s, i, k - 1)
  }

  predicate Closes(s: string, i: nat, k: nat, quote: char)
    requires i <= k <= |s|
  {
    k < |s| && s[k] == quote && !Escaped(s, i, k)
  }

  /** Escaping after an unescaped position does not look past it. */
  lemma {:induction false} EscapedLocal(s: string, i: nat, j: nat, k: nat)
    requires i <= j <= k <= |s| && !Escaped(s, i, j)
    ensures Escaped(s, i, k) <==> Escaped(s, j, k)
    decreases k
  {
    if k > j {
      EscapedLocal(s, i, j, k - 1);
    }
  }

  lemma {:induction false} QuotedEndIsFirstClose(s: string, i: nat, quote: char)
    requires i <= |s| && quote != '\\'
    ensures var e := QuotedEnd(s, i, quote);
      || (i < e && Closes(s, i, e - 1, quote) && forall k | i <= k < e - 1 :: !Closes(s, i, k, quote))
      || (e == |s| && forall k | i <= k < |s| :: !Closes(s, i, k, quote))
    decreases |s| - i
  {
    if i < |s| && s[i] != quote {
      var next := if s[i] == '\\' then i + 2 else i + 1;
      assert !Escaped(s, i, i) && !Closes(s, i, i, quote);
      assert s[i] == '\\' && i + 1 < |s| ==> Escaped(s, i, i + 1);
      if next <= |s| {
        assert !Escaped(s, i, next);
        QuotedEndIsFirstClose(s, next, quote);
        forall k | next <= k <= |s|
          ensures Closes(s, i, k, quote) <==> Closes(s, next, k, quote)
        {
          EscapedLocal(s, i, next, k);
        }
        assert forall k | i <= k < next && k < |s| :: !Closes(s, i, k, quote);
      }
    }
  }

  // ---------------------------------------------------------------------
  // Line numbers
  // ---------------------------------------------------------------------

  lemma {:induction false} NewlinesSplit(a: string, b: string)
    ensures Newlines(a + b) == Newlines(a) + Newlines(b)
  {
    if b == [] {
      assert a + b == a;
    } else {
      NewlinesSplit(a, b[..|b| - 1]);
      assert (a + b)[..|a + b| - 1] == a + b[..|b| - 1];
    }
  }

  lemma {:induction false} NoNewlines(s: string)
    requires forall k | 0 <= k < |s| :: s[k] != '\n'
    ensures Newlines(s) == 0
  {
    if s != [] {
      NoNewlines(s[..|s| - 1]);
    }
  }

  lemma NewlinesBetween(s: string, i: nat, j: nat)
    requires i <= j <= |s|
    ensures Newlines(s[..j]) == Newlines(s[..i]) + Newlines(s[i..j])
    ensures (forall k | i <= k < j :: s[k] != '\n') ==> Newlines(s[..j]) == Newlines(s[..i])
  {
    assert s[..j] == s[..i] + s[i..j];
    NewlinesSplit(s[..i], s[i..j]);
    if forall k | i <= k < j :: s[k] != '\n' {
      NoNewlines(s[i..j]);
    }
  }

  // ---------------------------------------------------------------------
  // The loops of the source
  // ---------------------------------------------------------------------

  /** `_consume_quoted`. */
  method ConsumeQuoted(s: string, start: nat, quote: char) returns (end: nat)
    ensures end == QuotedEnd(s, start + 1, quote)
  {
    var index := start + 1;
    while index < |s|
      invariant QuotedEnd(s, index, quote) == QuotedEnd(s, start + 1, quote)
    {
      if s[index] == '\\' {
        index := index + 2;
      } else if s[index] == quote {
        return index + 1;
      } else {
        index := index + 1;
      }
    }
    return |s|;
  }

  method ScanWord(cc: Classes, s: string, start: nat) returns (end: nat)
    requires start <= |s|
    ensures end == WordEnd(cc, s, start)
  {
    end := start;
    while end < |s| && WordPart(cc, s[end])
      invariant start <= end <= |s|
      invariant WordEnd(cc, s, end) == WordEnd(cc, s, start)
    {
      end := end + 1;
    }
  }

  /** `_raw_string_end`. */
  method FindRawStringEnd(s: string, start: nat) returns (end: Option<nat>)
    requires start < |s|
    ensures end == RawStringEnd(s, start)
  {
    hide HashesEnd, RawBodyEnd, Terminates, RawPrefix;
    var prefix := RawPrefix(s, start);
    if prefix == 0 {
      return None;
    }
    var cursor := SkipHashes(s, start + prefix);
    if cursor >= |s| || s[cursor] != '"' {
      return None;
    }
    var stop := FindTerminator(s, cursor + 1, cursor - (start + prefix));
    return Some(stop);
  }

  method SkipHashes(s: string, start: nat) returns (cursor: nat)
    requires start <= |s|
    ensures cursor == HashesEnd(s, start)
  {
    cursor := start;
    while cursor < |s| && s[cursor] == '#'
      invariant start <= cursor <= |s|
      invariant HashesEnd(s, cursor) == HashesEnd(s, start)
    {
      cursor := cursor + 1;
    }
  }

  method FindTerminator(s: string, start: nat, hashes: nat) returns (end: nat)
    requires start <= |s|
    ensures end == RawBodyEnd(s, start, hashes)
  {
    hide Terminates;
    end := start;
    while end < |s| && !Terminates(s, end, hashes)
      invariant start <= end <= |s|
      invariant RawBodyEnd(s, end, hashes) == RawBodyEnd(s, start, hashes)
    {
      end := end + 1;
    }
    return if end == |s| then |s| else end + 1 + hashes;
  }

  method SkipBlockComment(s: string, start: nat) returns (end: nat)
    requires start <= |s|
    ensures end == BlockCommentEnd(s, start, 1)
  {
    end := start;
    var depth := 1;
    while end < |s| && depth > 0
      invariant start <= end <= |s|
      invariant BlockCommentEnd(s, end, depth) == BlockCommentEnd(s, start, 1)
    {
      if At2(s, end, '/', '*') {
        depth := depth + 1;
        end := end + 2;
      } else if At2(s, end, '*', '/') {
        depth := depth - 1;
        end := end + 2;
      } else {
        end := end + 1;
      }
    }
  }

  method SkipLineComment(s: string, start: nat) returns (end: nat)
    requires start <= |s|
    ensures end == LineCommentEnd(s, start)
  {
    end := start;
    while end < |s| && s[end] != '\n'
      invariant start <= end <= |s|
      invariant LineCommentEnd(s, end) == LineCommentEnd(s, start)
    {
      end := end + 1;
    }
  }

  /** The token branches of `lex_rust`: where the token ends, and whether the
      branch goes on to count the newlines inside it. */
  method ScanToken(cc: Classes, s: string, index: nat) returns (end: nat, counts: bool)
    requires Sane(cc) && Startable(cc, s, index)
    ensures end == TokenEnd(cc, s, index)
    ensures !counts ==> forall k | index <= k < end :: s[k] != '\n'
  {
    hide HashesEnd, RawBodyEnd, QuotedEnd, RawStringEnd, WordEnd;
    var raw := FindRawStringEnd(s, index);
    if raw.Some? {
      return raw.value, true;
    }
    if At2(s, index, 'r', '#') && index + 2 < |s| && WordStart(cc, s[index + 2]) {
      end := ScanWord(cc, s, index + 3);
      return end, false;
    }
    if s[index] == '"' {
      end := ConsumeQuoted(s, index, '"');
      return end, true;
    }
    if At2(s, index, 'b', '"') || At2(s, index, 'c', '"') {
      end := ConsumeQuoted(s, index + 1, '"');
      return end, true;
    }
    if s[index] == '\'' {
      if index + 1 < |s| && WordStart(cc, s[index + 1]) {
        var cursor := ScanWord(cc, s, index + 1);
        if cursor >= |s| || s[cursor] != '\'' {
          return index + 1, false;
        }
      }
      end := ConsumeQuoted(s, index, '\'');
      return end, true;
    }
    if At2(s, index, 'b', '\'') {
      end := ConsumeQuoted(s, index + 1, '\'');
      return end, true;
    }
    if WordStart(cc, s[index]) {
      end := ScanWord(cc, s, index + 1);
      return end, false;
    }
    return index + 1, false;
  }

  lemma CutsStep(cc: Classes, s: string, i: nat)
    requires i < |s|
    ensures InSource(s, Cuts(cc, s, i)) && InSource(s, Cuts(cc, s, LexemeAt(cc, s, i).end))
    ensures TokensOf(s, Cuts(cc, s, i)) ==
      (if LexemeAt(cc, s, i).Skip? then [] else [TokenOf(s, Span(i, LexemeAt(cc, s, i).end))])
        + TokensOf(s, Cuts(cc, s, LexemeAt(cc, s, i).end))
  {
    hide LexemeAt, TokenOf;
    CutsTile(cc, s, i);
    CutsTile(cc, s, LexemeAt(cc, s, i).end);
    if !LexemeAt(cc, s, i).Skip? {
      assert Cuts(cc, s, i)[1..] == Cuts(cc, s, LexemeAt(cc, s, i).end);
    }
  }

  /** One turn of `lex_rust`: the lexeme at `index` and the newlines it holds. */
  method ScanLexeme(cc: Classes, s: string, index: nat) returns (l: Lexeme, newlines: nat)
    requires Sane(cc) && index < |s|
    ensures l == LexemeAt(cc, s, index)
    ensures newlines == Newlines(s[index..l.end])
  {
    hide Newlines, TokenEnd, BlockCommentEnd;
    if cc.space(s[index]) {
      OneNewline(s, index);
      return Skip(index + 1), if s[index] == '\n' then 1 else 0;
    }
    if At2(s, index, '/', '/') {
      var end := SkipLineComment(s, index + 2);
      NoNewlines(s[index..end]);
      return Skip(end), 0;
    }
    if At2(s, index, '/', '*') {
      var end := SkipBlockComment(s, index + 2);
      return Skip(end), Newlines(s[index..end]);
    }
    var end, counts := ScanToken(cc, s, index);
    if !counts {
      NoNewlines(s[index..end]);
      return Take(end), 0;
    }
    return Take(end), Newlines(s[index..end]);
  }

  /** `lex_rust`: the tokens of the cut, each with the line it starts on. */
  method LexRust(cc: Classes, s: string) returns (tokens: seq<Token>)
    requires Sane(cc)
    ensures InSource(s, Cuts(cc, s, 0)) && Tiles(cc, s, 0, Cuts(cc, s, 0))
    ensures tokens == TokensOf(s, Cuts(cc, s, 0))
  {
    hide *;
    CutsTile(cc, s, 0);
    tokens := [];
    var index := 0;
    var line := 1;
    assert s[..0] == [];
    NewlinesOfNothing();
    while index < |s|
      invariant index <= |s|
      invariant line == 1 + Newlines(s[..index])
      invariant InSource(s, Cuts(cc, s, index))
      invariant tokens + TokensOf(s, Cuts(cc, s, index)) == TokensOf(s, Cuts(cc, s, 0))
    {
      Turned(cc, s, index, tokens);
      var l, newlines := ScanLexeme(cc, s, index);
      NewlinesBetween(s, index, l.end);
      if l.Take? {
        tokens := tokens + [Token(s[index..l.end], line)];
      }
      line := line + newlines;
      index := l.end;
    }
    CutsEnd(cc, s);
    assert tokens + [] == tokens;
  }

  /** What a turn adds to the tokens is what it takes off the cuts. */
  lemma Turned(cc: Classes, s: string, i: nat, tokens: seq<Token>)
    requires i < |s|
    ensures InSource(s, Cuts(cc, s, i)) && InSource(s, Cuts(cc, s, LexemeAt(cc, s, i).end))
    ensures var l := LexemeAt(cc, s, i);
      var added := if l.Take? then tokens + [Token(s[i..l.end], 1 + Newlines(s[..i]))] else tokens;
      added + TokensOf(s, Cuts(cc, s, l.end)) == tokens + TokensOf(s, Cuts(cc, s, i))
  {
    hide Cuts, TokensOf, Newlines, LexemeAt, InSource;
    CutsStep(cc, s, i);
  }

  lemma NewlinesOfNothing()
    ensures Newlines([]) == 0
  {
  }

  lemma OneNewline(s: string, i: nat)
    requires i < |s|
    ensures Newlines(s[i..i + 1]) == if s[i] == '\n' then 1 else 0
  {
    assert s[i..i + 1][..0] == [];
  }

  lemma CutsEnd(cc: Classes, s: string)
    ensures Cuts(cc, s, |s|) == [] && InSource(s, []) && TokensOf(s, []) == []
  {
  }
}
