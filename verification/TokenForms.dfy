/** What a token of Rust is, said without the lexer that cuts it: seven forms, told apart by
    how they start, each with its own end. Every token of the lexer has one of them, and
    white space, comments and these forms leave one way to read a source. */
module TokenForms {
  import opened RustLexer

  datatype Form = RawString | RawName | Text | LoneQuote | Character | Name | Sign

  // ---------------------------------------------------------------------
  // How a form starts
  // ---------------------------------------------------------------------

  /** `r`, `br` or `cr`, then `n` number signs and a quote; the letters are `p` characters. */
  predicate RawOpens(s: string, i: nat, p: nat, n: nat)
  {
    && i + p + n < |s| && s[i + p + n] == '"' && (forall k | i + p <= k < i + p + n :: s[k] == '#')
    && ((p == 1 && s[i] == 'r') || (p == 2 && s[i] in {'b', 'c'} && s[i + 1] == 'r'))
  }

  ghost predicate RawStarts(s: string, i: nat) { exists p: nat, n: nat :: RawOpens(s, i, p, n) }

  predicate TextStarts(s: string, i: nat) { i < |s| && (s[i] == '"' || At2(s, i, 'b', '"') || At2(s, i, 'c', '"')) }

  predicate NameAfterHash(cc: Classes, s: string, i: nat) { At2(s, i, 'r', '#') && i + 2 < |s| && WordStart(cc, s[i + 2]) }

  /** From `i` to `e` there are word characters, and no more follow. */
  predicate LongestRun(cc: Classes, s: string, i: nat, e: nat)
  {
    i <= e <= |s| && (forall k | i <= k < e :: WordPart(cc, s[k])) && (e == |s| || !WordPart(cc, s[e]))
  }

  /** No quote follows the word characters from `i`. */
  ghost predicate Unclosed(cc: Classes, s: string, i: nat)
  {
    exists w: nat :: LongestRun(cc, s, i, w) && (w == |s| || s[w] != '\'')
  }

  /** A word follows the quote at `i`, and no quote closes it: a lifetime. */
  ghost predicate OpensLifetime(cc: Classes, s: string, i: nat)
  {
    i + 1 < |s| && s[i] == '\'' && WordStart(cc, s[i + 1]) && Unclosed(cc, s, i + 1)
  }

  /** Something other than a name or a sign starts here. */
  ghost predicate Special(cc: Classes, s: string, i: nat)
  {
    i < |s| && (RawStarts(s, i) || NameAfterHash(cc, s, i) || TextStarts(s, i) || s[i] == '\'' || At2(s, i, 'b', '\''))
  }

  ghost predicate Starts(cc: Classes, s: string, i: nat, f: Form)
  {
    i < |s| &&
    match f
    case RawString => RawStarts(s, i)
    case RawName => !RawStarts(s, i) && NameAfterHash(cc, s, i)
    case Text => TextStarts(s, i)
    case LoneQuote => OpensLifetime(cc, s, i)
    case Character => (s[i] == '\'' && !OpensLifetime(cc, s, i)) || At2(s, i, 'b', '\'')
    case Name => !Special(cc, s, i) && WordStart(cc, s[i])
    case Sign => !Special(cc, s, i) && !WordStart(cc, s[i])
  }

  /** Every place starts exactly one form. */
  lemma OneForm(cc: Classes, s: string, i: nat, f: Form, g: Form)
    requires i < |s|
    ensures exists h :: Starts(cc, s, i, h)
    ensures Starts(cc, s, i, f) && Starts(cc, s, i, g) ==> f == g
  {
    hide LongestRun, WordStart, OpensLifetime;
    assert Starts(cc, s, i, RawString) || Starts(cc, s, i, RawName) || Starts(cc, s, i, Text) || Starts(cc, s, i, LoneQuote)
      || Starts(cc, s, i, Character) || Starts(cc, s, i, Name) || Starts(cc, s, i, Sign) || OpensLifetime(cc, s, i);
    if OpensLifetime(cc, s, i) { LifetimeQuote(cc, s, i); }
  }

  lemma LifetimeQuote(cc: Classes, s: string, i: nat)
    requires OpensLifetime(cc, s, i)
    ensures s[i] == '\''
  {
  }

  // ---------------------------------------------------------------------
  // Where it ends
  // ---------------------------------------------------------------------

  /** A literal with body from `i` ends past the first quote that no backslash escapes, or with the source. */
  predicate Closed(s: string, i: nat, quote: char, e: nat)
  {
    i <= e <= |s| &&
    ( || (i < e && Closes(s, i, e - 1, quote) && forall k | i <= k < e - 1 :: !Closes(s, i, k, quote))
      || (e == |s| && forall k | i <= k < |s| :: !Closes(s, i, k, quote)) )
  }

  /** A raw string with body from `i` ends past the first quote with its number signs, or with the source. */
  predicate RawClosed(s: string, i: nat, n: nat, e: nat)
  {
    i <= e <= |s| &&
    ( || (i <= e - 1 - n && Terminates(s, e - 1 - n, n) && forall k | i <= k < e - 1 - n :: !Terminates(s, k, n))
      || (e == |s| && forall k | i <= k < |s| :: !Terminates(s, k, n)) )
  }

  ghost predicate Ends(cc: Classes, s: string, i: nat, f: Form, e: nat)
  {
    i < |s| &&
    match f
    case RawString => exists p: nat, n: nat :: RawOpens(s, i, p, n) && RawClosed(s, i + p + n + 1, n, e)
    case RawName => LongestRun(cc, s, i + 3, e)
    case Text => Closed(s, if s[i] == '"' then i + 1 else i + 2, '"', e)
    case LoneQuote => e == i + 1
    case Character => Closed(s, if s[i] == '\'' then i + 1 else i + 2, '\'', e)
    case Name => LongestRun(cc, s, i + 1, e)
    case Sign => e == i + 1
  }

  ghost predicate IsToken(cc: Classes, s: string, i: nat, e: nat)
  {
    exists f :: Starts(cc, s, i, f) && Ends(cc, s, i, f, e)
  }

  // ---------------------------------------------------------------------
  // The lexer's tokens have a form
  // ---------------------------------------------------------------------

  lemma RunUnique(cc: Classes, s: string, i: nat, d: nat, e: nat)
    requires LongestRun(cc, s, i, d) && LongestRun(cc, s, i, e)
    ensures d == e
  {
    hide WordPart;
  }

  lemma RawOpensOnce(s: string, i: nat, p: nat, n: nat, q: nat, m: nat)
    requires RawOpens(s, i, p, n) && RawOpens(s, i, q, m)
    ensures p == q && n == m
  {
    HashesStop(s, i + p, n);
    HashesStop(s, i + q, m);
  }

  lemma RawEnds(s: string, i: nat)
    requires i < |s|
    ensures RawStringEnd(s, i).Some? <==> RawStarts(s, i)
    ensures RawStringEnd(s, i).Some? ==>
      exists p: nat, n: nat :: RawOpens(s, i, p, n) && RawClosed(s, i + p + n + 1, n, RawStringEnd(s, i).value)
  {
    hide RawBodyEnd, Terminates;
    var p := RawPrefix(s, i);
    if p > 0 {
      var n := HashesEnd(s, i + p) - (i + p);
      if RawStringEnd(s, i).Some? {
        assert RawOpens(s, i, p, n);
        assert RawClosed(s, i + p + n + 1, n, RawStringEnd(s, i).value);
      }
      if q: nat, m: nat :| RawOpens(s, i, q, m) {
        assert q == p && s[i + p + m] == '"';
        HashesStop(s, i + p, m);
      }
    } else if q: nat, m: nat :| RawOpens(s, i, q, m) {
      assert false;
    }
  }

  lemma HashesStop(s: string, i: nat, m: nat)
    requires i + m < |s| && s[i + m] == '"' && forall k | i <= k < i + m :: s[k] == '#'
    ensures HashesEnd(s, i) == i + m
  {
  }

  lemma LifetimeIsLone(cc: Classes, s: string, i: nat)
    requires i < |s| && s[i] == '\''
    ensures OpensLifetime(cc, s, i) <==>
      i + 1 < |s| && WordStart(cc, s[i + 1]) && (var w := WordEnd(cc, s, i + 1); w >= |s| || s[w] != '\'')
  {
    hide WordStart, WordEnd, Unclosed;
    if i + 1 < |s| { UnclosedWord(cc, s, i + 1); }
  }

  lemma UnclosedWord(cc: Classes, s: string, i: nat)
    requires i <= |s|
    ensures Unclosed(cc, s, i) <==> (var w := WordEnd(cc, s, i); w == |s| || s[w] != '\'')
  {
    hide WordPart;
    WordRuns(cc, s, i);
    if Unclosed(cc, s, i) {
      var w: nat :| LongestRun(cc, s, i, w) && (w == |s| || s[w] != '\'');
      RunUnique(cc, s, i, w, WordEnd(cc, s, i));
    }
  }

  /** The lexer's token has the form that starts there. */
  lemma TokenHasForm(cc: Classes, s: string, i: nat)
    requires i < |s|
    ensures IsToken(cc, s, i, TokenEnd(cc, s, i))
  {
    hide RawStringEnd, QuotedEnd, WordEnd, WordStart, WordPart, Closes, OpensLifetime, RawOpens, Closed, RawClosed, LongestRun;
    var e := TokenEnd(cc, s, i);
    RawEnds(s, i);
    if RawStarts(s, i) {
      assert Starts(cc, s, i, RawString) && Ends(cc, s, i, RawString, e);
    } else if NameAfterHash(cc, s, i) {
      WordRuns(cc, s, i + 3);
      assert Starts(cc, s, i, RawName) && Ends(cc, s, i, RawName, e);
    } else if TextStarts(s, i) {
      QuotedCloses(s, if s[i] == '"' then i + 1 else i + 2, '"');
      assert Starts(cc, s, i, Text) && Ends(cc, s, i, Text, e);
    } else if s[i] == '\'' {
      LifetimeIsLone(cc, s, i);
      QuotedCloses(s, i + 1, '\'');
      var f := if OpensLifetime(cc, s, i) then LoneQuote else Character;
      assert Starts(cc, s, i, f) && Ends(cc, s, i, f, e);
    } else if At2(s, i, 'b', '\'') {
      QuotedCloses(s, i + 2, '\'');
      assert Starts(cc, s, i, Character) && Ends(cc, s, i, Character, e);
    } else if WordStart(cc, s[i]) {
      WordRuns(cc, s, i + 1);
      assert Starts(cc, s, i, Name) && Ends(cc, s, i, Name, e);
    } else {
      assert Starts(cc, s, i, Sign) && Ends(cc, s, i, Sign, e);
    }
  }

  lemma WordRuns(cc: Classes, s: string, i: nat)
    requires i <= |s|
    ensures LongestRun(cc, s, i, WordEnd(cc, s, i))
  {
  }

  lemma QuotedCloses(s: string, i: nat, quote: char)
    requires i <= |s| && quote != '\\'
    ensures Closed(s, i, quote, QuotedEnd(s, i, quote))
  {
    QuotedEndIsFirstClose(s, i, quote);
  }

  lemma {:induction false} EverySpan(cc: Classes, s: string, i: nat, k: nat)
    requires i <= |s| && k < |Cuts(cc, s, i)|
    ensures var span := Cuts(cc, s, i)[k]; IsToken(cc, s, span.start, span.end)
    decreases |s| - i
  {
    hide IsToken, TokenEnd, LineCommentEnd, BlockCommentEnd;
    var l := LexemeAt(cc, s, i);
    if l.Skip? {
      EverySpan(cc, s, l.end, k);
    } else if k > 0 {
      EverySpan(cc, s, l.end, k - 1);
    } else {
      TokenHasForm(cc, s, i);
    }
  }

  // ---------------------------------------------------------------------
  // And nothing else does
  // ---------------------------------------------------------------------

  lemma ClosedFirst(s: string, i: nat, quote: char, d: nat, e: nat)
    requires Closed(s, i, quote, d) && Closed(s, i, quote, e)
    ensures d >= e
  {
    hide Closes;
  }

  lemma ClosedUnique(s: string, i: nat, quote: char, d: nat, e: nat)
    requires Closed(s, i, quote, d) && Closed(s, i, quote, e)
    ensures d == e
  {
    hide Closes;
    ClosedFirst(s, i, quote, d, e);
    ClosedFirst(s, i, quote, e, d);
  }

  lemma RawClosedFirst(s: string, i: nat, n: nat, d: nat, e: nat)
    requires RawClosed(s, i, n, d) && RawClosed(s, i, n, e)
    ensures d >= e
  {
    hide Terminates;
  }

  lemma RawClosedUnique(s: string, i: nat, n: nat, d: nat, e: nat)
    requires RawClosed(s, i, n, d) && RawClosed(s, i, n, e)
    ensures d == e
  {
    hide Terminates;
    RawClosedFirst(s, i, n, d, e);
    RawClosedFirst(s, i, n, e, d);
  }

  /** Where a token starts determines where it ends. */
  lemma EndUnique(cc: Classes, s: string, i: nat, d: nat, e: nat)
    requires IsToken(cc, s, i, d) && IsToken(cc, s, i, e)
    ensures d == e
  {
    hide Starts, Closed, RawClosed, LongestRun, RawOpens;
    var f :| Starts(cc, s, i, f) && Ends(cc, s, i, f, d);
    var g :| Starts(cc, s, i, g) && Ends(cc, s, i, g, e);
    OneForm(cc, s, i, f, g);
    match f
    case RawString =>
      var p: nat, n: nat :| RawOpens(s, i, p, n) && RawClosed(s, i + p + n + 1, n, d);
      var q: nat, m: nat :| RawOpens(s, i, q, m) && RawClosed(s, i + q + m + 1, m, e);
      RawOpensOnce(s, i, p, n, q, m);
      RawClosedUnique(s, i + p + n + 1, n, d, e);
    case RawName => RunUnique(cc, s, i + 3, d, e);
    case Text => ClosedUnique(s, if s[i] == '"' then i + 1 else i + 2, '"', d, e);
    case LoneQuote =>
    case Character => ClosedUnique(s, if s[i] == '\'' then i + 1 else i + 2, '\'', d, e);
    case Name => RunUnique(cc, s, i + 1, d, e);
    case Sign =>
  }

  /** A slash is not white space: otherwise a comment could be read as spaces. */
  predicate SlashIsMark(cc: Classes) { !cc.space('/') }

  lemma TriviaUnique(cc: Classes, s: string, i: nat, j: nat, k: nat)
    requires SlashIsMark(cc) && Trivia(cc, s, i, j) && Trivia(cc, s, i, k)
    ensures j == k && !Startable(cc, s, i)
  {
    hide CommentClose;
  }

  /** A place at which no gap goes on. */
  predicate Stops(cc: Classes, s: string, i: nat) { i == |s| || Startable(cc, s, i) }

  lemma {:induction false} GapUnique(cc: Classes, s: string, i: nat, j: nat, k: nat)
    requires SlashIsMark(cc) && i <= j && i <= k && Gap(cc, s, i, j) && Gap(cc, s, i, k) && Stops(cc, s, j) && Stops(cc, s, k)
    ensures j == k
    decreases j - i
  {
    hide Trivia, Startable;
    if i == j || i == k {
      if i < j {
        var m :| i < m <= j && Trivia(cc, s, i, m) && Gap(cc, s, m, j);
        NotStopped(cc, s, i, m);
      } else if i < k {
        var m :| i < m <= k && Trivia(cc, s, i, m) && Gap(cc, s, m, k);
        NotStopped(cc, s, i, m);
      }
    } else {
      var m :| i < m <= j && Trivia(cc, s, i, m) && Gap(cc, s, m, j);
      var n :| i < n <= k && Trivia(cc, s, i, n) && Gap(cc, s, n, k);
      TriviaUnique(cc, s, i, m, n);
      GapUnique(cc, s, m, j, k);
    }
  }

  lemma NotStopped(cc: Classes, s: string, i: nat, m: nat)
    requires SlashIsMark(cc) && Trivia(cc, s, i, m)
    ensures !Stops(cc, s, i)
  {
    TriviaUnique(cc, s, i, m, m);
  }

  ghost predicate AllTokens(cc: Classes, s: string, spans: seq<Span>)
  {
    forall k | 0 <= k < |spans| :: IsToken(cc, s, spans[k].start, spans[k].end)
  }

  /** There is one way to read a source as tokens with white space and comments between them. */
  lemma {:induction false} OneReading(cc: Classes, s: string, i: nat, a: seq<Span>, b: seq<Span>)
    requires SlashIsMark(cc) && i <= |s| && Tiles(cc, s, i, a) && Tiles(cc, s, i, b) && AllTokens(cc, s, a) && AllTokens(cc, s, b)
    ensures a == b
    decreases |a|
  {
    hide Gap, Startable, IsToken;
    var j, k := if a == [] then |s| else a[0].start, if b == [] then |s| else b[0].start;
    GapUnique(cc, s, i, j, k);
    if a != [] {
      EndUnique(cc, s, j, a[0].end, b[0].end);
      assert a[0] == b[0];
      OneReading(cc, s, a[0].end, a[1..], b[1..]);
      assert a == [a[0]] + a[1..] && b == [b[0]] + b[1..];
    }
  }

  /** So the lexer's cut is the reading: whatever tiles the source with tokens is the lexer's cut. */
  lemma CutsAreTheReading(cc: Classes, s: string, spans: seq<Span>)
    requires SlashIsMark(cc)
    ensures Tiles(cc, s, 0, spans) && AllTokens(cc, s, spans) <==> spans == Cuts(cc, s, 0)
  {
    hide Tiles, IsToken, Cuts;
    var cuts := Cuts(cc, s, 0);
    CutsTile(cc, s, 0);
    forall k | 0 <= k < |cuts| ensures IsToken(cc, s, cuts[k].start, cuts[k].end) {
      EverySpan(cc, s, 0, k);
    }
    if Tiles(cc, s, 0, spans) && AllTokens(cc, s, spans) {
      OneReading(cc, s, 0, spans, cuts);
    }
  }
}
