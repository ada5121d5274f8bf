/** Counting a whole source text: the lexer's tokens, classified, given to the counters. */
module SourceCount {
  import UnsafeScanner
  import opened RustLexer

  function Spans(cc: Classes, s: string): (spans: seq<Span>)
    ensures InSource(s, spans)
  {
    CutsTile(cc, s, 0);
    Cuts(cc, s, 0)
  }

  function Classify(cc: Classes, t: Token): (u: UnsafeScanner.Token)
  {
    UnsafeScanner.Token(UnsafeScanner.KindOf(t.text, cc.alpha), t.text)
  }

  function Classified(cc: Classes, ts: seq<Token>): (us: seq<UnsafeScanner.Token>)
  {
    seq(|ts|, i requires 0 <= i < |ts| => Classify(cc, ts[i]))
  }

  /** The classified tokens of a source text. */
  function Words(cc: Classes, s: string): (us: seq<UnsafeScanner.Token>)
  {
    Classified(cc, TokensOf(s, Spans(cc, s)))
  }

  lemma {:induction false} TilesAt(cc: Classes, s: string, i: nat, spans: seq<Span>, k: nat)
    requires Tiles(cc, s, i, spans) && k + 1 < |spans|
    ensures spans[k].end <= spans[k + 1].start && Gap(cc, s, spans[k].end, spans[k + 1].start)
    decreases k
  {
    hide Gap;
    if k > 0 {
      TilesAt(cc, s, spans[0].end, spans[1..], k - 1);
    } else {
      assert spans[1..][0] == spans[1];
    }
  }

  lemma KindsOfWords(cc: Classes, text: string)
    ensures UnsafeScanner.KindOf(text, cc.alpha) == UnsafeScanner.Unsafe <==> text == "unsafe"
    ensures UnsafeScanner.KindOf(text, cc.alpha) == UnsafeScanner.Open(UnsafeScanner.Curly) <==> text == "{"
  {
  }

  /** Whatever is counted is really in the text: the word and the brace, as tokens of their own,
      with nothing but white space and comments between them. */
  lemma BlocksAreInSource(cc: Classes, s: string, k: nat)
    requires UnsafeScanner.OpensUnsafeBlock(Words(cc, s), k)
    ensures k + 1 < |Spans(cc, s)|
    ensures var a, b := Spans(cc, s)[k], Spans(cc, s)[k + 1];
      a.start <= a.end <= b.start <= b.end <= |s|
      && s[a.start..a.end] == "unsafe" && s[b.start..b.end] == "{" && Gap(cc, s, a.end, b.start)
  {
    hide Cuts, Gap, Tiles, UnsafeScanner.KindOf, LexemeAt;
    var spans := Spans(cc, s);
    CutsTile(cc, s, 0);
    TilesAt(cc, s, 0, spans, k);
    assert InSource(s, spans);
    KindsOfWords(cc, TokenOf(s, spans[k]).text);
    KindsOfWords(cc, TokenOf(s, spans[k + 1]).text);
  }

  /** `count_source`: never more than the unconventional count of the same text. */
  method CountFile(cc: Classes, c: UnsafeScanner.Config, s: string) returns (r: UnsafeScanner.Result<(nat, nat)>)
    requires Sane(cc)
    ensures r == UnsafeScanner.CountSource(c, Words(cc, s))
    ensures r.Ok? ==> r.value.0 + r.value.1 <= UnsafeScanner.AllBlocks(Words(cc, s), 0)
    ensures r.Ok? && c.wholeFileIsTest ==> r.value.0 == 0
  {
    hide UnsafeScanner.CountSource, Cuts, Tiles, UnsafeScanner.KindOf;
    var tokens := LexRust(cc, s);
    var words := ClassifyAll(cc, tokens);
    r := UnsafeScanner.CountTokens(c, words);
    if r.Ok? { UnsafeScanner.Conservation(c, words); }
  }

  /** `_count_unconventional_source`: counts every pair, or refuses exactly when something in the
      text could expand to more. */
  method CountUnconventionalFile(cc: Classes, s: string) returns (r: UnsafeScanner.Result<nat>)
    requires Sane(cc)
    ensures r.Ok? <==> forall i | 0 <= i < |Words(cc, s)| :: !UnsafeScanner.RefusedAnywhere(Words(cc, s), i)
    ensures r.Ok? ==> r.value == UnsafeScanner.AllBlocks(Words(cc, s), 0)
  {
    hide Cuts, Tiles, UnsafeScanner.KindOf, UnsafeScanner.RefusedAnywhere, UnsafeScanner.AllBlocks;
    var tokens := LexRust(cc, s);
    var words := ClassifyAll(cc, tokens);
    assert words == Words(cc, s);
    r := UnsafeScanner.CountUnconventional(words);
  }

  method ClassifyAll(cc: Classes, ts: seq<Token>) returns (us: seq<UnsafeScanner.Token>)
    ensures us == Classified(cc, ts)
  {
    us := [];
    for i := 0 to |ts|
      invariant us == Classified(cc, ts[..i])
    {
      us := us + [Classify(cc, ts[i])];
    }
    assert ts[..|ts|] == ts;
  }
}
