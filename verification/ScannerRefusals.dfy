/** What the scanner refuses, in terms of the texts of tokens and the macro groups around them:
    the kind of every text, and a condition for refusal that knows nothing of counts, scopes
    or pending attributes. */
module ScannerRefusals {
  import CfgExpression
  import opened UnsafeScanner
  import opened ItemTrees

  // ---------------------------------------------------------------------
  // Kinds
  // ---------------------------------------------------------------------

  /** The texts of a kind that has a list of them. */
  function Spellings(k: Kind): (texts: set<string>)
  {
    match k
    case Open(Paren) => {"("}
    case Open(Square) => {"["}
    case Open(Curly) => {"{"}
    case Close(Paren) => {")"}
    case Close(Square) => {"]"}
    case Close(Curly) => {"}"}
    case Hash => {"#"}
    case Bang => {"!"}
    case Dollar => {"$"}
    case Less => {"<"}
    case Greater => {">"}
    case Semicolon => {";"}
    case Comma => {","}
    case Include => {"include"}
    case Unsafe => {"unsafe"}
    case MacroRules => {"macro_rules"}
    case Extern => {"extern"}
    case FnImplTrait => {"fn", "impl", "trait"}
    case OtherItem => {"const", "enum", "mod", "static", "struct", "type", "union", "use"}
    case Modifier => {"async", "auto", "default", "pub"}
    case Name => {}
    case Mark => {}
  }

  predicate Listed(k: Kind) { k != Name && k != Mark }

  /** A text on a list has the kind of that list; any other is a name or a mark by its first letter. */
  lemma KindExact(text: string, alpha: char -> bool, k: Kind)
    ensures Listed(k) ==> (KindOf(text, alpha) == k <==> text in Spellings(k))
    ensures !Listed(KindOf(text, alpha)) <==> forall j :: text !in Spellings(j)
    ensures !Listed(KindOf(text, alpha)) ==> (KindOf(text, alpha) == Name <==> text != "" && alpha(text[0]))
  {
    KindListed(text, alpha);
    if text in Spellings(k) { SpellingKind(text, alpha, k); }
    if Listed(KindOf(text, alpha)) {
      assert text in Spellings(KindOf(text, alpha));
    } else {
      forall j ensures text !in Spellings(j) {
        if text in Spellings(j) { SpellingKind(text, alpha, j); }
      }
    }
  }

  lemma KindListed(text: string, alpha: char -> bool)
    ensures var k := KindOf(text, alpha); Listed(k) ==> text in Spellings(k)
    ensures var k := KindOf(text, alpha); !Listed(k) ==> (k == Name <==> text != "" && alpha(text[0]))
  {
    if |text| == 1 { MarkListed(text, alpha); } else { WordListed(text, alpha); }
  }

  lemma MarkListed(text: string, alpha: char -> bool)
    requires |text| == 1
    ensures var k := KindOf(text, alpha); Listed(k) ==> text in Spellings(k)
    ensures var k := KindOf(text, alpha); !Listed(k) ==> (k == Name <==> text != "" && alpha(text[0]))
  {
  }

  lemma WordListed(text: string, alpha: char -> bool)
    requires |text| != 1
    ensures var k := KindOf(text, alpha); Listed(k) ==> text in Spellings(k)
    ensures var k := KindOf(text, alpha); !Listed(k) ==> (k == Name <==> text != "" && alpha(text[0]))
  {
  }

  lemma SpellingKind(text: string, alpha: char -> bool, k: Kind)
    requires text in Spellings(k)
    ensures KindOf(text, alpha) == k
  {
    if k.Open? || k.Close? { BracketKind(text, alpha, k); }
    else if k in {Hash, Bang, Dollar} { SigilKind(text, alpha, k); }
    else if |text| == 1 { MarkKind(text, alpha, k); }
    else if k == OtherItem { ItemKind(text, alpha, k); }
    else if k in {FnImplTrait, Modifier} { KeywordKind(text, alpha, k); }
    else { WordKind(text, alpha, k); }
  }

  lemma BracketKind(text: string, alpha: char -> bool, k: Kind)
    requires text in Spellings(k) && (k.Open? || k.Close?)
    ensures KindOf(text, alpha) == k
  {
  }

  lemma KeywordKind(text: string, alpha: char -> bool, k: Kind)
    requires text in Spellings(k) && k in {FnImplTrait, Modifier}
    ensures KindOf(text, alpha) == k
  {
  }

  lemma ItemKind(text: string, alpha: char -> bool, k: Kind)
    requires text in Spellings(k) && k == OtherItem
    ensures KindOf(text, alpha) == k
  {
  }

  lemma SigilKind(text: string, alpha: char -> bool, k: Kind)
    requires text in Spellings(k) && k in {Hash, Bang, Dollar}
    ensures KindOf(text, alpha) == k
  {
  }

  lemma MarkKind(text: string, alpha: char -> bool, k: Kind)
    requires text in Spellings(k) && |text| == 1 && !k.Open? && !k.Close? && k !in {Hash, Bang, Dollar}
    ensures KindOf(text, alpha) == k
  {
  }

  lemma WordKind(text: string, alpha: char -> bool, k: Kind)
    requires text in Spellings(k) && |text| != 1 && k !in {FnImplTrait, OtherItem, Modifier}
    ensures KindOf(text, alpha) == k
  {
  }

  // ---------------------------------------------------------------------
  // Refusals
  // ---------------------------------------------------------------------

  /** `include!`, or an `unsafe` that opens no block where it may not stand: anywhere in a macro group, and
      outside one before anything but `(`, `extern`, `fn`, `impl` and `trait`. */
  predicate TokenRefused(ts: seq<Token>, i: nat, inMacro: bool)
    requires i < |ts|
  {
    i + 1 < |ts| &&
    var k, next := ts[i].kind, ts[i + 1].kind;
    || (k == Include && next == Bang)
    || (k == Unsafe && next != Open(Curly) && (inMacro || next !in {Open(Paren), Extern, FnImplTrait}))
  }

  /** A closed attribute that names a bad path, or has too many options to decide. */
  ghost predicate AttributeRefused(c: Config, ts: seq<Token>, i: nat)
    requires i < |ts|
  {
    var start := AttributeStart(ts, i);
    start != 0 && AttributeClose(ts, start, 1).Closed? && !AttributeOk(c, ts[start..AttributeClose(ts, start, 1).end - 1])
  }

  /** Something at or after `i` is refused, with macro groups `m` open. */
  ghost predicate Refuses(c: Config, ts: seq<Token>, i: nat, m: seq<(Bracket, nat)>)
    decreases |ts| - i
  {
    i < |ts| &&
    var n := MacroStep(ts, i, m);
    TokenRefused(ts, i, n != []) || AttributeRefused(c, ts, i) || Refuses(c, ts, After(ts, i), n)
  }

  lemma StepRefused(c: Config, ts: seq<Token>, i: nat, st: State)
    requires i < |ts|
    ensures var n := MacroStep(ts, i, st.macros);
      && (Step(c, ts, i, st).Rejected? <==> TokenRefused(ts, i, n != []) || AttributeRefused(c, ts, i))
      && (Step(c, ts, i, st).Ok? ==> Step(c, ts, i, st).value.macros == n)
  {
    hide MacroStep, AttributeClose, Texts, PendingStep, Moved, AttributeStart;
  }

  /** A source is refused exactly when one of its tokens or attributes is: nothing that the scanner
      counts or tracks matters, but the macro groups that are open. */
  lemma {:induction false} RefusedExactly(c: Config, ts: seq<Token>, i: nat, st: State)
    requires i <= |ts|
    ensures Scan(c, ts, i, st).Rejected? <==> Refuses(c, ts, i, st.macros)
    decreases |ts| - i
  {
    hide Step, TokenRefused, AttributeRefused, MacroStep, After;
    if i < |ts| {
      StepRefused(c, ts, i, st);
      if Step(c, ts, i, st).Ok? { RefusedExactly(c, ts, After(ts, i), Step(c, ts, i, st).value); }
    }
  }

  lemma CountRefused(c: Config, ts: seq<Token>)
    ensures CountSource(c, ts).Rejected? <==> Refuses(c, ts, 0, [])
  {
    hide Step, Refuses;
    RefusedExactly(c, ts, 0, INITIAL);
  }

  // ---------------------------------------------------------------------
  // Macro groups nest
  // ---------------------------------------------------------------------

  /** The bracket after these tokens opens a macro group: it follows `!`, or a `macro_rules!` and its name. */
  predicate OpensMacro(pre: seq<Token>)
  {
    var n := |pre|;
    || (n > 0 && pre[n - 1].kind == Bang && !(n > 1 && pre[n - 2].kind == Hash))
    || (n > 2 && pre[n - 3].kind == MacroRules && pre[n - 2].kind == Bang)
  }

  /** The macro groups that are open at `j`, when the scan comes there from `i`. */
  ghost function MacrosTo(ts: seq<Token>, i: nat, j: nat, m: seq<(Bracket, nat)>): (n: seq<(Bracket, nat)>)
    requires j <= |ts|
    decreases |ts| - i
  {
    if i >= j then m else MacrosTo(ts, After(ts, i), j, MacroStep(ts, i, m))
  }

  /** Inside a macro group there is one open, whatever was open around it. */
  lemma MacroEntered(ts: seq<Token>, pre: seq<Token>, b: Bracket, rest: seq<Token>, m: seq<(Bracket, nat)>)
    requires ts == pre + ([OpenToken(b)] + rest)
    ensures OpensMacro(pre) ==> MacroStep(ts, |pre|, m) == m + [(b, 1)]
    ensures !OpensMacro(pre) ==> (MacroStep(ts, |pre|, m) != [] <==> m != [])
  {
    assert ts[|pre|] == OpenToken(b) && forall i | 0 <= i < |pre| :: ts[i] == pre[i];
  }

  /** What closing a bracket undoes. */
  lemma MacroLeft(ts: seq<Token>, i: nat, j: nat, b: Bracket, m: seq<(Bracket, nat)>)
    requires i < |ts| && j < |ts| && ts[i].kind == Open(b) && ts[j].kind == Close(b)
    requires forall x | 0 <= x < |m| :: m[x].1 > 0
    ensures MacroStep(ts, j, MacroStep(ts, i, m)) == m && forall x | 0 <= x < |MacroStep(ts, i, m)| :: MacroStep(ts, i, m)[x].1 > 0
  {
    var n := MacroStep(ts, i, m);
    if |n| == |m| + 1 { assert n[..|m|] == m; }
  }

  predicate Positive(m: seq<(Bracket, nat)>) { forall x | 0 <= x < |m| :: m[x].1 > 0 }

  /** Scanning a well-formed forest leaves the open macro groups as it found them. */
  lemma {:induction false} NodesKeepMacros(ts: seq<Token>, pre: seq<Token>, nodes: seq<Node>, post: seq<Token>,
                                           j: nat, m: seq<(Bracket, nat)>)
    requires WellFormed(nodes) && Positive(m) && ts == pre + (Print(nodes) + post) && |pre| + |Print(nodes)| <= j <= |ts|
    ensures MacrosTo(ts, |pre|, j, m) == MacrosTo(ts, |pre| + |Print(nodes)|, j, m)
    decreases nodes, 1
  {
    hide MacrosTo, PrintNode, WellFormedNode, Positive;
    if nodes != [] {
      PrintCons(ts, pre, nodes, post);
      WellFormedAt(nodes, 0);
      NodeKeepsMacros(ts, pre, nodes[0], Print(nodes[1..]) + post, j, m);
      NodesKeepMacros(ts, pre + PrintNode(nodes[0]), nodes[1..], post, j, m);
    }
  }

  lemma {:induction false} NodeKeepsMacros(ts: seq<Token>, pre: seq<Token>, n: Node, post: seq<Token>, j: nat, m: seq<(Bracket, nat)>)
    requires WellFormedNode(n) && Positive(m) && ts == pre + (PrintNode(n) + post) && |pre| + |PrintNode(n)| <= j <= |ts|
    ensures MacrosTo(ts, |pre|, j, m) == MacrosTo(ts, |pre| + |PrintNode(n)|, j, m)
    decreases n, 0
  {
    hide MacrosTo, Positive, SquareBalanced, AttributeTokens;
    var i := |pre|;
    match n
    case Word(t) =>
      assert ts[i] == t;
      PlainTurn(ts, i, j, m);
    case Inner(words) =>
      AttributeSkipped(ts, pre, true, words, post, j, m);
    case Item(words, parts) =>
      var opening := AttributeTokens(false, words);
      assert ts == pre + (opening + (Print(parts) + post)) && ts == (pre + opening) + (Print(parts) + post);
      AttributeSkipped(ts, pre, false, words, Print(parts) + post, j, m);
      NodesKeepMacros(ts, pre + opening, parts, post, j, m);
    case Group(b, body) =>
      GroupKeepsMacros(ts, pre, n, post, j, m);
  }

  lemma {:induction false} GroupKeepsMacros(ts: seq<Token>, pre: seq<Token>, n: Node, post: seq<Token>, j: nat, m: seq<(Bracket, nat)>)
    requires n.Group? && WellFormedNode(n) && Positive(m) && ts == pre + (PrintNode(n) + post) && |pre| + |PrintNode(n)| <= j <= |ts|
    ensures MacrosTo(ts, |pre|, j, m) == MacrosTo(ts, |pre| + |PrintNode(n)|, j, m)
    decreases n, 0, 0
  {
    hide MacrosTo, Positive, MacroStep, Print, PrintNode, WellFormed;
    var b, body, i := n.bracket, n.body, |pre|;
    PrintGroup(ts, pre, b, body, post);
    var k := i + 1 + |Print(body)|;
    MacroPositive(ts, i, k, b, m);
    PlainTurn(ts, i, j, m);
    NodesKeepMacros(ts, pre + [OpenToken(b)], body, [CloseToken(b)] + post, j, MacroStep(ts, i, m));
    PlainTurn(ts, k, j, MacroStep(ts, i, m));
  }

  lemma MacroPositive(ts: seq<Token>, i: nat, j: nat, b: Bracket, m: seq<(Bracket, nat)>)
    requires i < |ts| && j < |ts| && ts[i].kind == Open(b) && ts[j].kind == Close(b) && Positive(m)
    ensures Positive(MacroStep(ts, i, m)) && MacroStep(ts, j, MacroStep(ts, i, m)) == m
  {
    hide MacroStep;
    MacroLeft(ts, i, j, b, m);
  }

  /** A turn at a token that starts no attribute. */
  lemma PlainTurn(ts: seq<Token>, i: nat, j: nat, m: seq<(Bracket, nat)>)
    requires i < j <= |ts| && ts[i].kind != Hash
    ensures MacrosTo(ts, i, j, m) == MacrosTo(ts, i + 1, j, MacroStep(ts, i, m))
    ensures !ts[i].kind.Open? && !ts[i].kind.Close? ==> MacroStep(ts, i, m) == m
  {
  }

  lemma AttributeSkipped(ts: seq<Token>, pre: seq<Token>, inner: bool, words: seq<Token>, post: seq<Token>, j: nat,
                         m: seq<(Bracket, nat)>)
    requires SquareBalanced(words, 1) && ts == pre + (AttributeTokens(inner, words) + post)
    requires |pre| + |AttributeTokens(inner, words)| <= j <= |ts|
    ensures MacrosTo(ts, |pre|, j, m) == MacrosTo(ts, |pre| + |AttributeTokens(inner, words)|, j, m)
  {
    hide AttributeTokens, SquareBalanced;
    AttributeShape(ts, pre, inner, words, post);
    MacrosIgnoreHash(ts, |pre|, m);
  }

  // ---------------------------------------------------------------------
  // The attribute-blind count
  // ---------------------------------------------------------------------

  /** What the attribute-blind count refuses at a token: `include!`, and an `unsafe` that opens no block and
      stands in a macro group, or before a `$`. */
  lemma BlindRefusal(ts: seq<Token>, i: nat)
    requires i < |ts|
    ensures RefusedAnywhere(ts, i) <==>
      || (i + 1 < |ts| && ts[i].kind == Include && ts[i + 1].kind == Bang)
      || (ts[i].kind == Unsafe && (i + 1 == |ts| || ts[i + 1].kind != Open(Curly)) && MacrosAt(ts, i + 1) != [])
      || (i + 1 < |ts| && ts[i].kind == Unsafe && ts[i + 1].kind == Dollar)
  {
    hide MacrosAt;
  }

  /** No attribute starts anywhere. */
  predicate Plain(ts: seq<Token>) { forall i | 0 <= i < |ts| :: AttributeStart(ts, i) == 0 }

  lemma {:induction false} BlindFollows(c: Config, ts: seq<Token>, i: nat, j: nat)
    requires Plain(ts) && i <= j < |ts| && !Refuses(c, ts, i, MacrosAt(ts, i))
    requires ts[|ts| - 1].kind != Unsafe
    ensures !RefusedAnywhere(ts, j)
    decreases j - i
  {
    hide MacroStep, AttributeStart;
    assert MacrosAt(ts, i + 1) == MacroStep(ts, i, MacrosAt(ts, i)) && After(ts, i) == i + 1;
    if i < j {
      BlindFollows(c, ts, i + 1, j);
    } else {
      BlindRefusal(ts, i);
    }
  }

  /** Without attributes, a source that the scanner accepts and that does not end in `unsafe` is accepted by
      the attribute-blind count too, with the same total. */
  lemma BlindAccepts(c: Config, ts: seq<Token>)
    requires Plain(ts) && CountSource(c, ts).Ok? && (ts != [] ==> ts[|ts| - 1].kind != Unsafe)
    ensures forall i | 0 <= i < |ts| :: !RefusedAnywhere(ts, i)
    ensures CountSource(c, ts).value.0 + CountSource(c, ts).value.1 == AllBlocks(ts, 0)
  {
    hide Refuses, RefusedAnywhere, Scan, AttributeStart;
    CountRefused(c, ts);
    assert MacrosAt(ts, 0) == [];
    forall i | 0 <= i < |ts| ensures !RefusedAnywhere(ts, i) { BlindFollows(c, ts, 0, i); }
    Conservation(c, ts);
    AllVisible(ts, 0);
  }

  lemma {:induction false} AllVisible(ts: seq<Token>, i: nat)
    requires Plain(ts) && i <= |ts|
    ensures VisibleBlocks(ts, i) == AllBlocks(ts, i)
    decreases |ts| - i
  {
    hide AttributeStart;
    if i < |ts| { AllVisible(ts, i + 1); }
  }
}
