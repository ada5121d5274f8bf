/** A miscounted source for each cause, under `cfg(test)` itself: two where production code is
    masked and three where test code is exposed. */
module ItemExamples {
  import CfgExpression
  import opened UnsafeScanner
  import opened ItemTrees
  import opened ItemFaults

  const CFG_TEST := [Token(Name, "cfg"), OpenToken(Paren), Token(Name, "test"), CloseToken(Paren)]

  lemma CfgTestIsTestOnly()
    ensures CfgExpression.VerdictOf(Texts(CFG_TEST)) == CfgExpression.TestOnly
  {
    hide CfgExpression.Correct;
    var s, words := CfgExpression.Leaf(["test"]), CFG_TEST;
    TestIsUnsatisfiable(s);
    assert Texts(words) == ["cfg", "(", "test", ")"] by {
      assert words[1..] == [words[1], words[2], words[3]];
      assert words[1..][1..] == [words[2], words[3]];
      assert words[1..][1..][1..] == [words[3]];
      assert Texts([words[3]]) == [")"];
      assert Texts([words[2], words[3]]) == ["test", ")"];
      assert Texts([words[1], words[2], words[3]]) == ["(", "test", ")"];
    }
    assert CfgExpression.Attribute(s) == Texts(words);
    AttributeTestOnly(Texts(words), s);
    CfgExpression.CorrectUnique(Texts(words), CfgExpression.TestOnly, CfgExpression.VerdictOf(Texts(words)));
  }

  lemma TestIsUnsatisfiable(s: CfgExpression.Syntax)
    requires s == CfgExpression.Leaf(["test"])
    ensures CfgExpression.WellFormed(s) && CfgExpression.Unsatisfiable(s) && CfgExpression.Free(s) == 0
  {
    assert ["test"][1..] == [];
    assert CfgExpression.Join([]) == "";
    assert CfgExpression.Join(["test"]) == "test" + "";
    assert "test" + "" == "test";
    assert CfgExpression.Options(s) - {"test"} == {};
  }

  lemma AttributeTestOnly(words: seq<string>, s: CfgExpression.Syntax)
    requires CfgExpression.WellFormed(s) && words == CfgExpression.Attribute(s)
    requires CfgExpression.Free(s) <= CfgExpression.MAX_ATOMS && CfgExpression.Unsatisfiable(s)
    ensures CfgExpression.Correct(words, CfgExpression.TestOnly)
  {
  }

  /** The attribute of every example: test-only, closed by its own bracket, and no `path`. */
  lemma CfgTest(c: Config)
    ensures TestWords(CFG_TEST) && SquareBalanced(CFG_TEST, 1) && AttributeOk(c, CFG_TEST)
  {
    hide Texts;
    CfgTestIsTestOnly();
    CfgTestIsBalanced();
    assert Texts(CFG_TEST)[0] == "cfg" by { FirstText(CFG_TEST); }
  }

  lemma FirstText(words: seq<Token>)
    requires words != []
    ensures Texts(words)[0] == words[0].text
  {
  }

  lemma CfgTestIsBalanced()
    ensures SquareBalanced(CFG_TEST, 1)
  {
    var words := CFG_TEST;
    assert words[1..] == [words[1], words[2], words[3]];
    assert words[1..][1..] == [words[2], words[3]];
    assert words[1..][1..][1..] == [words[3]];
    assert SquareBalanced([words[3]], 1);
    assert SquareBalanced([words[2], words[3]], 1);
  }

  // ---------------------------------------------------------------------
  // One step of both readings
  // ---------------------------------------------------------------------

  function Words(ws: seq<Token>): (nodes: seq<Node>)
    ensures |nodes| == |ws| && forall i | 0 <= i < |ws| :: nodes[i] == Word(ws[i])
  {
    if ws == [] then [] else [Word(ws[0])] + Words(ws[1..])
  }

  function Steps(ws: seq<Token>, at: Place, p: Pending): (q: Pending)
  {
    if ws == [] then p else Steps(ws[1..], at, if p.Pending? then PendingStep(p, at, ws[0].kind) else p)
  }

  predicate Simple(ws: seq<Token>)
  {
    forall i | 0 <= i < |ws| :: !ws[i].kind.Open? && !ws[i].kind.Close? && ws[i].kind !in {Hash, Unsafe, Include}
  }

  /** Nothing that the scanner refuses. */
  ghost predicate Fine(c: Config, nodes: seq<Node>) { WellFormed(nodes) && Acceptable(c, nodes) }

  lemma {:induction false} WordsThen(c: Config, ws: seq<Token>, tail: seq<Node>, at: Place, t: bool, p: Pending, covered: bool)
    requires Simple(ws)
    ensures FlowOf(Words(ws) + tail, at, t, p) == FlowOf(tail, at, t, Steps(ws, at, p))
    ensures Read(Words(ws) + tail, false, covered) == Read(tail, false, covered)
    ensures Fine(c, tail) ==> Fine(c, Words(ws) + tail)
    decreases |ws|
  {
    hide PendingStep;
    var nodes := Words(ws) + tail;
    if ws == [] {
      assert nodes == tail;
    } else {
      assert nodes[0] == Word(ws[0]) && nodes[1..] == Words(ws[1..]) + tail;
      WordsThen(c, ws[1..], tail, at, t, if p.Pending? then PendingStep(p, at, ws[0].kind) else p, covered);
      if Fine(c, tail) { FineCons(c, nodes); }
    }
  }

  lemma FineCons(c: Config, nodes: seq<Node>)
    requires nodes != [] && Fine(c, nodes[1..]) && WellFormedNode(nodes[0])
    requires match nodes[0]
      case Word(t) => t.kind != Include && (t.kind == Unsafe ==> UnsafeBlockAhead(nodes))
      case Group(_, body) => Fine(c, body)
      case Inner(words) => AttributeOk(c, words)
      case Item(words, parts) => AttributeOk(c, words) && Fine(c, parts)
    ensures Fine(c, nodes)
  {
    hide WellFormedNode, AttributeOk;
    assert forall i | 1 <= i < |nodes| :: nodes[i] == nodes[1..][i - 1];
  }

  lemma NothingThere(c: Config, at: Place, t: bool, p: Pending, covered: bool)
    ensures FlowOf([], at, t, p) == Flow(0, 0, t, p) && Read([], false, covered) == Reading(0, 0, false) && Fine(c, [])
  {
  }

  lemma GroupThen(c: Config, b: Bracket, body: seq<Node>, tail: seq<Node>, at: Place, p: Pending, covered: bool)
    requires !Read(body, false, covered).governed && Fine(c, body) && Fine(c, tail)
    ensures var taken := Takes(at, p, b);
      var f := FlowOf(body, Moved(at, Open(b)), taken, if taken then NoPending else p);
      var g := FlowOf(tail, at, if b == Curly then false else f.inTest, f.pending);
      FlowOf([Group(b, body)] + tail, at, false, p) == Flow(f.production + g.production, f.test + g.test, g.inTest, g.pending)
    ensures var r, s := Read(body, false, covered), Read(tail, false, covered);
      Read([Group(b, body)] + tail, false, covered) == Reading(r.production + s.production, r.test + s.test, s.governed)
    ensures Fine(c, [Group(b, body)] + tail)
  {
    var nodes := [Group(b, body)] + tail;
    assert nodes[0] == Group(b, body) && nodes[1..] == tail;
    assert Fine(c, nodes) by { FineCons(c, nodes); }
  }

  /** An item under `cfg(test)`. */
  lemma ItemThen(c: Config, parts: seq<Node>, tail: seq<Node>, at: Place, covered: bool)
    requires !Read(parts, false, true).governed && Fine(c, parts) && !EndsUnsafe(parts) && Fine(c, tail)
    ensures var f := FlowOf(parts, at, false, Fresh(at));
      var g := FlowOf(tail, at, f.inTest, f.pending);
      forall p :: FlowOf([Item(CFG_TEST, parts)] + tail, at, false, p)
        == Flow(f.production + g.production, f.test + g.test, g.inTest, g.pending)
    ensures var r, s := Read(parts, false, true), Read(tail, false, covered);
      Read([Item(CFG_TEST, parts)] + tail, false, covered) == Reading(r.production + s.production, r.test + s.test, s.governed)
    ensures Fine(c, [Item(CFG_TEST, parts)] + tail)
  {
    hide TestWords, SquareBalanced, AttributeOk;
    CfgTest(c);
    var nodes := [Item(CFG_TEST, parts)] + tail;
    assert nodes[0] == Item(CFG_TEST, parts) && nodes[1..] == tail;
    assert Fine(c, nodes) by { FineCons(c, nodes); }
  }

  /** `unsafe { }` */
  const BLOCK := Block([], [])

  lemma BlockFacts(c: Config, at: Place, t: bool, p: Pending, covered: bool)
    ensures FlowOf(BLOCK, at, t, p)
      == Flow(if t || p.Pending? then 0 else 1, if t || p.Pending? then 1 else 0, t, if Takes(at, p, Curly) then NoPending else p)
    ensures Read(BLOCK, false, covered) == Reading(if covered then 0 else 1, if covered then 1 else 0, false)
    ensures Fine(c, BLOCK) && !EndsUnsafe(BLOCK)
  {
    hide Fine, Takes, PendingStep;
    var braces := [Group(Curly, [])] + [];
    assert BLOCK == [UNSAFE] + braces && BLOCK[1..] == braces;
    UnsafeSteps(at, p);
    EmptyBraces(c, at, t, p, covered);
    FineCons(c, BLOCK);
  }

  lemma UnsafeSteps(at: Place, p: Pending)
    ensures p.Pending? ==> PendingStep(p, at, Unsafe) == p
  {
  }

  /** `{ }` */
  lemma EmptyBraces(c: Config, at: Place, t: bool, p: Pending, covered: bool)
    ensures FlowOf([Group(Curly, [])] + [], at, t, p) == Flow(0, 0, t, if Takes(at, p, Curly) then NoPending else p)
    ensures Read([Group(Curly, [])] + [], false, covered) == Reading(0, 0, false)
    ensures Fine(c, [Group(Curly, [])] + [])
  {
    hide Moved, Takes;
    var nodes := [Group(Curly, [])] + [];
    assert nodes[1..] == [];
    var q := if Takes(at, p, Curly) then NoPending else p;
    NothingThere(c, Moved(at, Open(Curly)), t || Takes(at, p, Curly), q, covered);
    NothingThere(c, at, t, q, covered);
    assert Fine(c, nodes) by { FineCons(c, nodes); }
  }

  lemma {:induction false} StepsConcat(a: seq<Token>, b: seq<Token>, at: Place, p: Pending)
    ensures Steps(a + b, at, p) == Steps(b, at, Steps(a, at, p))
    decreases |a|
  {
    hide PendingStep;
    if a == [] {
      assert a + b == b;
    } else {
      assert (a + b)[1..] == a[1..] + b;
      StepsConcat(a[1..], b, at, if p.Pending? then PendingStep(p, at, a[0].kind) else p);
    }
  }

  /** These words leave the flag as it is. */
  predicate Still(ws: seq<Token>, p: Pending)
  {
    p.Pending? ==>
      && p.head != NoHead
      && forall i | 0 <= i < |ws| :: ws[i].kind !in {Less, Greater, Semicolon} && (ws[i].kind == Comma ==> p.head == ItemHead)
  }

  lemma {:induction false} StillSteps(ws: seq<Token>, at: Place, p: Pending)
    requires Still(ws, p)
    ensures Steps(ws, at, p) == p
    decreases |ws|
  {
    if ws != [] { StillSteps(ws[1..], at, p); }
  }

  /** One word that counts, and words that do not. */
  lemma OneSteps(t: Token, ws: seq<Token>, at: Place, p: Pending, q: Pending)
    requires p.Pending? && q == PendingStep(p, at, t.kind) && Still(ws, q)
    ensures Steps([t] + ws, at, p) == q
  {
    hide PendingStep;
    assert ([t] + ws)[1..] == ws;
    StillSteps(ws, at, q);
  }

  /** Two words that count. */
  lemma TwoSteps(t: Token, ws: seq<Token>, u: Token, vs: seq<Token>, at: Place, p: Pending, q: Pending, r: Pending)
    requires p.Pending? && q == PendingStep(p, at, t.kind) && Still(ws, q)
    requires q.Pending? && r == PendingStep(q, at, u.kind) && Still(vs, r)
    ensures Steps(([t] + ws) + ([u] + vs), at, p) == r
  {
    hide PendingStep, Still;
    OneSteps(t, ws, at, p, q);
    OneSteps(u, vs, at, q, r);
    StepsConcat([t] + ws, [u] + vs, at, p);
  }

  lemma FineCounts(c: Config, nodes: seq<Node>)
    requires Fine(c, nodes) && !c.wholeFileIsTest
    ensures var f := FlowOf(nodes, START, false, NoPending); CountSource(c, Print(nodes)) == Ok((f.production, f.test))
  {
    hide FlowOf, Print, CountSource;
    ScanIsFlow(c, nodes);
  }

  // ---------------------------------------------------------------------
  // Masked
  // ---------------------------------------------------------------------

  const WHILE := Token(Name, "while")
  const LESS := Token(Less, "<")

  /** `#[cfg(test)] while a < b { } unsafe { }`: the comparison is taken for an opening angle bracket, so
      the braces do not end the loop. */
  function AfterLoop(a: Token, b: Token): (nodes: seq<Node>)
  {
    [Item(CFG_TEST, Words(([WHILE] + [a]) + ([LESS] + [b])) + ([Group(Curly, [])] + []))] + BLOCK
  }

  /** The scanner reports a test block where there is a production block. */
  lemma MaskedAfterLoop(c: Config, a: Token, b: Token)
    requires !c.wholeFileIsTest && a.kind == Name && b.kind == Name
    ensures CountSource(c, Print(AfterLoop(a, b))) == Ok((0, 1)) && Read(AfterLoop(a, b), false, false) == Reading(1, 0, false)
  {
    hide FlowOf, Read, Fine, Print, CountSource, Steps, Words, Moved;
    var ws, braces, p := ([WHILE] + [a]) + ([LESS] + [b]), [Group(Curly, [])] + [], Pending(START, OtherHead, 1);
    TwoSteps(WHILE, [a], LESS, [b], START, Fresh(START), Pending(START, OtherHead, 0), p);
    EmptyBraces(c, START, false, p, true);
    WordsThen(c, ws, braces, START, false, Fresh(START), true);
    BlockFacts(c, START, false, p, false);
    ItemThen(c, Words(ws) + braces, BLOCK, START, false);
    FineCounts(c, AfterLoop(a, b));
  }

  /** `{ #[cfg(test)] x } unsafe { }`: the attribute is on the last field of a block. */
  function AfterField(x: Token): (nodes: seq<Node>)
  {
    [Group(Curly, [Item(CFG_TEST, Words([x] + []) + [])] + [])] + BLOCK
  }

  /** The scanner reports a test block where there is a production block. */
  lemma MaskedAfterField(c: Config, x: Token)
    requires !c.wholeFileIsTest && x.kind == Name
    ensures CountSource(c, Print(AfterField(x))) == Ok((0, 1)) && Read(AfterField(x), false, false) == Reading(1, 0, false)
  {
    hide FlowOf, Read, Fine, Print, CountSource, Steps, Words;
    var at := Place(1, 0, 0);
    var p := Pending(at, OtherHead, 0);
    OneSteps(x, [], at, Fresh(at), p);
    NothingThere(c, at, false, p, true);
    NothingThere(c, at, false, p, false);
    WordsThen(c, [x] + [], [], at, false, Fresh(at), true);
    ItemThen(c, Words([x] + []) + [], [], at, false);
    BlockFacts(c, START, false, p, false);
    GroupThen(c, Curly, [Item(CFG_TEST, Words([x] + []) + [])] + [], BLOCK, START, NoPending, false);
    FineCounts(c, AfterField(x));
  }

  // ---------------------------------------------------------------------
  // Exposed
  // ---------------------------------------------------------------------

  const STATIC := Token(OtherItem, "static")
  const COLON := Token(Mark, ":")
  const EQUALS := Token(Mark, "=")
  const IF := Token(Name, "if")
  const ELSE := Token(Name, "else")
  const SEMICOLON := Token(Semicolon, ";")

  /** `else { unsafe { } };` */
  function ElseBlock(): (rest: seq<Node>)
  {
    Words([ELSE]) + ([Group(Curly, BLOCK)] + (Words([SEMICOLON]) + []))
  }

  /** `#[cfg(test)] static A: u8 = if C { } else { unsafe { } };`: the first braces are taken for the
      end of the item. */
  function Static(name: Token, ty: Token, test: Token): (nodes: seq<Node>)
  {
    [Item(CFG_TEST, Words([STATIC] + [name, COLON, ty, EQUALS, IF, test]) + ([Group(Curly, [])] + ElseBlock()))] + []
  }

  lemma ElseFacts(c: Config)
    ensures FlowOf(ElseBlock(), START, false, NoPending) == Flow(1, 0, false, NoPending)
    ensures Read(ElseBlock(), false, true) == Reading(0, 1, false) && Fine(c, ElseBlock())
    ensures ElseBlock() != [] && !EndsUnsafe(ElseBlock())
  {
    hide FlowOf, Read, Fine, Steps;
    var last := Words([SEMICOLON]) + [];
    NothingThere(c, START, false, NoPending, true);
    StillSteps([SEMICOLON], START, NoPending);
    WordsThen(c, [SEMICOLON], [], START, false, NoPending, true);
    BlockFacts(c, Place(1, 0, 0), false, NoPending, true);
    GroupThen(c, Curly, BLOCK, last, START, NoPending, true);
    StillSteps([ELSE], START, NoPending);
    WordsThen(c, [ELSE], [Group(Curly, BLOCK)] + last, START, false, NoPending, true);
  }

  lemma LastOf(a: seq<Node>, b: seq<Node>)
    requires b != [] && !EndsUnsafe(b)
    ensures !EndsUnsafe(a + b)
  {
  }

  /** The scanner reports a production block where there is a test block. */
  lemma ExposedElse(c: Config, name: Token, ty: Token, test: Token)
    requires !c.wholeFileIsTest && name.kind == Name && ty.kind == Name && test.kind == Name
    ensures var nodes := Static(name, ty, test);
      CountSource(c, Print(nodes)) == Ok((1, 0)) && Read(nodes, false, false) == Reading(0, 1, false)
  {
    hide FlowOf, Read, Fine, Print, CountSource, Steps, Words, ElseBlock, EndsUnsafe;
    var ws, p := [name, COLON, ty, EQUALS, IF, test], Pending(START, ItemHead, 0);
    var rest := [Group(Curly, [])] + ElseBlock();
    OneSteps(STATIC, ws, START, Fresh(START), p);
    ElseFacts(c);
    NothingThere(c, Place(1, 0, 0), true, NoPending, true);
    GroupThen(c, Curly, [], ElseBlock(), START, p, true);
    WordsThen(c, [STATIC] + ws, rest, START, false, Fresh(START), true);
    LastOf([Group(Curly, [])], ElseBlock());
    LastOf(Words([STATIC] + ws), rest);
    NothingThere(c, START, false, NoPending, false);
    ItemThen(c, Words([STATIC] + ws) + rest, [], START, false);
    FineCounts(c, Static(name, ty, test));
  }

  const FN := Token(FnImplTrait, "fn")
  const COMMA := Token(Comma, ",")

  /** `(#[cfg(test)] x: u8, y: u8)` */
  function Parameters(x: Token, y: Token, ty: Token): (group: seq<Node>)
  {
    [Item(CFG_TEST, Words(([x] + [COLON, ty]) + ([COMMA] + [])) + [])] + (Words([y, COLON, ty]) + [])
  }

  /** `#[cfg(test)] fn f(#[cfg(test)] x: u8, y: u8) { unsafe { } }`: the parameter's attribute takes the
      function's flag away. */
  function Function(name: Token, x: Token, y: Token, ty: Token): (nodes: seq<Node>)
  {
    [Item(CFG_TEST, Words([FN] + [name]) + ([Group(Paren, Parameters(x, y, ty))] + ([Group(Curly, BLOCK)] + [])))] + []
  }

  lemma ParametersFacts(c: Config, x: Token, y: Token, ty: Token, p: Pending)
    requires x.kind == Name && y.kind == Name && ty.kind == Name
    ensures var group := Parameters(x, y, ty);
      && FlowOf(group, Place(0, 1, 0), false, p) == Flow(0, 0, false, NoPending)
      && Read(group, false, true) == Reading(0, 0, false) && Fine(c, group)
  {
    hide FlowOf, Read, Fine, Steps, Words;
    var at := Place(0, 1, 0);
    var ws, vs := ([x] + [COLON, ty]) + ([COMMA] + []), [y, COLON, ty];
    TwoSteps(x, [COLON, ty], COMMA, [], at, Fresh(at), Pending(at, OtherHead, 0), NoPending);
    NothingThere(c, at, false, NoPending, true);
    WordsThen(c, ws, [], at, false, Fresh(at), true);
    StillSteps(vs, at, NoPending);
    WordsThen(c, vs, [], at, false, NoPending, true);
    NoUnsafe(ws);
    ItemThen(c, Words(ws) + [], Words(vs) + [], at, true);
  }

  lemma NoUnsafe(ws: seq<Token>)
    requires Simple(ws)
    ensures !EndsUnsafe(Words(ws) + [])
  {
    assert Words(ws) + [] == Words(ws);
  }

  /** The scanner reports a production block where there is a test block. */
  lemma ExposedBody(c: Config, name: Token, x: Token, y: Token, ty: Token)
    requires !c.wholeFileIsTest && name.kind == Name && x.kind == Name && y.kind == Name && ty.kind == Name
    ensures var nodes := Function(name, x, y, ty);
      CountSource(c, Print(nodes)) == Ok((1, 0)) && Read(nodes, false, false) == Reading(0, 1, false)
  {
    hide FlowOf, Read, Fine, Print, CountSource, Steps, Words, Parameters, EndsUnsafe;
    var group, body, p := Parameters(x, y, ty), [Group(Curly, BLOCK)] + [], Pending(START, ItemHead, 0);
    var rest := [Group(Paren, group)] + body;
    OneSteps(FN, [name], START, Fresh(START), p);
    ParametersFacts(c, x, y, ty, p);
    BracedBlock(c, START, true);
    GroupThen(c, Paren, group, body, START, p, true);
    WordsThen(c, [FN] + [name], rest, START, false, Fresh(START), true);
    LastOf([Group(Paren, group)], body);
    LastOf(Words([FN] + [name]), rest);
    NothingThere(c, START, false, NoPending, false);
    ItemThen(c, Words([FN] + [name]) + rest, [], START, false);
    FineCounts(c, Function(name, x, y, ty));
  }

  /** `{ unsafe { } }` with the flag down. */
  lemma BracedBlock(c: Config, at: Place, covered: bool)
    ensures var nodes := [Group(Curly, BLOCK)] + [];
      && FlowOf(nodes, at, false, NoPending) == Flow(1, 0, false, NoPending) && Fine(c, nodes) && !EndsUnsafe(nodes)
      && Read(nodes, false, covered) == Reading(if covered then 0 else 1, if covered then 1 else 0, false)
  {
    hide FlowOf, Read, Fine, Moved;
    NothingThere(c, at, false, NoPending, covered);
    BlockFacts(c, Moved(at, Open(Curly)), false, NoPending, covered);
    GroupThen(c, Curly, BLOCK, [], at, NoPending, covered);
  }

  const TRAIT := Token(FnImplTrait, "trait")
  const MINUS := Token(Mark, "-")
  const GREATER := Token(Greater, ">")
  const CONST := Token(OtherItem, "const")
  const THREE := Token(Mark, "3")

  /** `{ fn g() { unsafe { } } }` */
  function Body(g: Token): (nodes: seq<Node>)
  {
    [Group(Curly, Words([FN, g]) + ([Group(Paren, [])] + ([Group(Curly, BLOCK)] + [])))] + []
  }

  /** `{ 3 }>` and the body of the trait. */
  function Default(g: Token): (nodes: seq<Node>)
  {
    [Group(Curly, Words([THREE]) + [])] + (Words([GREATER]) + Body(g))
  }

  /** `-> u8, const N: usize = { 3 }>` and the body of the trait. */
  function Bounds(ty: Token, n: Token, size: Token, g: Token): (nodes: seq<Node>)
  {
    Words(([MINUS] + []) + ([GREATER] + [ty, COMMA, CONST, n, COLON, size, EQUALS])) + Default(g)
  }

  /** `#[cfg(test)] trait T<F: Fn() -> u8, const N: usize = { 3 }> { fn g() { unsafe { } } }`: the arrow
      closes the angle bracket, and the default of the constant is taken for the trait's braces. */
  function Trait(name: Token, f: Token, fn: Token, ty: Token, n: Token, size: Token, g: Token): (nodes: seq<Node>)
  {
    [Item(CFG_TEST, Words(([TRAIT] + [name]) + ([LESS] + [f, COLON, fn])) + ([Group(Paren, [])] + Bounds(ty, n, size, g)))] + []
  }

  lemma BodyFacts(c: Config, g: Token)
    requires g.kind == Name
    ensures FlowOf(Body(g), START, false, NoPending) == Flow(1, 0, false, NoPending)
    ensures Read(Body(g), false, true) == Reading(0, 1, false) && Fine(c, Body(g)) && Body(g) != [] && !EndsUnsafe(Body(g))
  {
    hide FlowOf, Read, Fine, Steps, Words;
    var at := Place(1, 0, 0);
    var block := [Group(Curly, BLOCK)] + [];
    BracedBlock(c, at, true);
    NothingThere(c, Place(1, 1, 0), false, NoPending, true);
    GroupThen(c, Paren, [], block, at, NoPending, true);
    StillSteps([FN, g], at, NoPending);
    WordsThen(c, [FN, g], [Group(Paren, [])] + block, at, false, NoPending, true);
    NothingThere(c, START, false, NoPending, true);
    GroupThen(c, Curly, Words([FN, g]) + ([Group(Paren, [])] + block), [], START, NoPending, true);
  }

  lemma DefaultFacts(c: Config, g: Token)
    requires g.kind == Name
    ensures var nodes := Default(g);
      && FlowOf(nodes, START, false, Pending(START, ItemHead, 0)) == Flow(1, 0, false, NoPending)
      && Read(nodes, false, true) == Reading(0, 1, false) && Fine(c, nodes) && nodes != [] && !EndsUnsafe(nodes)
  {
    hide FlowOf, Read, Fine, Steps, Words, Body, EndsUnsafe;
    var at, three, last := Place(1, 0, 0), Words([THREE]) + [], Words([GREATER]) + Body(g);
    BodyFacts(c, g);
    StillSteps([GREATER], START, NoPending);
    WordsThen(c, [GREATER], Body(g), START, false, NoPending, true);
    NothingThere(c, at, true, NoPending, true);
    StillSteps([THREE], at, NoPending);
    WordsThen(c, [THREE], [], at, true, NoPending, true);
    GroupThen(c, Curly, three, last, START, Pending(START, ItemHead, 0), true);
    LastOf(Words([GREATER]), Body(g));
    LastOf([Group(Curly, three)], last);
  }

  lemma BoundsFacts(c: Config, ty: Token, n: Token, size: Token, g: Token)
    requires ty.kind == Name && n.kind == Name && size.kind == Name && g.kind == Name
    ensures var nodes := Bounds(ty, n, size, g);
      && FlowOf(nodes, START, false, Pending(START, ItemHead, 1)) == Flow(1, 0, false, NoPending)
      && Read(nodes, false, true) == Reading(0, 1, false) && Fine(c, nodes) && nodes != [] && !EndsUnsafe(nodes)
  {
    hide FlowOf, Read, Fine, Steps, Words, Default, EndsUnsafe;
    var p, q := Pending(START, ItemHead, 1), Pending(START, ItemHead, 0);
    var ws := [ty, COMMA, CONST, n, COLON, size, EQUALS];
    DefaultFacts(c, g);
    TwoSteps(MINUS, [], GREATER, ws, START, p, p, q);
    WordsThen(c, ([MINUS] + []) + ([GREATER] + ws), Default(g), START, false, p, true);
    LastOf(Words(([MINUS] + []) + ([GREATER] + ws)), Default(g));
  }

  /** The scanner reports a production block where there is a test block. */
  lemma ExposedTrait(c: Config, name: Token, f: Token, fn: Token, ty: Token, n: Token, size: Token, g: Token)
    requires !c.wholeFileIsTest && forall x | x in {name, f, fn, ty, n, size, g} :: x.kind == Name
    ensures var nodes := Trait(name, f, fn, ty, n, size, g);
      CountSource(c, Print(nodes)) == Ok((1, 0)) && Read(nodes, false, false) == Reading(0, 1, false)
  {
    hide FlowOf, Read, Fine, Print, CountSource, Steps, Words, Bounds, EndsUnsafe;
    var ws, p := ([TRAIT] + [name]) + ([LESS] + [f, COLON, fn]), Pending(START, ItemHead, 1);
    var rest := [Group(Paren, [])] + Bounds(ty, n, size, g);
    TwoSteps(TRAIT, [name], LESS, [f, COLON, fn], START, Fresh(START), Pending(START, ItemHead, 0), p);
    BoundsFacts(c, ty, n, size, g);
    NothingThere(c, Place(0, 1, 0), false, p, true);
    GroupThen(c, Paren, [], Bounds(ty, n, size, g), START, p, true);
    WordsThen(c, ws, rest, START, false, Fresh(START), true);
    LastOf([Group(Paren, [])], Bounds(ty, n, size, g));
    LastOf(Words(ws), rest);
    NothingThere(c, START, false, NoPending, false);
    ItemThen(c, Words(ws) + rest, [], START, false);
    FineCounts(c, Trait(name, f, fn, ty, n, size, g));
  }

  // ---------------------------------------------------------------------
  // Counted right
  // ---------------------------------------------------------------------

  const USE := Token(OtherItem, "use")

  /** `#[cfg(test)] use a; unsafe { }`: the semicolon ends the item. */
  function AfterUse(a: Token): (nodes: seq<Node>)
  {
    [Item(CFG_TEST, Words(([USE] + [a]) + ([SEMICOLON] + [])) + [])] + BLOCK
  }

  lemma RightAfterUse(c: Config, a: Token)
    requires !c.wholeFileIsTest && a.kind == Name
    ensures CountSource(c, Print(AfterUse(a))) == Ok((1, 0)) && Read(AfterUse(a), false, false) == Reading(1, 0, false)
  {
    hide FlowOf, Read, Fine, Print, CountSource, Steps, Words, Moved, EndsUnsafe;
    var ws := ([USE] + [a]) + ([SEMICOLON] + []);
    TwoSteps(USE, [a], SEMICOLON, [], START, Fresh(START), Pending(START, ItemHead, 0), NoPending);
    NothingThere(c, START, false, NoPending, true);
    WordsThen(c, ws, [], START, false, Fresh(START), true);
    NoUnsafe(ws);
    BlockFacts(c, START, false, NoPending, false);
    ItemThen(c, Words(ws) + [], BLOCK, START, false);
    FineCounts(c, AfterUse(a));
  }

  /** `#[cfg(test)] fn f() { unsafe { } } unsafe { }`: one block in the item and one behind it. */
  function InAndAfter(f: Token): (nodes: seq<Node>)
  {
    [Item(CFG_TEST, Words([FN] + [f]) + ([Group(Paren, [])] + ([Group(Curly, BLOCK)] + [])))] + BLOCK
  }

  lemma RightInAndAfter(c: Config, f: Token)
    requires !c.wholeFileIsTest && f.kind == Name
    ensures CountSource(c, Print(InAndAfter(f))) == Ok((1, 1)) && Read(InAndAfter(f), false, false) == Reading(1, 1, false)
  {
    hide FlowOf, Read, Fine, Print, CountSource, Steps, Words, EndsUnsafe;
    var body, p := [Group(Curly, BLOCK)] + [], Pending(START, ItemHead, 0);
    var rest := [Group(Paren, [])] + body;
    OneSteps(FN, [f], START, Fresh(START), p);
    BracedTest(c, p);
    NothingThere(c, Place(0, 1, 0), false, p, true);
    GroupThen(c, Paren, [], body, START, p, true);
    WordsThen(c, [FN] + [f], rest, START, false, Fresh(START), true);
    LastOf([Group(Paren, [])], body);
    LastOf(Words([FN] + [f]), rest);
    BlockFacts(c, START, false, NoPending, false);
    ItemThen(c, Words([FN] + [f]) + rest, BLOCK, START, false);
    FineCounts(c, InAndAfter(f));
  }

  /** `{ unsafe { } }` as the braces of a waiting test item. */
  lemma BracedTest(c: Config, p: Pending)
    requires p.Pending? && p.origin == START && p.angle == 0
    ensures var nodes := [Group(Curly, BLOCK)] + [];
      && FlowOf(nodes, START, false, p) == Flow(0, 1, false, NoPending) && Fine(c, nodes) && !EndsUnsafe(nodes)
      && Read(nodes, false, true) == Reading(0, 1, false)
  {
    hide FlowOf, Read, Fine;
    NothingThere(c, START, false, NoPending, true);
    BlockFacts(c, Place(1, 0, 0), true, NoPending, true);
    GroupThen(c, Curly, BLOCK, [], START, p, true);
  }

  /** `[#[cfg(test)] a, unsafe { }]`: the comma ends an element, also one that starts with a keyword of items. */
  function AfterElement(a: Token): (nodes: seq<Node>)
  {
    [Group(Square, [Item(CFG_TEST, Words(([a] + []) + ([COMMA] + [])) + [])] + BLOCK)] + []
  }

  lemma RightAfterElement(c: Config, a: Token)
    requires !c.wholeFileIsTest && (a.kind == Name || ItemKeyword(a.kind))
    ensures CountSource(c, Print(AfterElement(a))) == Ok((1, 0)) && Read(AfterElement(a), false, false) == Reading(1, 0, false)
  {
    hide FlowOf, Read, Fine, Print, CountSource, Steps, Words, EndsUnsafe;
    var at := Place(0, 0, 1);
    var ws := ([a] + []) + ([COMMA] + []);
    TwoSteps(a, [], COMMA, [], at, Fresh(at), Pending(at, OtherHead, 0), NoPending);
    NothingThere(c, at, false, NoPending, true);
    WordsThen(c, ws, [], at, false, Fresh(at), true);
    NoUnsafe(ws);
    BlockFacts(c, at, false, NoPending, false);
    ItemThen(c, Words(ws) + [], BLOCK, at, false);
    NothingThere(c, START, false, NoPending, false);
    GroupThen(c, Square, [Item(CFG_TEST, Words(ws) + [])] + BLOCK, [], START, NoPending, false);
    FineCounts(c, AfterElement(a));
  }
}
