/** What the scanner's classification means. A source is a tree in which every outer attribute
    governs an item, and how far the item reaches is part of the tree: its parts run to its
    end, with the semicolon or comma that closes it. `Read` counts as test code what lies in
    an item under a test-only attribute, and knows nothing of how the scanner looks for the
    end of an item. `FlowOf` is a reading with one flag for the whole file, which is what the
    flat scan computes on every tree. `ItemLaws` says where the two agree. */
module ItemTrees {
  import CfgExpression
  import opened UnsafeScanner

  datatype Node =
    | Word(token: Token)
    | Group(bracket: Bracket, body: seq<Node>)
    | Inner(words: seq<Token>)
    | Item(words: seq<Token>, parts: seq<Node>)

  function OpenToken(b: Bracket): (t: Token)
  {
    Token(Open(b), match b case Paren => "(" case Square => "[" case Curly => "{")
  }

  function CloseToken(b: Bracket): (t: Token)
  {
    Token(Close(b), match b case Paren => ")" case Square => "]" case Curly => "}")
  }

  function Opening(inner: bool): (ts: seq<Token>)
  {
    if inner then [Token(Hash, "#"), Token(Bang, "!"), OpenToken(Square)] else [Token(Hash, "#"), OpenToken(Square)]
  }

  function AttributeTokens(inner: bool, words: seq<Token>): (ts: seq<Token>)
    ensures |ts| > 0 && ts[0].kind == Hash
  {
    Opening(inner) + (words + [CloseToken(Square)])
  }

  function PrintNode(n: Node): (ts: seq<Token>)
    ensures |ts| > 0
  {
    match n
    case Word(t) => [t]
    case Group(b, body) => [OpenToken(b)] + (Print(body) + [CloseToken(b)])
    case Inner(words) => AttributeTokens(true, words)
    case Item(words, parts) => AttributeTokens(false, words) + Print(parts)
  }

  function Print(nodes: seq<Node>): (ts: seq<Token>)
  {
    if nodes == [] then [] else PrintNode(nodes[0]) + Print(nodes[1..])
  }

  /** Square brackets inside an attribute match, starting `nested` deep. */
  predicate SquareBalanced(words: seq<Token>, nested: nat)
  {
    if words == [] then nested == 1
    else if words[0].kind == Open(Square) then SquareBalanced(words[1..], nested + 1)
    else if words[0].kind == Close(Square) then nested > 1 && SquareBalanced(words[1..], nested - 1)
    else SquareBalanced(words[1..], nested)
  }

  predicate EndsUnsafe(nodes: seq<Node>)
  {
    nodes != [] && nodes[|nodes| - 1].Word? && nodes[|nodes| - 1].token.kind == Unsafe
  }

  predicate WellFormed(nodes: seq<Node>)
  {
    forall i | 0 <= i < |nodes| :: WellFormedNode(nodes[i])
  }

  /** Brackets match, and no item ends between `unsafe` and its block. */
  predicate WellFormedNode(n: Node)
  {
    match n
    case Word(t) => !t.kind.Open? && !t.kind.Close? && t.kind != Hash
    case Group(_, body) => WellFormed(body)
    case Inner(words) => SquareBalanced(words, 1)
    case Item(words, parts) => SquareBalanced(words, 1) && WellFormed(parts) && !EndsUnsafe(parts)
  }

  // ---------------------------------------------------------------------
  // The reading
  // ---------------------------------------------------------------------

  ghost predicate TestWords(words: seq<Token>)
  {
    CfgExpression.VerdictOf(Texts(words)) == CfgExpression.TestOnly
  }

  predicate UnsafeBlockAhead(nodes: seq<Node>)
  {
    |nodes| >= 2 && nodes[0].Word? && nodes[0].token.kind == Unsafe && nodes[1].Group? && nodes[1].bracket == Curly
  }

  /** All unsafe blocks of a forest. */
  function Blocks(nodes: seq<Node>): (n: nat)
  {
    if nodes == [] then 0
    else
      var inside :=
        match nodes[0]
        case Word(_) => if UnsafeBlockAhead(nodes) then 1 else 0
        case Group(_, body) => Blocks(body)
        case Inner(_) => 0
        case Item(_, parts) => Blocks(parts);
      inside + Blocks(nodes[1..])
  }

  /** Counts, and whether an inner attribute has made the enclosing braces test code. */
  datatype Reading = Reading(production: nat, test: nat, governed: bool)

  /** What the first node of a list adds. `covered` says that something around it is test code: an
      item, other braces, the file. */
  ghost function ReadNode(nodes: seq<Node>, governed: bool, covered: bool): (r: Reading)
    requires nodes != []
    decreases nodes, 0
  {
    match nodes[0]
    case Word(_) =>
      var found := if UnsafeBlockAhead(nodes) then 1 else 0;
      if governed || covered then Reading(0, found, governed) else Reading(found, 0, governed)
    case Inner(words) => Reading(0, 0, governed || TestWords(words))
    case Group(b, body) =>
      var inside := Read(body, b != Curly && governed, covered || (b == Curly && governed));
      inside.(governed := if b == Curly then governed else inside.governed)
    case Item(words, parts) => Read(parts, governed, covered || TestWords(words))
  }

  ghost function Read(nodes: seq<Node>, governed: bool, covered: bool): (r: Reading)
    decreases nodes, 1
  {
    if nodes == [] then Reading(0, 0, governed)
    else
      var first := ReadNode(nodes, governed, covered);
      var rest := Read(nodes[1..], first.governed, covered);
      Reading(first.production + rest.production, first.test + rest.test, rest.governed)
  }

  // ---------------------------------------------------------------------
  // One flag for the whole file
  // ---------------------------------------------------------------------

  datatype Flow = Flow(production: nat, test: nat, inTest: bool, pending: Pending)

  predicate Takes(at: Place, p: Pending, b: Bracket) { b == Curly && p.Pending? && p.origin == at && p.angle == 0 }

  /** The flag of a test item that starts here. */
  function Fresh(at: Place): (p: Pending) { Pending(at, NoHead, 0) }

  /** The flag behind an outer attribute. */
  ghost function Armed(words: seq<Token>, at: Place, p: Pending): (q: Pending) { if TestWords(words) then Fresh(at) else p }

  ghost function AttributeFlow(inner: bool, words: seq<Token>, at: Place, inTest: bool, p: Pending): (f: Flow)
  {
    if inner then Flow(0, 0, inTest || TestWords(words), p) else Flow(0, 0, inTest, Armed(words, at, p))
  }

  /** The reading with a single flag, which an attribute overwrites and neither a closing bracket nor
      the end of an item touches. */
  ghost function FlowNode(nodes: seq<Node>, at: Place, inTest: bool, p: Pending): (f: Flow)
    requires nodes != []
    decreases nodes, 0
  {
    match nodes[0]
    case Word(t) =>
      var found := if UnsafeBlockAhead(nodes) then 1 else 0;
      var covered := inTest || p.Pending?;
      Flow(if covered then 0 else found, if covered then found else 0, inTest, if p.Pending? then PendingStep(p, at, t.kind) else p)
    case Inner(words) => AttributeFlow(true, words, at, inTest, p)
    case Item(words, parts) => FlowOf(parts, at, inTest, Armed(words, at, p))
    case Group(b, body) =>
      var taken := Takes(at, p, b);
      var inside := FlowOf(body, Moved(at, Open(b)), inTest || taken, if taken then NoPending else p);
      Flow(inside.production, inside.test, if b == Curly then inTest else inside.inTest, inside.pending)
  }

  ghost function FlowOf(nodes: seq<Node>, at: Place, inTest: bool, p: Pending): (f: Flow)
    decreases nodes, 1
  {
    if nodes == [] then Flow(0, 0, inTest, p)
    else
      var first := FlowNode(nodes, at, inTest, p);
      var rest := FlowOf(nodes[1..], at, first.inTest, first.pending);
      Flow(first.production + rest.production, first.test + rest.test, rest.inTest, rest.pending)
  }

  // ---------------------------------------------------------------------
  // The scan computes the flow
  // ---------------------------------------------------------------------

  lemma {:induction false} AttributeCloseOfBalanced(ts: seq<Token>, pre: seq<Token>, words: seq<Token>, post: seq<Token>, nested: nat)
    requires nested > 0 && SquareBalanced(words, nested)
    requires ts == pre + (words + ([CloseToken(Square)] + post))
    ensures AttributeClose(ts, |pre|, nested) == Closed(|pre| + |words| + 1)
    decreases |words|
  {
    if words == [] {
      assert ts[|pre|] == CloseToken(Square);
    } else {
      assert ts[|pre|] == words[0];
      var inner := if words[0].kind == Open(Square) then nested + 1
                   else if words[0].kind == Close(Square) then nested - 1 else nested;
      assert ts == (pre + [words[0]]) + (words[1..] + ([CloseToken(Square)] + post)) by {
        assert words == [words[0]] + words[1..];
      }
      AttributeCloseOfBalanced(ts, pre + [words[0]], words[1..], post, inner);
    }
  }

  /** The state after scanning from `i` to `j`, when the scan gets there. */
  ghost predicate Reaches(c: Config, ts: seq<Token>, i: nat, st: State, j: nat, end: State)
    requires i <= |ts| && j <= |ts|
  {
    Scan(c, ts, i, st) == Scan(c, ts, j, end)
  }

  /** The scanner's state agrees with the flow's. */
  predicate Agrees(c: Config, st: State, at: Place, inTest: bool, p: Pending)
  {
    Stacked(st) && st.at == at && st.pending == p && (inTest <==> c.wholeFileIsTest || st.scopes != [])
  }

  /** What follows a list makes no unsafe block with its last word. */
  predicate Bounded(nodes: seq<Node>, post: seq<Token>)
  {
    EndsUnsafe(nodes) && post != [] ==> post[0].kind != Open(Curly)
  }

  /** From `st` to `end` the counts grew by `f`, and the place and the stack are as they were, up to
      one entry for an inner attribute of these very braces. */
  predicate Grew(st: State, end: State, f: Flow)
  {
    && end.production == st.production + f.production
    && end.test == st.test + f.test
    && end.at == st.at
    && (end.scopes == st.scopes || end.scopes == st.scopes + [st.at.depth])
  }

  /** Nothing in the tree is refused: no source expansion, no `unsafe` but on blocks, no attribute
      beyond the scanner's means. */
  ghost predicate Acceptable(c: Config, nodes: seq<Node>)
  {
    nodes == [] ||
    ( && Acceptable(c, nodes[1..])
      && match nodes[0]
         case Word(t) => t.kind != Include && (t.kind == Unsafe ==> UnsafeBlockAhead(nodes))
         case Group(_, body) => Acceptable(c, body)
         case Inner(words) => AttributeOk(c, words)
         case Item(words, parts) => AttributeOk(c, words) && Acceptable(c, parts) )
  }

  ghost predicate AttributeOk(c: Config, words: seq<Token>)
  {
    PathOk(c, Texts(words)) && CfgExpression.VerdictOf(Texts(words)) != CfgExpression.TooManyAtoms
  }

  /** The scan is not refused, or cannot be. */
  ghost predicate Proceeds(c: Config, ts: seq<Token>, i: nat, st: State, nodes: seq<Node>)
    requires i <= |ts|
  {
    Scan(c, ts, i, st).Ok? || Acceptable(c, nodes)
  }

  lemma WordStep(c: Config, ts: seq<Token>, i: nat, st: State, nodes: seq<Node>, at: Place, inTest: bool, p: Pending)
    returns (mid: State)
    requires i < |ts| && WellFormed(nodes) && nodes != [] && nodes[0].Word? && ts[i] == nodes[0].token
    requires OpensUnsafeBlock(ts, i) <==> UnsafeBlockAhead(nodes)
    requires Agrees(c, st, at, inTest, p) && Proceeds(c, ts, i, st, nodes)
    ensures Reaches(c, ts, i, st, i + 1, mid)
    ensures var f := FlowNode(nodes, at, inTest, p); Grew(st, mid, f) && Agrees(c, mid, at, f.inTest, f.pending)
  {
    hide MacroStep, AttributeClose, FlowOf, SquareBalanced, WellFormed;
    assert WellFormedNode(nodes[0]) by { WellFormedAt(nodes, 0); }
    assert AttributeStart(ts, i) == 0;
    mid := TokenStep(c, ts, i, st.(macros := MacroStep(ts, i, st.macros)));
    assert Step(c, ts, i, st) == Ok(mid);
  }

  lemma WellFormedAt(nodes: seq<Node>, i: nat)
    requires WellFormed(nodes) && i < |nodes|
    ensures WellFormedNode(nodes[i])
  {
  }

  /** A whole attribute, before whatever follows it. */
  lemma ScanAttribute(c: Config, ts: seq<Token>, pre: seq<Token>, inner: bool, words: seq<Token>, post: seq<Token>, st: State,
                      at: Place, inTest: bool, p: Pending) returns (mid: State)
    requires SquareBalanced(words, 1) && ts == pre + (AttributeTokens(inner, words) + post)
    requires Agrees(c, st, at, inTest, p) && (Scan(c, ts, |pre|, st).Ok? || AttributeOk(c, words))
    ensures Reaches(c, ts, |pre|, st, |pre| + |AttributeTokens(inner, words)|, mid)
    ensures var f := AttributeFlow(inner, words, at, inTest, p); Grew(st, mid, f) && Agrees(c, mid, at, f.inTest, f.pending)
  {
    hide Agrees, Grew, AttributeFlow, AttributeTokens, AttributeStep, After, SquareBalanced, Step, AttributeOk;
    AttributeTurn(c, ts, pre, inner, words, post, st);
    if !Scan(c, ts, |pre|, st).Ok? { AttributeAccepted(c, inner, words, st); }
    mid := AttributeOutcome(c, inner, words, st, at, inTest, p);
  }

  lemma AttributeAccepted(c: Config, inner: bool, words: seq<Token>, st: State)
    requires AttributeOk(c, words)
    ensures AttributeStep(c, inner, Texts(words), st).Ok?
  {
    hide Texts;
  }

  lemma AttributeTurn(c: Config, ts: seq<Token>, pre: seq<Token>, inner: bool, words: seq<Token>, post: seq<Token>, st: State)
    requires SquareBalanced(words, 1) && ts == pre + (AttributeTokens(inner, words) + post)
    ensures |pre| < |ts| && After(ts, |pre|) == |pre| + |AttributeTokens(inner, words)|
    ensures Step(c, ts, |pre|, st) == AttributeStep(c, inner, Texts(words), st)
  {
    hide AttributeClose, AttributeStart, SquareBalanced, AttributeTokens, Texts, AttributeStep, TokenStep;
    AttributeShape(ts, pre, inner, words, post);
    MacrosIgnoreHash(ts, |pre|, st.macros);
  }

  lemma AttributeOutcome(c: Config, inner: bool, words: seq<Token>, st: State, at: Place, inTest: bool, p: Pending)
    returns (mid: State)
    requires Agrees(c, st, at, inTest, p) && AttributeStep(c, inner, Texts(words), st).Ok?
    ensures AttributeStep(c, inner, Texts(words), st) == Ok(mid)
    ensures var f := AttributeFlow(inner, words, at, inTest, p); Grew(st, mid, f) && Agrees(c, mid, at, f.inTest, f.pending)
  {
    hide Texts;
    mid := AttributeStep(c, inner, Texts(words), st).value;
  }

  lemma MacrosIgnoreHash(ts: seq<Token>, i: nat, macros: seq<(Bracket, nat)>)
    requires i < |ts| && ts[i].kind == Hash
    ensures MacroStep(ts, i, macros) == macros && !Refused(ts, i, macros)
  {
  }

  /** How the scanner cuts a printed attribute. */
  lemma AttributeShape(ts: seq<Token>, pre: seq<Token>, inner: bool, words: seq<Token>, post: seq<Token>)
    requires SquareBalanced(words, 1) && ts == pre + (AttributeTokens(inner, words) + post)
    ensures |pre| < |ts| && ts[|pre|].kind == Hash
    ensures AttributeStart(ts, |pre|) == |pre| + (if inner then 3 else 2)
    ensures AttributeClose(ts, AttributeStart(ts, |pre|), 1) == Closed(|pre| + |AttributeTokens(inner, words)|)
    ensures |pre| + 1 < |ts| && (ts[|pre| + 1].kind == Bang <==> inner)
    ensures ts[AttributeStart(ts, |pre|)..|pre| + |AttributeTokens(inner, words)| - 1] == words
    ensures After(ts, |pre|) == |pre| + |AttributeTokens(inner, words)|
  {
    hide SquareBalanced, AttributeClose, Opening, AttributeStart;
    var opening := Opening(inner);
    var rest := words + ([CloseToken(Square)] + post);
    assert ts == pre + (opening + rest);
    OpeningStart(ts, pre, inner, rest);
    assert ts == (pre + opening) + rest;
    AttributeCloseOfBalanced(ts, pre + opening, words, post, 1);
    Middle(ts, pre + opening, words, [CloseToken(Square)] + post);
  }

  lemma OpeningStart(ts: seq<Token>, pre: seq<Token>, inner: bool, rest: seq<Token>)
    requires ts == pre + (Opening(inner) + rest)
    ensures |Opening(inner)| == (if inner then 3 else 2) && |pre| + |Opening(inner)| <= |ts|
    ensures ts[|pre|].kind == Hash && (ts[|pre| + 1].kind == Bang <==> inner)
    ensures AttributeStart(ts, |pre|) == |pre| + |Opening(inner)|
  {
    assert forall k | 0 <= k < |Opening(inner)| :: ts[|pre| + k] == Opening(inner)[k];
    assert ts[|pre|] == Opening(inner)[0] && ts[|pre| + 1] == Opening(inner)[1];
    if inner {
      assert ts[|pre| + 2] == Opening(inner)[2];
    }
  }

  lemma Middle(ts: seq<Token>, a: seq<Token>, b: seq<Token>, c: seq<Token>)
    requires ts == a + (b + c)
    ensures ts[|a|..|a| + |b|] == b
  {
  }

  /** The stack a group is entered with. */
  function Entered(b: Bracket, st: State): (scopes: seq<nat>)
  {
    if Takes(st.at, st.pending, b) then st.scopes + [st.at.depth + 1] else st.scopes
  }

  lemma OpenTurn(c: Config, ts: seq<Token>, i: nat, b: Bracket, st: State) returns (mid: State)
    requires i < |ts| && ts[i].kind == Open(b)
    ensures Reaches(c, ts, i, st, i + 1, mid)
    ensures mid.production == st.production && mid.test == st.test && mid.at == Moved(st.at, Open(b))
    ensures mid.pending == (if Takes(st.at, st.pending, b) then NoPending else st.pending) && mid.scopes == Entered(b, st)
  {
    hide MacroStep, AttributeClose, Moved, Scan;
    mid := TokenStep(c, ts, i, st.(macros := MacroStep(ts, i, st.macros)));
    assert st.pending.Pending? ==> PendingStep(st.pending, st.at, Open(b)) == st.pending;
    ScanTurn(c, ts, i, st, mid);
  }

  lemma EnteredAgrees(c: Config, b: Bracket, st: State, mid: State, at: Place, inTest: bool, p: Pending)
    requires Agrees(c, st, at, inTest, p) && mid.at == Moved(st.at, Open(b)) && mid.scopes == Entered(b, st)
    requires mid.pending == if Takes(at, p, b) then NoPending else p
    ensures Agrees(c, mid, Moved(at, Open(b)), inTest || Takes(at, p, b), mid.pending)
  {
  }

  lemma CloseTurn(c: Config, ts: seq<Token>, i: nat, b: Bracket, body: State) returns (end: State)
    requires i < |ts| && ts[i].kind == Close(b)
    ensures Reaches(c, ts, i, body, i + 1, end)
    ensures end.production == body.production && end.test == body.test
    ensures end.at == Moved(body.at, Close(b)) && end.pending == body.pending
    ensures end.scopes == if b == Curly then Popped(body) else body.scopes
  {
    hide MacroStep, AttributeClose, Moved, Scan;
    end := TokenStep(c, ts, i, body.(macros := MacroStep(ts, i, body.macros)));
    assert body.pending.Pending? ==> PendingStep(body.pending, body.at, Close(b)) == body.pending;
    ScanTurn(c, ts, i, body, end);
  }

  lemma NotTwice(scopes: seq<nat>, x: nat)
    ensures !Increasing(scopes + [x] + [x])
  {
    var t := scopes + [x] + [x];
    assert t[|scopes|] == t[|scopes| + 1];
  }

  /** The stack after a closing brace. */
  function Popped(body: State): (scopes: seq<nat>)
  {
    if body.scopes != [] && body.scopes[|body.scopes| - 1] == body.at.depth
    then body.scopes[..|body.scopes| - 1] else body.scopes
  }

  /** Braces give the stack back; other brackets keep an inner attribute's entry. */
  lemma ScopesRestored(b: Bracket, st: State, body: State)
    requires Stacked(st) && Stacked(body) && body.at == Moved(st.at, Open(b))
    requires body.scopes == Entered(b, st) || body.scopes == Entered(b, st) + [body.at.depth]
    ensures b == Curly ==> st.scopes == Popped(body)
    ensures b != Curly ==> body.at.depth == st.at.depth && Entered(b, st) == st.scopes
  {
    var s := Entered(b, st);
    if Takes(st.at, st.pending, b) {
      NotTwice(st.scopes, body.at.depth);
      assert s[..|st.scopes|] == st.scopes;
    } else if body.scopes == s + [body.at.depth] {
      assert body.scopes[..|st.scopes|] == st.scopes;
    }
  }

  lemma MovedBack(at: Place, b: Bracket)
    ensures Moved(Moved(at, Open(b)), Close(b)) == at
  {
  }

  /** The token after an `unsafe` decides what the tree says it does. */
  lemma BlockSeen(ts: seq<Token>, pre: seq<Token>, nodes: seq<Node>, post: seq<Token>)
    requires WellFormed(nodes) && nodes != [] && nodes[0].Word? && Bounded(nodes, post)
    requires ts == pre + (Print(nodes) + post)
    ensures |pre| < |ts| && ts[|pre|] == nodes[0].token
    ensures OpensUnsafeBlock(ts, |pre|) <==> UnsafeBlockAhead(nodes)
  {
    hide SquareBalanced;
    assert Print(nodes) == [nodes[0].token] + Print(nodes[1..]);
    assert ts[|pre|] == nodes[0].token;
    if |nodes| > 1 {
      assert nodes[1..][0] == nodes[1];
      assert Print(nodes[1..]) == PrintNode(nodes[1]) + Print(nodes[1..][1..]);
      assert ts[|pre| + 1] == PrintNode(nodes[1])[0];
      WellFormedAt(nodes, 1);
    } else {
      assert Print(nodes[1..]) == [] && nodes[|nodes| - 1] == nodes[0];
      assert post != [] ==> ts[|pre| + 1] == post[0];
    }
  }

  lemma PrintCons(ts: seq<Token>, pre: seq<Token>, nodes: seq<Node>, post: seq<Token>)
    requires nodes != [] && ts == pre + (Print(nodes) + post)
    ensures ts == pre + (PrintNode(nodes[0]) + (Print(nodes[1..]) + post))
    ensures ts == (pre + PrintNode(nodes[0])) + (Print(nodes[1..]) + post)
    ensures |Print(nodes)| == |PrintNode(nodes[0])| + |Print(nodes[1..])|
  {
    hide PrintNode;
    assert Print(nodes) + post == PrintNode(nodes[0]) + (Print(nodes[1..]) + post);
  }

  lemma PrintGroup(ts: seq<Token>, pre: seq<Token>, b: Bracket, body: seq<Node>, post: seq<Token>)
    requires ts == pre + (PrintNode(Group(b, body)) + post)
    ensures ts == (pre + [OpenToken(b)]) + (Print(body) + ([CloseToken(b)] + post))
    ensures |PrintNode(Group(b, body))| == |Print(body)| + 2
    ensures |pre| + 1 + |Print(body)| < |ts|
    ensures ts[|pre|] == OpenToken(b) && ts[|pre| + 1 + |Print(body)|] == CloseToken(b)
  {
    hide Print;
    assert PrintNode(Group(b, body)) == [OpenToken(b)] + (Print(body) + [CloseToken(b)]);
  }

  lemma PrintWord(n: Node)
    ensures n.Word? ==> |PrintNode(n)| == 1
  {
  }

  lemma AcceptableParts(c: Config, nodes: seq<Node>)
    requires Acceptable(c, nodes) && nodes != []
    ensures Acceptable(c, nodes[1..]) && (nodes[0].Group? ==> Acceptable(c, nodes[0].body))
    ensures (nodes[0].Inner? ==> AttributeOk(c, nodes[0].words))
    ensures (nodes[0].Item? ==> AttributeOk(c, nodes[0].words) && Acceptable(c, nodes[0].parts))
  {
  }

  /** One node of the forest, whatever it is. */
  lemma {:induction false} ScanNode(c: Config, ts: seq<Token>, pre: seq<Token>, nodes: seq<Node>, post: seq<Token>, st: State,
                 at: Place, inTest: bool, p: Pending) returns (mid: State)
    requires WellFormed(nodes) && nodes != [] && Bounded(nodes, post) && ts == pre + (Print(nodes) + post)
    requires Agrees(c, st, at, inTest, p) && Proceeds(c, ts, |pre|, st, nodes)
    ensures var j := |pre| + |PrintNode(nodes[0])|; j <= |ts| && Reaches(c, ts, |pre|, st, j, mid)
    ensures var f := FlowNode(nodes, at, inTest, p); Grew(st, mid, f) && Agrees(c, mid, at, f.inTest, f.pending)
    decreases nodes, 0
  {
    hide Scan, Agrees, Grew, FlowNode, Acceptable, WellFormedNode, Reaches, PrintNode, Print;
    PrintWord(nodes[0]);
    PrintCons(ts, pre, nodes, post);
    match nodes[0]
    case Word(_) =>
      BlockSeen(ts, pre, nodes, post);
      mid := WordStep(c, ts, |pre|, st, nodes, at, inTest, p);
    case Inner(words) =>
      mid := ScanInner(c, ts, pre, nodes, Print(nodes[1..]) + post, st, at, inTest, p);
    case Item(words, parts) =>
      mid := ScanItem(c, ts, pre, nodes, Print(nodes[1..]) + post, st, at, inTest, p);
    case Group(b, body) =>
      mid := ScanGroup(c, ts, pre, nodes, Print(nodes[1..]) + post, st, at, inTest, p);
  }

  lemma ScanInner(c: Config, ts: seq<Token>, pre: seq<Token>, nodes: seq<Node>, post: seq<Token>, st: State,
                  at: Place, inTest: bool, p: Pending) returns (mid: State)
    requires WellFormed(nodes) && nodes != [] && nodes[0].Inner? && ts == pre + (PrintNode(nodes[0]) + post)
    requires Agrees(c, st, at, inTest, p) && Proceeds(c, ts, |pre|, st, nodes)
    ensures var j := |pre| + |PrintNode(nodes[0])|; j <= |ts| && Reaches(c, ts, |pre|, st, j, mid)
    ensures var f := FlowNode(nodes, at, inTest, p); Grew(st, mid, f) && Agrees(c, mid, at, f.inTest, f.pending)
  {
    hide Scan, Agrees, Grew, Acceptable, SquareBalanced, AttributeTokens, AttributeFlow, AttributeOk, FlowOf;
    WellFormedAt(nodes, 0);
    if Acceptable(c, nodes) { AcceptableParts(c, nodes); }
    mid := ScanAttribute(c, ts, pre, true, nodes[0].words, post, st, at, inTest, p);
  }

  lemma {:induction false} ScanItem(c: Config, ts: seq<Token>, pre: seq<Token>, nodes: seq<Node>, post: seq<Token>, st: State,
                  at: Place, inTest: bool, p: Pending) returns (mid: State)
    requires WellFormed(nodes) && nodes != [] && nodes[0].Item? && ts == pre + (PrintNode(nodes[0]) + post)
    requires Agrees(c, st, at, inTest, p) && Proceeds(c, ts, |pre|, st, nodes)
    ensures var j := |pre| + |PrintNode(nodes[0])|; j <= |ts| && Reaches(c, ts, |pre|, st, j, mid)
    ensures var f := FlowNode(nodes, at, inTest, p); Grew(st, mid, f) && Agrees(c, mid, at, f.inTest, f.pending)
    decreases nodes[0], 2
  {
    hide Scan, FlowOf, SquareBalanced, Print, WellFormed, Acceptable, Agrees, Grew, AttributeTokens, AttributeOk, AttributeFlow;
    var words, parts := nodes[0].words, nodes[0].parts;
    var opening := AttributeTokens(false, words);
    WellFormedAt(nodes, 0);
    if Acceptable(c, nodes) { AcceptableParts(c, nodes); }
    assert ts == pre + (opening + (Print(parts) + post));
    assert ts == (pre + opening) + (Print(parts) + post);
    var a := AttributeFlow(false, words, at, inTest, p);
    var entered := ScanAttribute(c, ts, pre, false, words, Print(parts) + post, st, at, inTest, p);
    assert a == Flow(0, 0, inTest, Armed(words, at, p)) by { OuterFlow(words, at, inTest, p); }
    mid := ScanNodes(c, ts, pre + opening, parts, post, entered, at, inTest, a.pending);
    var f := FlowOf(parts, at, inTest, a.pending);
    AgreesFacts(c, mid, at, f.inTest, f.pending);
    GrewTwice(st, entered, mid, a, f);
  }

  lemma OuterFlow(words: seq<Token>, at: Place, inTest: bool, p: Pending)
    ensures AttributeFlow(false, words, at, inTest, p) == Flow(0, 0, inTest, Armed(words, at, p))
  {
  }

  lemma GrewTwice(st: State, mid: State, end: State, a: Flow, f: Flow)
    requires Grew(st, mid, a) && Grew(mid, end, f) && Stacked(end) && a.production == a.test == 0
    ensures Grew(st, end, f)
  {
    hide Stacked;
    ScopesOnce(st, mid, end);
  }

  lemma {:induction false} ScanGroup(c: Config, ts: seq<Token>, pre: seq<Token>, nodes: seq<Node>, post: seq<Token>, st: State,
                  at: Place, inTest: bool, p: Pending) returns (mid: State)
    requires WellFormed(nodes) && nodes != [] && nodes[0].Group? && ts == pre + (PrintNode(nodes[0]) + post)
    requires Agrees(c, st, at, inTest, p) && Proceeds(c, ts, |pre|, st, nodes)
    ensures var j := |pre| + |PrintNode(nodes[0])|; j <= |ts| && Reaches(c, ts, |pre|, st, j, mid)
    ensures var f := FlowNode(nodes, at, inTest, p); Grew(st, mid, f) && Agrees(c, mid, at, f.inTest, f.pending)
    decreases nodes[0], 2
  {
    hide Scan, FlowOf, SquareBalanced, Moved, PrintNode, Print, WellFormed, Acceptable, Agrees, Takes, Stacked, Grew, FlowNode;
    hide Entered, Popped;
    var b, body := nodes[0].bracket, nodes[0].body;
    PrintGroup(ts, pre, b, body, post);
    assert Stacked(st) && st.at == at && st.pending == p by { AgreesFacts(c, st, at, inTest, p); }
    var entered := OpenTurn(c, ts, |pre|, b, st);
    EnteredAgrees(c, b, st, entered, at, inTest, p);
    WellFormedAt(nodes, 0);
    if Acceptable(c, nodes) { AcceptableParts(c, nodes); }
    var left := ScanNodes(c, ts, pre + [OpenToken(b)], body, [CloseToken(b)] + post, entered,
                          Moved(at, Open(b)), inTest || Takes(at, p, b), entered.pending);
    var f := FlowOf(body, Moved(at, Open(b)), inTest || Takes(at, p, b), entered.pending);
    AgreesFacts(c, left, Moved(at, Open(b)), f.inTest, f.pending);
    var k := |pre| + 1 + |Print(body)|;
    mid := CloseTurn(c, ts, k, b, left);
    LeftAgrees(c, b, st, entered, left, mid, at, inTest, p, f);
    GroupFlow(nodes, at, inTest, p);
  }

  lemma GroupFlow(nodes: seq<Node>, at: Place, inTest: bool, p: Pending)
    requires nodes != [] && nodes[0].Group?
    ensures var b := nodes[0].bracket;
      var taken := Takes(at, p, b);
      var inside := FlowOf(nodes[0].body, Moved(at, Open(b)), inTest || taken, if taken then NoPending else p);
      FlowNode(nodes, at, inTest, p)
      == Flow(inside.production, inside.test, if b == Curly then inTest else inside.inTest, inside.pending)
  {
  }

  lemma AgreesFacts(c: Config, st: State, at: Place, inTest: bool, p: Pending)
    requires Agrees(c, st, at, inTest, p)
    ensures Stacked(st) && st.at == at && st.pending == p
  {
  }

  /** The state behind a closing bracket. */
  lemma LeftAgrees(c: Config, b: Bracket, st: State, entered: State, left: State, mid: State,
                   at: Place, inTest: bool, p: Pending, f: Flow)
    requires Agrees(c, st, at, inTest, p) && Agrees(c, left, Moved(at, Open(b)), f.inTest, f.pending)
    requires entered.production == st.production && entered.test == st.test && entered.at == Moved(st.at, Open(b))
    requires entered.scopes == Entered(b, st) && Grew(entered, left, f)
    requires mid.production == left.production && mid.test == left.test
    requires mid.at == Moved(left.at, Close(b)) && mid.pending == left.pending
    requires mid.scopes == if b == Curly then Popped(left) else left.scopes
    ensures var out := if b == Curly then inTest else f.inTest;
      Agrees(c, mid, at, out, f.pending) && Grew(st, mid, Flow(f.production, f.test, out, f.pending))
  {
    hide Moved, Entered, Popped, Stacked;
    MovedBack(at, b);
    ScopesRestored(b, st, left);
    StackedFacts(st, left, mid);
  }

  lemma StackedFacts(st: State, left: State, mid: State)
    requires Stacked(st) && Stacked(left) && mid.at == st.at
    ensures mid.scopes == st.scopes ==> Stacked(mid)
    ensures mid.scopes == left.scopes && left.at.depth == st.at.depth ==> Stacked(mid)
  {
  }

  /** A whole list of nodes. */
  lemma {:induction false} ScanNodes(c: Config, ts: seq<Token>, pre: seq<Token>, nodes: seq<Node>, post: seq<Token>, st: State,
                  at: Place, inTest: bool, p: Pending) returns (end: State)
    requires WellFormed(nodes) && Bounded(nodes, post) && ts == pre + (Print(nodes) + post)
    requires Agrees(c, st, at, inTest, p) && Proceeds(c, ts, |pre|, st, nodes)
    ensures var j := |pre| + |Print(nodes)|; j <= |ts| && Reaches(c, ts, |pre|, st, j, end)
    ensures var f := FlowOf(nodes, at, inTest, p); Grew(st, end, f) && Agrees(c, end, at, f.inTest, f.pending)
    decreases nodes, 1
  {
    hide Scan, FlowNode, Agrees, WellFormedNode, PrintNode, Acceptable;
    if nodes == [] {
      end := st;
    } else {
      var mid := ScanNode(c, ts, pre, nodes, post, st, at, inTest, p);
      var first, all := FlowNode(nodes, at, inTest, p), FlowOf(nodes, at, inTest, p);
      if Acceptable(c, nodes) { AcceptableParts(c, nodes); }
      PrintCons(ts, pre, nodes, post);
      end := ScanNodes(c, ts, pre + PrintNode(nodes[0]), nodes[1..], post, mid, at, first.inTest, first.pending);
      AgreesFacts(c, end, at, all.inTest, all.pending);
      ScopesOnce(st, mid, end);
    }
  }

  /** The level's own entry is pushed at most once. */
  lemma ScopesOnce(st: State, mid: State, end: State)
    requires st.at == mid.at == end.at && Stacked(end)
    requires mid.scopes == st.scopes || mid.scopes == st.scopes + [st.at.depth]
    requires end.scopes == mid.scopes || end.scopes == mid.scopes + [st.at.depth]
    ensures end.scopes == st.scopes || end.scopes == st.scopes + [st.at.depth]
  {
    NotTwice(st.scopes, st.at.depth);
  }

  lemma ScanTurn(c: Config, ts: seq<Token>, i: nat, st: State, next: State)
    requires i < |ts| && Step(c, ts, i, st) == Ok(next)
    ensures Scan(c, ts, i, st) == Scan(c, ts, After(ts, i), next)
  {
  }

  lemma ScanEnd(c: Config, ts: seq<Token>, st: State)
    ensures Scan(c, ts, |ts|, st) == Ok(st)
  {
  }

  const START := Place(0, 0, 0)

  /** On every forest that the scanner accepts, or that holds nothing to refuse, its two counts are
      those of the flow: one flag, a stack and three depths compute a recursive reading of the tree. */
  lemma ScanIsFlow(c: Config, nodes: seq<Node>)
    requires WellFormed(nodes) && (CountSource(c, Print(nodes)).Ok? || Acceptable(c, nodes))
    ensures var f := FlowOf(nodes, START, c.wholeFileIsTest, NoPending);
      CountSource(c, Print(nodes)) == Ok((f.production, f.test))
  {
    hide FlowOf, WellFormed, Print, Step, Scan, Acceptable;
    var ts := Print(nodes);
    assert ts == [] + (Print(nodes) + []);
    var end := ScanNodes(c, ts, [], nodes, [], INITIAL, START, c.wholeFileIsTest, NoPending);
    ScanEnd(c, ts, end);
  }
}
