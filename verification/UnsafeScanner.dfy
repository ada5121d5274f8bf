/** The unsafe-block counter: a loop over tokens that tracks brace depth, pending
    test attributes and test scopes. Here are the laws that hold on every stream
    it does not reject; what its classification means is in `ItemTrees`. */
module UnsafeScanner {
  import opened Bytes
  import opened PathAttributes
  import CfgExpression

  datatype Bracket = Paren | Square | Curly

  /** What the scanner distinguishes about a token's text. */
  datatype Kind =
    | Open(b: Bracket)
    | Close(b: Bracket)
    | Hash
    | Bang
    | Dollar
    | Less
    | Greater
    | Semicolon
    | Comma
    | Include
    | Unsafe
    | MacroRules
    | Extern
    | FnImplTrait
    | OtherItem
    | Modifier
    | Name
    | Mark

  datatype Token = Token(kind: Kind, text: string)

  /** The classification of a token's text. */
  function KindOf(text: string, alpha: char -> bool): (k: Kind)
  {
    if text == "(" then Open(Paren) else if text == "[" then Open(Square) else if text == "{" then Open(Curly)
    else if text == ")" then Close(Paren) else if text == "]" then Close(Square) else if text == "}" then Close(Curly)
    else if text == "#" then Hash else if text == "!" then Bang else if text == "$" then Dollar
    else if text == "<" then Less else if text == ">" then Greater
    else if text == ";" then Semicolon else if text == "," then Comma
    else if text == "include" then Include else if text == "unsafe" then Unsafe
    else if text == "macro_rules" then MacroRules else if text == "extern" then Extern
    else if text in ["fn", "impl", "trait"] then FnImplTrait
    else if text in ["const", "enum", "mod", "static", "struct", "type", "union", "use"] then OtherItem
    else if text in ["async", "auto", "default", "pub"] then Modifier
    else if text != "" && alpha(text[0]) then Name
    else Mark
  }

  predicate ItemKeyword(k: Kind) { k in {MacroRules, FnImplTrait, OtherItem} }

  /** Starts with a letter and is not one of the words that may precede an item keyword. */
  predicate OrdinaryWord(k: Kind) { ItemKeyword(k) || k in {Include, Name} }

  datatype Head = NoHead | ItemHead | OtherHead

  /** Nesting of braces, parentheses and square brackets. */
  datatype Place = Place(depth: nat, paren: nat, square: nat)

  datatype Pending = NoPending | Pending(origin: Place, head: Head, angle: nat)

  datatype State = State(
    production: nat,
    test: nat,
    at: Place,
    scopes: seq<nat>,
    pending: Pending,
    macros: seq<(Bracket, nat)>)

  const INITIAL := State(0, 0, Place(0, 0, 0), [], NoPending, [])

  datatype Result<+T> = Ok(value: T) | Rejected

  /** `json` decodes ordinary string literals, and `targetAccepted` looks for the target of a `path`. */
  datatype Config = Config(wholeFileIsTest: bool, json: string -> Option<string>, targetAccepted: string -> bool)

  predicate PathOk(c: Config, words: seq<string>) { PathAccepted(c.json, c.targetAccepted, words) }

  // ---------------------------------------------------------------------
  // Attributes
  // ---------------------------------------------------------------------

  function Texts(ts: seq<Token>): (words: seq<string>)
    ensures |words| == |ts|
  {
    if ts == [] then [] else [ts[0].text] + Texts(ts[1..])
  }

  datatype Closing = Closed(end: nat) | Unclosed

  /** Past the bracket that brings `nested` to zero. */
  function AttributeClose(ts: seq<Token>, i: nat, nested: nat): (c: Closing)
    requires i <= |ts|
    ensures c.Closed? ==> i <= c.end <= |ts| && (nested > 0 ==> i < c.end)
    decreases |ts| - i
  {
    if nested == 0 then Closed(i)
    else if i == |ts| then Unclosed
    else if ts[i].kind == Open(Square) then AttributeClose(ts, i + 1, nested + 1)
    else if ts[i].kind == Close(Square) then AttributeClose(ts, i + 1, nested - 1)
    else AttributeClose(ts, i + 1, nested)
  }

  /** The index of the first attribute word if an attribute starts at `i`, else 0. */
  function AttributeStart(ts: seq<Token>, i: nat): (j: nat)
    requires i < |ts|
    ensures j != 0 ==> i + 2 <= j <= |ts|
  {
    var cursor := if i + 1 < |ts| && ts[i + 1].kind == Bang then i + 2 else i + 1;
    if ts[i].kind == Hash && cursor < |ts| && ts[cursor].kind == Open(Square) then cursor + 1 else 0
  }

  /** Where the scan goes after `i`: past the whole attribute, or one token on. */
  function After(ts: seq<Token>, i: nat): (j: nat)
    requires i < |ts|
    ensures i < j <= |ts|
  {
    var start := AttributeStart(ts, i);
    if start == 0 then i + 1
    else
      match AttributeClose(ts, start, 1)
      case Closed(end) => end
      case Unclosed => |ts|
  }

  // ---------------------------------------------------------------------
  // One turn of the loop
  // ---------------------------------------------------------------------

  function MacroStep(ts: seq<Token>, i: nat, macros: seq<(Bracket, nat)>): (m: seq<(Bracket, nat)>)
    requires i < |ts|
  {
    var last := |macros| - 1;
    match ts[i].kind
    case Open(b) =>
      if (i > 0 && ts[i - 1].kind == Bang && !(i > 1 && ts[i - 2].kind == Hash))
         || (i > 2 && ts[i - 3].kind == MacroRules && ts[i - 2].kind == Bang)
      then macros + [(b, 1)]
      else if macros != [] && macros[last].0 == b then macros[last := (b, macros[last].1 + 1)]
      else macros
    case Close(b) =>
      if macros != [] && macros[last].0 == b then
        if macros[last].1 <= 1 then macros[..last] else macros[last := (b, macros[last].1 - 1)]
      else macros
    case _ => macros
  }

  predicate OpensUnsafeBlock(ts: seq<Token>, i: nat)
  {
    i + 1 < |ts| && ts[i].kind == Unsafe && ts[i + 1].kind == Open(Curly)
  }

  /** Syntax the scanner refuses at `i`. */
  predicate Refused(ts: seq<Token>, i: nat, macros: seq<(Bracket, nat)>)
    requires i < |ts|
  {
    || (i + 1 < |ts| && ts[i].kind == Include && ts[i + 1].kind == Bang)
    || (i + 1 < |ts| && ts[i].kind == Unsafe && ts[i + 1].kind != Open(Curly)
        && (macros != [] || ts[i + 1].kind !in {Open(Paren), Extern, FnImplTrait}))
  }

  function Down(n: nat): (m: nat) { if n == 0 then 0 else n - 1 }

  function Moved(at: Place, k: Kind): (to: Place)
  {
    match k
    case Open(Curly) => at.(depth := at.depth + 1)
    case Open(Paren) => at.(paren := at.paren + 1)
    case Open(Square) => at.(square := at.square + 1)
    case Close(Curly) => at.(depth := Down(at.depth))
    case Close(Paren) => at.(paren := Down(at.paren))
    case Close(Square) => at.(square := Down(at.square))
    case _ => at
  }

  /** How a token other than a brace moves a pending attribute along. */
  function PendingStep(p: Pending, at: Place, k: Kind): (q: Pending)
    requires p.Pending?
  {
    if at != p.origin then p else
    var seen :=
      if p.head == NoHead && p.angle == 0 then
        if ItemKeyword(k) && at.paren == 0 && at.square == 0 then p.(head := ItemHead)
        else if OrdinaryWord(k) then p.(head := OtherHead)
        else p
      else if k == Less then p.(angle := p.angle + 1)
      else if k == Greater then p.(angle := Down(p.angle))
      else p;
    if k == Semicolon || (k == Comma && seen.head != ItemHead) then NoPending else seen
  }

  /** Whether an unsafe block met now counts as test code. */
  predicate InTest(c: Config, st: State)
  {
    c.wholeFileIsTest || st.pending.Pending? || st.scopes != []
  }

  /** An ordinary token. */
  function TokenStep(c: Config, ts: seq<Token>, i: nat, st: State): (next: State)
    requires i < |ts|
  {
    var k := ts[i].kind;
    var counted :=
      if !OpensUnsafeBlock(ts, i) then st
      else if InTest(c, st) then st.(test := st.test + 1)
      else st.(production := st.production + 1);
    var moved := counted.(at := Moved(st.at, k));
    if k == Open(Curly) then
      if st.pending.Pending? && st.at == st.pending.origin && st.pending.angle == 0
      then moved.(scopes := st.scopes + [st.at.depth + 1], pending := NoPending)
      else moved
    else if k == Close(Curly) then
      if st.scopes != [] && st.scopes[|st.scopes| - 1] == st.at.depth
      then moved.(scopes := st.scopes[..|st.scopes| - 1])
      else moved
    else if st.pending.Pending? then moved.(pending := PendingStep(st.pending, st.at, k))
    else moved
  }

  /** A closed attribute with these words. */
  ghost function AttributeStep(c: Config, inner: bool, words: seq<string>, st: State): (r: Result<State>)
  {
    if !PathOk(c, words) then Rejected
    else
      match CfgExpression.VerdictOf(words)
      case TooManyAtoms => Rejected
      case NotTestOnly => Ok(st)
      case TestOnly =>
        if !inner then Ok(st.(pending := Pending(st.at, NoHead, 0)))
        else if st.scopes == [] || st.scopes[|st.scopes| - 1] != st.at.depth
        then Ok(st.(scopes := st.scopes + [st.at.depth]))
        else Ok(st)
  }

  ghost function Step(c: Config, ts: seq<Token>, i: nat, st0: State): (r: Result<State>)
    requires i < |ts|
  {
    var st := st0.(macros := MacroStep(ts, i, st0.macros));
    if Refused(ts, i, st.macros) then Rejected
    else
      var start := AttributeStart(ts, i);
      if start == 0 then Ok(TokenStep(c, ts, i, st))
      else
        match AttributeClose(ts, start, 1)
        case Unclosed => Ok(st)
        case Closed(end) => AttributeStep(c, ts[i + 1].kind == Bang, Texts(ts[start..end - 1]), st)
  }

  /** The rest of the loop. */
  ghost function Scan(c: Config, ts: seq<Token>, i: nat, st: State): (r: Result<State>)
    requires i <= |ts|
    decreases |ts| - i
  {
    if i == |ts| then Ok(st)
    else
      match Step(c, ts, i, st)
      case Rejected => Rejected
      case Ok(next) => Scan(c, ts, After(ts, i), next)
  }

  /** The counts for a file. */
  ghost function CountSource(c: Config, ts: seq<Token>): (r: Result<(nat, nat)>)
  {
    match Scan(c, ts, 0, INITIAL)
    case Rejected => Rejected
    case Ok(st) => Ok((st.production, st.test))
  }

  // ---------------------------------------------------------------------
  // Test scopes form a stack under the brace depth
  // ---------------------------------------------------------------------

  predicate Increasing(s: seq<nat>) { forall i, j | 0 <= i < j < |s| :: s[i] < s[j] }

  /** Strictly increasing and bounded by the depth. */
  predicate Stacked(st: State)
  {
    && Increasing(st.scopes)
    && (forall i | 0 <= i < |st.scopes| :: st.scopes[i] <= st.at.depth)
  }

  lemma StepKeepsStack(c: Config, ts: seq<Token>, i: nat, st: State)
    requires i < |ts| && Stacked(st) && Step(c, ts, i, st).Ok?
    ensures Stacked(Step(c, ts, i, st).value)
  {
    hide MacroStep, AttributeClose, Refused, PendingStep, Texts, PathOk, CfgExpression.VerdictOf, OpensUnsafeBlock;
  }

  /** Where a run of `n` turns from `(i, st)` stands, if it gets that far. */
  datatype Point = Point(i: nat, st: State)

  ghost predicate Run(c: Config, ts: seq<Token>, points: seq<Point>)
  {
    && (forall k | 0 <= k < |points| :: points[k].i <= |ts|)
    && (forall k | 0 <= k < |points| - 1 :: Successor(c, ts, points[k], points[k + 1]))
  }

  ghost predicate Successor(c: Config, ts: seq<Token>, p: Point, q: Point)
  {
    p.i < |ts| && q.i == After(ts, p.i) && Step(c, ts, p.i, p.st) == Ok(q.st)
  }

  /** The entries that belong to groups at depth `d` or shallower. */
  function Upto(scopes: seq<nat>, d: nat): (kept: seq<nat>)
  {
    if scopes == [] then []
    else if scopes[|scopes| - 1] <= d then scopes
    else Upto(scopes[..|scopes| - 1], d)
  }

  lemma {:induction false} UptoIdentity(scopes: seq<nat>, d: nat)
    requires forall i | 0 <= i < |scopes| :: scopes[i] <= d
    ensures Upto(scopes, d) == scopes
  {
  }

  /** Inside a group, nothing reaches the entries outside it. */
  lemma DeepStepKeepsUpto(c: Config, ts: seq<Token>, i: nat, st: State, d: nat)
    requires i < |ts| && Step(c, ts, i, st).Ok?
    requires st.at.depth > d || (st.at.depth == d && ts[i].kind == Open(Curly))
    ensures Upto(Step(c, ts, i, st).value.scopes, d) == Upto(st.scopes, d)
  {
    hide MacroStep, AttributeClose, Refused, PendingStep, Texts;
    var next := Step(c, ts, i, st).value;
    if |next.scopes| == |st.scopes| + 1 {
      assert next.scopes[..|st.scopes|] == st.scopes;
    }
  }

  lemma {:induction false} RunKeepsStack(c: Config, ts: seq<Token>, points: seq<Point>)
    requires Run(c, ts, points) && points != [] && Stacked(points[0].st)
    ensures forall k | 0 <= k < |points| :: Stacked(points[k].st)
  {
    hide Step, Stacked;
    if |points| > 1 {
      var front := points[..|points| - 1];
      RunKeepsStack(c, ts, front);
      assert Successor(c, ts, points[|points| - 2], points[|points| - 1]);
      StepKeepsStack(c, ts, points[|points| - 2].i, points[|points| - 2].st);
      assert forall k | 0 <= k < |front| :: front[k] == points[k];
    }
  }

  lemma {:induction false} DeepRunKeepsUpto(c: Config, ts: seq<Token>, points: seq<Point>, d: nat)
    requires Run(c, ts, points) && points != []
    requires points[0].i < |ts| && ts[points[0].i].kind == Open(Curly) && points[0].st.at.depth == d
    requires forall k | 0 < k < |points| - 1 :: points[k].st.at.depth > d
    ensures Upto(points[|points| - 1].st.scopes, d) == Upto(points[0].st.scopes, d)
  {
    hide Step, Upto;
    if |points| > 1 {
      var front := points[..|points| - 1];
      DeepRunKeepsUpto(c, ts, front, d);
      var p := points[|points| - 2];
      assert Successor(c, ts, p, points[|points| - 1]);
      DeepStepKeepsUpto(c, ts, p.i, p.st, d);
    }
  }

  /** A balanced brace group gives the scope stack back as it found it. */
  lemma GroupRestoresScopes(c: Config, ts: seq<Token>, points: seq<Point>)
    requires Run(c, ts, points) && |points| > 1 && Stacked(points[0].st)
    requires points[0].i < |ts| && ts[points[0].i].kind == Open(Curly)
    requires forall k | 0 < k < |points| - 1 :: points[k].st.at.depth > points[0].st.at.depth
    requires points[|points| - 1].st.at.depth == points[0].st.at.depth
    ensures points[|points| - 1].st.scopes == points[0].st.scopes
  {
    hide Step, Upto, Run;
    var d := points[0].st.at.depth;
    RunKeepsStack(c, ts, points);
    DeepRunKeepsUpto(c, ts, points, d);
    UptoIdentity(points[0].st.scopes, d);
    UptoIdentity(points[|points| - 1].st.scopes, d);
  }

  // ---------------------------------------------------------------------
  // Conservation
  // ---------------------------------------------------------------------

  /** The unsafe blocks at or after `i` that no attribute hides. */
  function VisibleBlocks(ts: seq<Token>, i: nat): (n: nat)
    requires i <= |ts|
    decreases |ts| - i
  {
    if i == |ts| then 0 else (if OpensUnsafeBlock(ts, i) then 1 else 0) + VisibleBlocks(ts, After(ts, i))
  }

  /** All adjacent pairs at or after `i`. */
  function AllBlocks(ts: seq<Token>, i: nat): (n: nat)
    requires i <= |ts|
    decreases |ts| - i
  {
    if i == |ts| then 0 else (if OpensUnsafeBlock(ts, i) then 1 else 0) + AllBlocks(ts, i + 1)
  }

  lemma StepCounts(c: Config, ts: seq<Token>, i: nat, st: State)
    requires i < |ts| && Step(c, ts, i, st).Ok?
    ensures var next := Step(c, ts, i, st).value;
      next.production + next.test == st.production + st.test + if OpensUnsafeBlock(ts, i) then 1 else 0
    ensures var next := Step(c, ts, i, st).value;
      next.production == st.production + if OpensUnsafeBlock(ts, i) && !InTest(c, st) then 1 else 0
  {
    hide MacroStep, AttributeClose, Refused, PendingStep, Texts, Moved;
  }

  lemma {:induction false} ScanCounts(c: Config, ts: seq<Token>, i: nat, st: State)
    requires i <= |ts| && Scan(c, ts, i, st).Ok?
    ensures var end := Scan(c, ts, i, st).value;
      end.production + end.test == st.production + st.test + VisibleBlocks(ts, i)
    decreases |ts| - i
  {
    hide Step, After, OpensUnsafeBlock;
    if i < |ts| {
      StepCounts(c, ts, i, st);
      ScanCounts(c, ts, After(ts, i), Step(c, ts, i, st).value);
    }
  }

  lemma {:induction false} SkippedBlocks(ts: seq<Token>, i: nat, j: nat)
    requires i <= j <= |ts|
    ensures AllBlocks(ts, i) >= AllBlocks(ts, j)
    decreases j - i
  {
    if i < j {
      SkippedBlocks(ts, i + 1, j);
    }
  }

  lemma {:induction false} VisibleAtMostAll(ts: seq<Token>, i: nat)
    requires i <= |ts|
    ensures VisibleBlocks(ts, i) <= AllBlocks(ts, i)
    decreases |ts| - i
  {
    if i < |ts| {
      VisibleAtMostAll(ts, After(ts, i));
      SkippedBlocks(ts, i + 1, After(ts, i));
    }
  }

  /** Every visible unsafe block is counted once, in exactly one column, and the
      count that ignores attributes is never smaller. */
  lemma Conservation(c: Config, ts: seq<Token>)
    requires CountSource(c, ts).Ok?
    ensures CountSource(c, ts).value.0 + CountSource(c, ts).value.1 == VisibleBlocks(ts, 0)
    ensures CountSource(c, ts).value.0 + CountSource(c, ts).value.1 <= AllBlocks(ts, 0)
    ensures c.wholeFileIsTest ==> CountSource(c, ts).value.0 == 0
  {
    hide Step;
    ScanCounts(c, ts, 0, INITIAL);
    VisibleAtMostAll(ts, 0);
    if c.wholeFileIsTest {
      TestFileCounts(c, ts, 0, INITIAL);
    }
  }

  lemma {:induction false} TestFileCounts(c: Config, ts: seq<Token>, i: nat, st: State)
    requires c.wholeFileIsTest && i <= |ts| && Scan(c, ts, i, st).Ok?
    ensures Scan(c, ts, i, st).value.production == st.production
    decreases |ts| - i
  {
    hide Step, After, OpensUnsafeBlock;
    if i < |ts| {
      StepCounts(c, ts, i, st);
      TestFileCounts(c, ts, After(ts, i), Step(c, ts, i, st).value);
    }
  }

  // ---------------------------------------------------------------------
  // The loops of the source
  // ---------------------------------------------------------------------

  method FindAttributeClose(ts: seq<Token>, start: nat) returns (c: Closing)
    requires start <= |ts|
    ensures c == AttributeClose(ts, start, 1)
  {
    var cursor, nested := start, 1;
    while cursor < |ts| && nested > 0
      invariant start <= cursor <= |ts|
      invariant AttributeClose(ts, cursor, nested) == AttributeClose(ts, start, 1)
    {
      if ts[cursor].kind == Open(Square) {
        nested := nested + 1;
      } else if ts[cursor].kind == Close(Square) {
        nested := nested - 1;
      }
      cursor := cursor + 1;
    }
    return if nested == 0 then Closed(cursor) else Unclosed;
  }

  method TakeAttribute(c: Config, inner: bool, words: seq<string>, st: State) returns (r: Result<State>)
    ensures r == AttributeStep(c, inner, words, st)
  {
    if !PathOk(c, words) {
      return Rejected;
    }
    var verdict := CfgExpression.AttributeIsTestOnly(words);
    match verdict {
      case TooManyAtoms =>
        return Rejected;
      case NotTestOnly =>
        return Ok(st);
      case TestOnly =>
        if !inner {
          return Ok(st.(pending := Pending(st.at, NoHead, 0)));
        } else if st.scopes == [] || st.scopes[|st.scopes| - 1] != st.at.depth {
          return Ok(st.(scopes := st.scopes + [st.at.depth]));
        }
        return Ok(st);
    }
  }

  /** `count_source`, past the lexer. */
  method CountTokens(c: Config, ts: seq<Token>) returns (r: Result<(nat, nat)>)
    ensures r == CountSource(c, ts)
  {
    hide MacroStep, AttributeClose, AttributeStep, TokenStep, Refused;
    var st := INITIAL;
    var index := 0;
    while index < |ts|
      invariant index <= |ts|
      invariant Scan(c, ts, index, st) == Scan(c, ts, 0, INITIAL)
      decreases |ts| - index
    {
      st := st.(macros := MacroStep(ts, index, st.macros));
      if Refused(ts, index, st.macros) {
        return Rejected;
      }
      var start := AttributeStart(ts, index);
      if start == 0 {
        st := TokenStep(c, ts, index, st);
        index := index + 1;
      } else {
        var closing := FindAttributeClose(ts, start);
        if closing.Unclosed? {
          index := |ts|;
        } else {
          var taken := TakeAttribute(c, ts[index + 1].kind == Bang, Texts(ts[start..closing.end - 1]), st);
          if taken.Rejected? {
            return Rejected;
          }
          st := taken.value;
          index := closing.end;
        }
      }
    }
    return Ok((st.production, st.test));
  }

  /** The macro groups open before token `i`. */
  function MacrosAt(ts: seq<Token>, i: nat): (m: seq<(Bracket, nat)>)
    requires i <= |ts|
  {
    if i == 0 then [] else MacroStep(ts, i - 1, MacrosAt(ts, i - 1))
  }

  /** Syntax that the attribute-blind count refuses at `i`. */
  predicate RefusedAnywhere(ts: seq<Token>, i: nat)
    requires i < |ts|
  {
    || (i + 1 < |ts| && ts[i].kind == Include && ts[i + 1].kind == Bang)
    || (ts[i].kind == Unsafe && !OpensUnsafeBlock(ts, i)
        && (MacrosAt(ts, i + 1) != [] || (i + 1 < |ts| && ts[i + 1].kind == Dollar)))
  }

  lemma {:induction false} AllBlocksSplit(ts: seq<Token>, i: nat)
    requires i < |ts|
    ensures AllBlocks(ts, 0) - AllBlocks(ts, i + 1)
      == AllBlocks(ts, 0) - AllBlocks(ts, i) + if OpensUnsafeBlock(ts, i) then 1 else 0
  {
  }

  /** `_count_unconventional_source`, past the lexer. */
  method CountUnconventional(ts: seq<Token>) returns (r: Result<nat>)
    ensures r.Ok? <==> forall i | 0 <= i < |ts| :: !RefusedAnywhere(ts, i)
    ensures r.Ok? ==> r.value == AllBlocks(ts, 0)
  {
    hide MacroStep;
    var macros: seq<(Bracket, nat)> := [];
    var count := 0;
    for index := 0 to |ts|
      invariant macros == MacrosAt(ts, index)
      invariant count == AllBlocks(ts, 0) - AllBlocks(ts, index)
      invariant forall i | 0 <= i < index :: !RefusedAnywhere(ts, i)
    {
      macros := MacroStep(ts, index, macros);
      AllBlocksSplit(ts, index);
      if index + 1 < |ts| && ts[index].kind == Include && ts[index + 1].kind == Bang {
        assert RefusedAnywhere(ts, index);
        return Rejected;
      }
      if ts[index].kind == Unsafe {
        if OpensUnsafeBlock(ts, index) {
          count := count + 1;
        } else if macros != [] || (index + 1 < |ts| && ts[index + 1].kind == Dollar) {
          assert RefusedAnywhere(ts, index);
          return Rejected;
        }
      }
    }
    return Ok(count);
  }
}
