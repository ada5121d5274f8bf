/** Where the scanner's one flag is as good as the item tree, and where it is not. A flag that
    is still up behind its item masks what follows; a flag that comes down inside its item
    exposes the rest of it. These are the only two ways to go wrong. */
module ItemLaws {
  import CfgExpression
  import opened UnsafeScanner
  import opened ItemTrees

  // ---------------------------------------------------------------------
  // The scanner's rule for the end of an item
  // ---------------------------------------------------------------------

  /** No test item anywhere inside. */
  ghost predicate Quiet(nodes: seq<Node>)
  {
    forall i | 0 <= i < |nodes| :: QuietNode(nodes[i])
  }

  ghost predicate QuietNode(n: Node)
  {
    match n
    case Group(_, body) => Quiet(body)
    case Item(words, parts) => !TestWords(words) && Quiet(parts)
    case _ => true
  }

  /** The rule at one level, where a group matters only by being taken for the item's braces, or by a
      test item inside it. */
  ghost function FlagNode(n: Node, at: Place, p: Pending): (q: Pending)
    decreases n, 0
  {
    match n
    case Word(t) => if p.Pending? then PendingStep(p, at, t.kind) else p
    case Inner(_) => p
    case Group(b, body) => if Takes(at, p, b) || !Quiet(body) then NoPending else p
    case Item(words, parts) => FlagAfter(parts, at, Armed(words, at, p))
  }

  ghost function FlagAfter(nodes: seq<Node>, at: Place, p: Pending): (q: Pending)
    decreases nodes, 1
  {
    if nodes == [] then p else FlagAfter(nodes[1..], at, FlagNode(nodes[0], at, p))
  }

  /** The flag of every test item is down by the end of the item. */
  ghost predicate Released(nodes: seq<Node>, at: Place)
  {
    forall i | 0 <= i < |nodes| :: ReleasedNode(nodes[i], at)
  }

  ghost predicate ReleasedNode(n: Node, at: Place)
  {
    match n
    case Group(b, body) => Released(body, Moved(at, Open(b)))
    case Item(words, parts) => Released(parts, at) && (TestWords(words) ==> FlagAfter(parts, at, Fresh(at)) == NoPending)
    case _ => true
  }

  /** No block of these parts stands where the flag is down, nor in a group that takes it down. */
  ghost predicate Holds(parts: seq<Node>, at: Place, p: Pending)
  {
    parts == [] ||
    ( && (match parts[0]
          case Word(_) => p.Pending? || !UnsafeBlockAhead(parts)
          case Inner(_) => true
          case Group(b, body) => Takes(at, p, b) || (p.Pending? && Quiet(body)) || Blocks(body) == 0
          case Item(words, inside) => Holds(inside, at, Armed(words, at, p)))
      && Holds(parts[1..], at, FlagNode(parts[0], at, p)) )
  }

  /** The flag of every test item is up until the last block of the item. */
  ghost predicate Held(nodes: seq<Node>, at: Place)
  {
    forall i | 0 <= i < |nodes| :: HeldNode(nodes[i], at)
  }

  ghost predicate HeldNode(n: Node, at: Place)
  {
    match n
    case Group(b, body) => Held(body, Moved(at, Open(b)))
    case Item(words, parts) => if TestWords(words) then Holds(parts, at, Fresh(at)) else Held(parts, at)
    case _ => true
  }

  ghost predicate InOrder(nodes: seq<Node>, at: Place) { Held(nodes, at) && Released(nodes, at) }

  lemma Elements(nodes: seq<Node>, at: Place)
    requires nodes != []
    ensures Quiet(nodes) <==> QuietNode(nodes[0]) && Quiet(nodes[1..])
    ensures Released(nodes, at) <==> ReleasedNode(nodes[0], at) && Released(nodes[1..], at)
    ensures Held(nodes, at) <==> HeldNode(nodes[0], at) && Held(nodes[1..], at)
  {
    hide QuietNode, ReleasedNode, HeldNode;
    assert forall i | 1 <= i < |nodes| :: nodes[i] == nodes[1..][i - 1];
  }

  lemma Nothing(at: Place)
    ensures Quiet([]) && Released([], at) && Held([], at)
  {
  }

  lemma Joined(a: seq<Node>, b: seq<Node>, at: Place)
    ensures Released(a + b, at) <==> Released(a, at) && Released(b, at)
    ensures Held(a + b, at) <==> Held(a, at) && Held(b, at)
  {
    hide ReleasedNode, HeldNode;
    assert forall i | 0 <= i < |a| :: (a + b)[i] == a[i];
    assert forall i | 0 <= i < |b| :: (a + b)[|a| + i] == b[i];
  }

  // ---------------------------------------------------------------------
  // What both readings share
  // ---------------------------------------------------------------------

  /** An inner test attribute stands in these very braces. */
  ghost predicate Governs(nodes: seq<Node>)
    decreases nodes, 1
  {
    nodes != [] && (GovernsNode(nodes[0]) || Governs(nodes[1..]))
  }

  ghost predicate GovernsNode(n: Node)
    decreases n, 0
  {
    match n
    case Word(_) => false
    case Inner(words) => TestWords(words)
    case Group(b, body) => b != Curly && Governs(body)
    case Item(_, parts) => Governs(parts)
  }

  /** The one-flag reading sees every block once, and an inner attribute as the tree does. */
  lemma {:induction false} FlowTotal(nodes: seq<Node>, at: Place, t: bool, p: Pending)
    ensures var f := FlowOf(nodes, at, t, p); f.production + f.test == Blocks(nodes) && f.inTest == (t || Governs(nodes))
    ensures t ==> FlowOf(nodes, at, t, p).production == 0
    decreases nodes
  {
    hide TestWords, PendingStep, Moved;
    if nodes != [] {
      match nodes[0] {
        case Word(_) =>
        case Inner(_) =>
        case Group(b, body) =>
          FlowTotal(body, Moved(at, Open(b)), t || Takes(at, p, b), if Takes(at, p, b) then NoPending else p);
        case Item(words, parts) =>
          FlowTotal(parts, at, t, Armed(words, at, p));
      }
      var first := FlowNode(nodes, at, t, p);
      FlowTotal(nodes[1..], at, first.inTest, first.pending);
    }
  }

  /** The tree sees the same blocks, and test code holds no production code. */
  lemma {:induction false} ReadTotal(nodes: seq<Node>, governed: bool, covered: bool)
    ensures var r := Read(nodes, governed, covered);
      r.production + r.test == Blocks(nodes) && r.governed == (governed || Governs(nodes))
    ensures governed || covered ==> Read(nodes, governed, covered).production == 0
    decreases nodes
  {
    hide TestWords;
    if nodes != [] {
      match nodes[0] {
        case Word(_) =>
        case Inner(_) =>
        case Group(b, body) =>
          ReadTotal(body, b != Curly && governed, covered || (b == Curly && governed));
        case Item(words, parts) =>
          ReadTotal(parts, governed, covered || TestWords(words));
      }
      ReadTotal(nodes[1..], ReadNode(nodes, governed, covered).governed, covered);
    }
  }

  // ---------------------------------------------------------------------
  // The rule follows the flag
  // ---------------------------------------------------------------------

  /** Strictly deeper than `origin` in some kind of bracket. */
  predicate Beyond(at: Place, origin: Place)
  {
    at.depth >= origin.depth && at.paren >= origin.paren && at.square >= origin.square && at != origin
  }

  /** The flag, if up, was set at this level or around it. */
  predicate Fits(p: Pending, at: Place) { p.Pending? ==> p.origin == at || Beyond(at, p.origin) }

  lemma Deeper(p: Pending, at: Place, b: Bracket)
    requires Fits(p, at) && p.Pending?
    ensures Beyond(Moved(at, Open(b)), p.origin)
  {
  }

  /** Inside a group that holds no test item, a flag from outside stays up and covers every block. */
  lemma {:induction false} QuietKeeps(nodes: seq<Node>, at: Place, t: bool, p: Pending)
    requires Quiet(nodes) && p.Pending? && Beyond(at, p.origin)
    ensures var f := FlowOf(nodes, at, t, p); f.production == 0 && f.pending == p
    decreases nodes
  {
    hide TestWords, Quiet, Beyond, Moved;
    if nodes != [] {
      Elements(nodes, at);
      match nodes[0] {
        case Word(_) =>
          assert at != p.origin by { NotHere(at, p); }
        case Inner(_) =>
        case Group(b, body) =>
          assert !Takes(at, p, b) by { NotHere(at, p); }
          Deeper(p, at, b);
          QuietKeeps(body, Moved(at, Open(b)), t, p);
        case Item(words, parts) =>
          QuietKeeps(parts, at, t, p);
      }
      QuietKeeps(nodes[1..], at, FlowNode(nodes, at, t, p).inTest, p);
    }
  }

  lemma NotHere(at: Place, p: Pending)
    requires p.Pending? && Beyond(at, p.origin)
    ensures at != p.origin
  {
  }

  /** A flag that the rule leaves up is the scanner's flag, whatever happens elsewhere. */
  lemma {:induction false} Tracks(nodes: seq<Node>, at: Place, t: bool, p: Pending, w: Pending)
    requires Fits(w, at) && (w.Pending? ==> p == w)
    ensures var v := FlagAfter(nodes, at, w); Fits(v, at) && (v.Pending? ==> FlowOf(nodes, at, t, p).pending == v)
    decreases nodes, 1
  {
    hide Fits, FlagNode, FlowNode;
    if nodes != [] {
      TracksNode(nodes, at, t, p, w);
      var first := FlowNode(nodes, at, t, p);
      Tracks(nodes[1..], at, first.inTest, first.pending, FlagNode(nodes[0], at, w));
    }
  }

  lemma {:induction false} TracksNode(nodes: seq<Node>, at: Place, t: bool, p: Pending, w: Pending)
    requires nodes != [] && Fits(w, at) && (w.Pending? ==> p == w)
    ensures var v := FlagNode(nodes[0], at, w); Fits(v, at) && (v.Pending? ==> FlowNode(nodes, at, t, p).pending == v)
    decreases nodes, 0
  {
    hide TestWords, Quiet, FlowOf, FlagAfter, Moved, Beyond;
    match nodes[0]
    case Word(_) =>
    case Inner(_) =>
    case Group(b, body) =>
      if w.Pending? && !Takes(at, w, b) && Quiet(body) {
        Deeper(w, at, b);
        QuietKeeps(body, Moved(at, Open(b)), t, w);
      }
    case Item(words, parts) =>
      Tracks(parts, at, t, Armed(words, at, p), Armed(words, at, w));
  }

  /** Where every item releases its flag, a flag from outside survives exactly the quiet lists. */
  lemma {:induction false} FlagFromOutside(nodes: seq<Node>, at: Place, p: Pending)
    requires Released(nodes, at) && (p.Pending? ==> Beyond(at, p.origin))
    ensures FlagAfter(nodes, at, p) == if Quiet(nodes) then p else NoPending
    decreases nodes
  {
    hide TestWords, Quiet, Released;
    if nodes == [] {
      Nothing(at);
    } else {
      Elements(nodes, at);
      if nodes[0].Item? { FlagFromOutside(nodes[0].parts, at, p); }
      FlagFromOutside(nodes[1..], at, FlagNode(nodes[0], at, p));
    }
  }

  /** Where every item releases its flag, the rule gives the scanner's flag exactly. */
  lemma {:induction false} FlagExact(nodes: seq<Node>, at: Place, t: bool, p: Pending)
    requires Released(nodes, at) && Fits(p, at)
    ensures FlowOf(nodes, at, t, p).pending == FlagAfter(nodes, at, p) && Fits(FlagAfter(nodes, at, p), at)
    decreases nodes, 1
  {
    hide Fits, FlagNode, FlowNode, Released;
    if nodes != [] {
      Elements(nodes, at);
      FlagExactNode(nodes, at, t, p);
      var first := FlowNode(nodes, at, t, p);
      FlagExact(nodes[1..], at, first.inTest, first.pending);
    }
  }

  lemma {:induction false} FlagExactNode(nodes: seq<Node>, at: Place, t: bool, p: Pending)
    requires nodes != [] && ReleasedNode(nodes[0], at) && Fits(p, at)
    ensures FlowNode(nodes, at, t, p).pending == FlagNode(nodes[0], at, p) && Fits(FlagNode(nodes[0], at, p), at)
    decreases nodes, 0
  {
    hide TestWords, Quiet, FlowOf, FlagAfter, Moved, Beyond, Released;
    match nodes[0]
    case Word(_) =>
    case Inner(_) =>
    case Group(b, body) =>
      var q := if Takes(at, p, b) then NoPending else p;
      if q.Pending? { Deeper(q, at, b); }
      FlagFromOutside(body, Moved(at, Open(b)), q);
      FlagExact(body, Moved(at, Open(b)), t || Takes(at, p, b), q);
    case Item(words, parts) =>
      FlagExact(parts, at, t, Armed(words, at, p));
  }

  /** An item that holds its flag shows the scanner no production code. */
  lemma {:induction false} HoldsCovers(parts: seq<Node>, at: Place, t: bool, p: Pending, w: Pending)
    requires Holds(parts, at, w) && Fits(w, at) && (w.Pending? ==> p == w)
    ensures FlowOf(parts, at, t, p).production == 0
    decreases parts, 1
  {
    hide Fits, FlagNode, FlowNode;
    if parts != [] {
      HoldsCoversNode(parts, at, t, p, w);
      TracksNode(parts, at, t, p, w);
      var first := FlowNode(parts, at, t, p);
      HoldsCovers(parts[1..], at, first.inTest, first.pending, FlagNode(parts[0], at, w));
    }
  }

  lemma {:induction false} HoldsCoversNode(parts: seq<Node>, at: Place, t: bool, p: Pending, w: Pending)
    requires parts != [] && Holds(parts, at, w) && Fits(w, at) && (w.Pending? ==> p == w)
    ensures FlowNode(parts, at, t, p).production == 0
    decreases parts, 0
  {
    hide TestWords, Quiet, FlowOf, FlagNode, Moved, Beyond, Blocks;
    match parts[0]
    case Word(_) =>
    case Inner(_) =>
    case Group(b, body) =>
      var taken := Takes(at, p, b);
      FlowTotal(body, Moved(at, Open(b)), t || taken, if taken then NoPending else p);
      if w.Pending? && !taken && Quiet(body) {
        Deeper(w, at, b);
        QuietKeeps(body, Moved(at, Open(b)), t, w);
      }
    case Item(words, inside) =>
      HoldsCovers(inside, at, t, Armed(words, at, p), Armed(words, at, w));
  }

  // ---------------------------------------------------------------------
  // The two ways to go wrong, and their absence
  // ---------------------------------------------------------------------

  /** Where no flag comes down early, the scanner never reports more production code than there is,
      whatever flag it arrives with. */
  lemma {:induction false} LateOnlyMasks(nodes: seq<Node>, at: Place, t: bool, p: Pending, governed: bool, covered: bool)
    requires Held(nodes, at) && (governed || covered ==> t)
    ensures FlowOf(nodes, at, t, p).production <= Read(nodes, governed, covered).production
    decreases nodes, 1
  {
    hide FlowNode, ReadNode, Held, HeldNode, GovernsNode;
    if nodes != [] {
      Elements(nodes, at);
      MasksNode(nodes, at, t, p, governed, covered);
      var f, r := FlowNode(nodes, at, t, p), ReadNode(nodes, governed, covered);
      LateOnlyMasks(nodes[1..], at, f.inTest, f.pending, r.governed, covered);
    }
  }

  lemma {:induction false} MasksNode(nodes: seq<Node>, at: Place, t: bool, p: Pending, governed: bool, covered: bool)
    requires nodes != [] && HeldNode(nodes[0], at) && (governed || covered ==> t)
    ensures var f, r := FlowNode(nodes, at, t, p), ReadNode(nodes, governed, covered);
      f.production <= r.production && f.inTest == (t || GovernsNode(nodes[0])) && r.governed == (governed || GovernsNode(nodes[0]))
    decreases nodes, 0
  {
    hide TestWords, FlowOf, Read, Held, Holds, Moved, Governs, PendingStep;
    match nodes[0]
    case Word(_) =>
    case Inner(_) =>
    case Group(b, body) =>
      var taken := Takes(at, p, b);
      var to, q := Moved(at, Open(b)), if taken then NoPending else p;
      var g, c := b != Curly && governed, covered || (b == Curly && governed);
      FlowTotal(body, to, t || taken, q);
      ReadTotal(body, g, c);
      LateOnlyMasks(body, to, t || taken, q, g, c);
    case Item(words, parts) =>
      FlowTotal(parts, at, t, Armed(words, at, p));
      ReadTotal(parts, governed, covered || TestWords(words));
      if TestWords(words) {
        HoldsCovers(parts, at, t, Fresh(at), Fresh(at));
      } else {
        LateOnlyMasks(parts, at, t, p, governed, covered);
      }
  }

  /** Where no flag stays up late, the scanner never reports less production code than there is, and
      ends with its flag down. */
  lemma {:induction false} EarlyOnlyExposes(nodes: seq<Node>, at: Place, t: bool, governed: bool, covered: bool)
    requires Released(nodes, at) && (t ==> governed || covered)
    ensures var f := FlowOf(nodes, at, t, NoPending);
      f.production >= Read(nodes, governed, covered).production && f.pending == NoPending
    decreases nodes, 1
  {
    hide FlowNode, ReadNode, Released, ReleasedNode, GovernsNode;
    if nodes != [] {
      Elements(nodes, at);
      ExposesNode(nodes, at, t, governed, covered);
      var f, r := FlowNode(nodes, at, t, NoPending), ReadNode(nodes, governed, covered);
      EarlyOnlyExposes(nodes[1..], at, f.inTest, r.governed, covered);
    }
  }

  lemma {:induction false} ExposesNode(nodes: seq<Node>, at: Place, t: bool, governed: bool, covered: bool)
    requires nodes != [] && ReleasedNode(nodes[0], at) && (t ==> governed || covered)
    ensures var f, r := FlowNode(nodes, at, t, NoPending), ReadNode(nodes, governed, covered);
      && f.production >= r.production && f.pending == NoPending
      && f.inTest == (t || GovernsNode(nodes[0])) && r.governed == (governed || GovernsNode(nodes[0]))
    decreases nodes, 0
  {
    hide TestWords, FlowOf, Read, Released, Moved, Governs, FlagAfter;
    match nodes[0]
    case Word(_) =>
    case Inner(_) =>
    case Group(b, body) =>
      var to, g, c := Moved(at, Open(b)), b != Curly && governed, covered || (b == Curly && governed);
      FlowTotal(body, to, t, NoPending);
      ReadTotal(body, g, c);
      EarlyOnlyExposes(body, to, t, g, c);
    case Item(words, parts) =>
      FlowTotal(parts, at, t, Armed(words, at, NoPending));
      ReadTotal(parts, governed, covered || TestWords(words));
      if TestWords(words) {
        FlagExact(parts, at, t, Fresh(at));
      } else {
        EarlyOnlyExposes(parts, at, t, governed, covered);
      }
  }

  /** Where every flag is up as long as it should be and no longer, the scanner's counts are the tree's. */
  lemma ClassificationExact(c: Config, nodes: seq<Node>)
    requires WellFormed(nodes) && (CountSource(c, Print(nodes)).Ok? || Acceptable(c, nodes))
    requires InOrder(nodes, START)
    ensures var r := Read(nodes, false, c.wholeFileIsTest);
      CountSource(c, Print(nodes)) == Ok((r.production, r.test))
  {
    hide Read, FlowOf, Held, Released, WellFormed, Print, CountSource, Acceptable, Blocks;
    var t := c.wholeFileIsTest;
    ScanIsFlow(c, nodes);
    FlowTotal(nodes, START, t, NoPending);
    ReadTotal(nodes, false, t);
    LateOnlyMasks(nodes, START, t, NoPending, false, t);
    EarlyOnlyExposes(nodes, START, t, false, t);
  }
}
