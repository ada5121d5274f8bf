/** The two faults of the scanner, exactly: for one item anywhere in a source that is otherwise
    in order, the counts are right if and only if the scanner's rule has the flag down by the
    item's end, or up as far as its production code. */
module ItemFaults {
  import opened UnsafeScanner
  import opened ItemTrees
  import opened ItemLaws

  // ---------------------------------------------------------------------
  // A source with a hole
  // ---------------------------------------------------------------------

  /** A group, or an item under an attribute, with what stands before and behind it. */
  datatype Frame =
    | Inside(front: seq<Node>, bracket: Bracket, back: seq<Node>)
    | Under(front: seq<Node>, words: seq<Token>, back: seq<Node>)
  {
    function Around(body: seq<Node>): (n: Node)
    {
      if Inside? then Group(bracket, body) else Item(words, body)
    }

    function Into(at: Place): (to: Place)
    {
      if Inside? then Moved(at, Open(bracket)) else at
    }
  }

  function Fill(frames: seq<Frame>, hole: seq<Node>): (nodes: seq<Node>)
  {
    if frames == [] then hole
    else frames[0].front + ([frames[0].Around(Fill(frames[1..], hole))] + frames[0].back)
  }

  /** Where the hole is. */
  function PlaceIn(frames: seq<Frame>, at: Place): (to: Place)
  {
    if frames == [] then at else PlaceIn(frames[1..], frames[0].Into(at))
  }

  /** Production code in order around the hole. */
  ghost predicate Ordinary(frames: seq<Frame>, at: Place)
  {
    frames == [] ||
    ( && InOrder(frames[0].front, at) && !Governs(frames[0].front) && InOrder(frames[0].back, at)
      && (frames[0].Under? ==> !TestWords(frames[0].words))
      && Ordinary(frames[1..], frames[0].Into(at)) )
  }

  lemma {:induction false} FillInOrder(frames: seq<Frame>, hole: seq<Node>, at: Place)
    requires Ordinary(frames, at)
    ensures Held(Fill(frames, hole), at) <==> Held(hole, PlaceIn(frames, at))
    ensures Released(Fill(frames, hole), at) <==> Released(hole, PlaceIn(frames, at))
    decreases |frames|
  {
    hide TestWords, Held, Released, Governs;
    if frames != [] {
      var fr, body := frames[0], Fill(frames[1..], hole);
      FillInOrder(frames[1..], hole, fr.Into(at));
      var n := fr.Around(body);
      assert HeldNode(n, at) <==> Held(body, fr.Into(at));
      assert ReleasedNode(n, at) <==> Released(body, fr.Into(at));
      Single(n, at);
      Joined([n], fr.back, at);
      Joined(fr.front, [n] + fr.back, at);
    }
  }

  lemma Single(n: Node, at: Place)
    ensures Held([n], at) <==> HeldNode(n, at)
    ensures Released([n], at) <==> ReleasedNode(n, at)
  {
    hide HeldNode, ReleasedNode, Held, Released;
    Elements([n], at);
    Nothing(at);
    assert [n][1..] == [];
  }

  /** What stands in front in order changes nothing for what comes after it. */
  lemma {:induction false} BehindFront(front: seq<Node>, tail: seq<Node>, at: Place)
    requires InOrder(front, at) && !Governs(front)
    ensures var f, g := FlowOf(front + tail, at, false, NoPending), FlowOf(tail, at, false, NoPending);
      var r, s := Read(front + tail, false, false), Read(tail, false, false);
      f.pending == g.pending && f.production - r.production == g.production - s.production
    decreases |front|
  {
    hide FlowNode, ReadNode, Held, Released, HeldNode, ReleasedNode, GovernsNode;
    if front == [] {
      assert front + tail == tail;
    } else {
      var nodes := front + tail;
      assert nodes[0] == front[0] && nodes[1..] == front[1..] + tail;
      Elements(front, at);
      MasksNode(nodes, at, false, NoPending, false, false);
      ExposesNode(nodes, at, false, false, false);
      BehindFront(front[1..], tail, at);
    }
  }

  /** A frame around production code, and what stands behind it. */
  lemma AroundFlow(fr: Frame, body: seq<Node>, at: Place)
    requires fr.Under? ==> !TestWords(fr.words)
    ensures var n, f := fr.Around(body), FlowOf(body, fr.Into(at), false, NoPending);
      var g := FlowOf(fr.back, at, GovernsNode(n), f.pending);
      var whole := FlowOf([n] + fr.back, at, false, NoPending);
      whole.production == f.production + g.production && whole.pending == g.pending
    ensures var n := fr.Around(body);
      Read([n] + fr.back, false, false).production
      == Read(body, false, false).production + Read(fr.back, GovernsNode(n), false).production
  {
    hide TestWords, Moved, Governs;
    var nodes := [fr.Around(body)] + fr.back;
    assert nodes[0] == fr.Around(body) && nodes[1..] == fr.back;
    FlowTotal(body, fr.Into(at), false, NoPending);
    ReadTotal(body, false, false);
  }

  /** Production code that is masked in the hole is masked in the whole. */
  lemma {:induction false} MaskedWhole(frames: seq<Frame>, hole: seq<Node>, at: Place)
    requires Ordinary(frames, at) && Held(hole, PlaceIn(frames, at))
    requires FlowOf(hole, PlaceIn(frames, at), false, NoPending).production < Read(hole, false, false).production
    ensures FlowOf(Fill(frames, hole), at, false, NoPending).production < Read(Fill(frames, hole), false, false).production
    decreases |frames|
  {
    hide TestWords, Held, Released, Governs, FlowOf, Read, GovernsNode;
    if frames != [] {
      var fr, body := frames[0], Fill(frames[1..], hole);
      var n := fr.Around(body);
      MaskedWhole(frames[1..], hole, fr.Into(at));
      AroundFlow(fr, body, at);
      var p := FlowOf(body, fr.Into(at), false, NoPending).pending;
      LateOnlyMasks(fr.back, at, GovernsNode(n), p, GovernsNode(n), false);
      BehindFront(fr.front, [n] + fr.back, at);
    }
  }

  /** Test code that is exposed in the hole is exposed in the whole. */
  lemma {:induction false} ExposedWhole(frames: seq<Frame>, hole: seq<Node>, at: Place)
    requires Ordinary(frames, at) && Released(hole, PlaceIn(frames, at))
    requires FlowOf(hole, PlaceIn(frames, at), false, NoPending).production > Read(hole, false, false).production
    ensures FlowOf(Fill(frames, hole), at, false, NoPending).production > Read(Fill(frames, hole), false, false).production
    decreases |frames|
  {
    hide TestWords, Held, Released, Governs, FlowOf, Read, GovernsNode;
    if frames != [] {
      var fr, body := frames[0], Fill(frames[1..], hole);
      var n := fr.Around(body);
      ExposedWhole(frames[1..], hole, fr.Into(at));
      AroundFlow(fr, body, at);
      FillInOrder(frames[1..], hole, fr.Into(at));
      EarlyOnlyExposes(body, fr.Into(at), false, false, false);
      EarlyOnlyExposes(fr.back, at, GovernsNode(n), GovernsNode(n), false);
      BehindFront(fr.front, [n] + fr.back, at);
    }
  }

  /** The flag behind the frames is the flag in the hole, when nothing stands behind it. */
  lemma {:induction false} FlagBehind(frames: seq<Frame>, hole: seq<Node>, at: Place)
    requires Ordinary(frames, at) && forall i | 0 <= i < |frames| :: frames[i].back == []
    ensures FlowOf(Fill(frames, hole), at, false, NoPending).pending
      == FlowOf(hole, PlaceIn(frames, at), false, NoPending).pending
    decreases |frames|
  {
    hide TestWords, Held, Released, Governs, Read, GovernsNode, FlowNode;
    if frames != [] {
      var fr, body := frames[0], Fill(frames[1..], hole);
      FlagBehind(frames[1..], hole, fr.Into(at));
      AroundFlow(fr, body, at);
      BehindFront(fr.front, [fr.Around(body)] + fr.back, at);
    }
  }

  // ---------------------------------------------------------------------
  // Lists in parts
  // ---------------------------------------------------------------------

  /** The cut between `a` and `b` parts no unsafe block. */
  predicate Splits(a: seq<Node>, b: seq<Node>)
  {
    EndsUnsafe(a) && b != [] ==> !(b[0].Group? && b[0].bracket == Curly)
  }

  lemma {:induction false} FlowConcat(a: seq<Node>, b: seq<Node>, at: Place, t: bool, p: Pending)
    requires Splits(a, b)
    ensures var x := FlowOf(a, at, t, p);
      var y := FlowOf(b, at, x.inTest, x.pending);
      FlowOf(a + b, at, t, p) == Flow(x.production + y.production, x.test + y.test, y.inTest, y.pending)
    decreases |a|
  {
    hide FlowNode;
    if a == [] {
      assert a + b == b;
    } else {
      assert (a + b)[1..] == a[1..] + b && (a + b)[0] == a[0];
      SameNode(a, b, at, t, p);
      var first := FlowNode(a, at, t, p);
      FlowConcat(a[1..], b, at, first.inTest, first.pending);
    }
  }

  lemma {:induction false} ReadConcat(a: seq<Node>, b: seq<Node>, governed: bool, covered: bool)
    requires Splits(a, b)
    ensures var x := Read(a, governed, covered);
      var y := Read(b, x.governed, covered);
      Read(a + b, governed, covered) == Reading(x.production + y.production, x.test + y.test, y.governed)
    decreases |a|
  {
    hide ReadNode;
    if a == [] {
      assert a + b == b;
    } else {
      assert (a + b)[1..] == a[1..] + b && (a + b)[0] == a[0];
      SameRead(a, b, governed, covered);
      ReadConcat(a[1..], b, ReadNode(a, governed, covered).governed, covered);
    }
  }

  lemma SameAhead(a: seq<Node>, b: seq<Node>)
    requires a != [] && Splits(a, b)
    ensures UnsafeBlockAhead(a + b) == UnsafeBlockAhead(a) && (a + b)[0] == a[0]
  {
    assert (a + b)[0] == a[0] && (|a| > 1 ==> (a + b)[1] == a[1]) && (|a| == 1 && b != [] ==> (a + b)[1] == b[0]);
  }

  lemma SameNode(a: seq<Node>, b: seq<Node>, at: Place, t: bool, p: Pending)
    requires a != [] && Splits(a, b)
    ensures FlowNode(a + b, at, t, p) == FlowNode(a, at, t, p)
  {
    hide FlowOf, TestWords, UnsafeBlockAhead, Splits;
    SameAhead(a, b);
  }

  lemma SameRead(a: seq<Node>, b: seq<Node>, governed: bool, covered: bool)
    requires a != [] && Splits(a, b)
    ensures ReadNode(a + b, governed, covered) == ReadNode(a, governed, covered)
  {
    hide Read, TestWords, UnsafeBlockAhead, Splits;
    SameAhead(a, b);
  }

  lemma {:induction false} FlagConcat(a: seq<Node>, b: seq<Node>, at: Place, p: Pending)
    ensures FlagAfter(a + b, at, p) == FlagAfter(b, at, FlagAfter(a, at, p))
    decreases |a|
  {
    hide FlagNode;
    if a == [] {
      assert a + b == b;
    } else {
      assert (a + b)[1..] == a[1..] + b && (a + b)[0] == a[0];
      FlagConcat(a[1..], b, at, FlagNode(a[0], at, p));
    }
  }

  lemma {:induction false} HoldsConcat(a: seq<Node>, b: seq<Node>, at: Place, p: Pending)
    requires Splits(a, b)
    ensures Holds(a + b, at, p) <==> Holds(a, at, p) && Holds(b, at, FlagAfter(a, at, p))
    decreases |a|
  {
    hide FlagNode, Quiet, TestWords, UnsafeBlockAhead;
    if a == [] {
      assert a + b == b;
    } else {
      assert (a + b)[1..] == a[1..] + b;
      SameAhead(a, b);
      HoldsConcat(a[1..], b, at, FlagNode(a[0], at, p));
    }
  }

  // ---------------------------------------------------------------------
  // Late
  // ---------------------------------------------------------------------

  const UNSAFE := Word(Token(Unsafe, "unsafe"))

  /** An unsafe block and anything after it. */
  function Block(block: seq<Node>, more: seq<Node>): (nodes: seq<Node>) { [UNSAFE] + ([Group(Curly, block)] + more) }

  /** An item at the end of some groups, an unsafe block behind them, and anything after that. */
  function Followed(frames: seq<Frame>, item: Node, block: seq<Node>, more: seq<Node>): (nodes: seq<Node>)
  {
    Fill(frames, [item]) + Block(block, more)
  }

  /** For any item at the end of any groups, in any production code that is otherwise in order: the
      unsafe block behind it is counted right, with everything around it, if and only if the
      scanner's rule has the flag down by the end of the item. */
  lemma LateExact(c: Config, around: seq<Frame>, frames: seq<Frame>, words: seq<Token>, parts: seq<Node>,
                  block: seq<Node>, more: seq<Node>)
    requires var nodes := Fill(around, Followed(frames, Item(words, parts), block, more));
      WellFormed(nodes) && (CountSource(c, Print(nodes)).Ok? || Acceptable(c, nodes)) && !c.wholeFileIsTest
    requires Ordinary(around, START) && Ordinary(frames, PlaceIn(around, START)) && InOrder(Block(block, more), PlaceIn(around, START))
    requires (forall i | 0 <= i < |frames| :: frames[i].back == []) && !Governs(Fill(frames, [Item(words, parts)]))
    requires var to := PlaceIn(frames, PlaceIn(around, START));
      TestWords(words) && Holds(parts, to, Fresh(to)) && Released(parts, to)
    ensures var nodes := Fill(around, Followed(frames, Item(words, parts), block, more));
      var to := PlaceIn(frames, PlaceIn(around, START));
      && CountSource(c, Print(nodes)).Ok?
      && (CountSource(c, Print(nodes)).value.0 == Read(nodes, false, false).production
          <==> FlagAfter(parts, to, Fresh(to)) == NoPending)
  {
    hide Read, FlowOf, Held, Released, WellFormed, Print, CountSource, Acceptable, FlagAfter, Holds, TestWords, Governs, Ordinary;
    hide Fill, PlaceIn, Block;
    var at := PlaceIn(around, START);
    var to, item := PlaceIn(frames, at), Item(words, parts);
    var hole := Followed(frames, item, block, more);
    var nodes := Fill(around, hole);
    ScanIsFlow(c, nodes);
    assert Held([item], to) by { Single(item, to); }
    FillInOrder(frames, [item], at);
    Joined(Fill(frames, [item]), Block(block, more), at);
    FillInOrder(around, hole, START);
    if FlagAfter(parts, to, Fresh(to)) == NoPending {
      assert Released([item], to) by { Single(item, to); }
      ClassificationExact(c, nodes);
    } else {
      LateMasks(frames, words, parts, block, more, at);
      MaskedWhole(around, hole, START);
    }
  }

  lemma LateMasks(frames: seq<Frame>, words: seq<Token>, parts: seq<Node>, block: seq<Node>, more: seq<Node>, at: Place)
    requires Ordinary(frames, at) && Held(Followed(frames, Item(words, parts), block, more), at)
    requires (forall i | 0 <= i < |frames| :: frames[i].back == []) && !Governs(Fill(frames, [Item(words, parts)]))
    requires var to := PlaceIn(frames, at);
      TestWords(words) && Released(parts, to) && FlagAfter(parts, to, Fresh(to)) != NoPending
    ensures var nodes := Followed(frames, Item(words, parts), block, more);
      FlowOf(nodes, at, false, NoPending).production < Read(nodes, false, false).production
  {
    hide Read, FlowOf, Held, Released, FlagAfter, TestWords, Governs, Ordinary, Splits;
    var to, item, last := PlaceIn(frames, at), Item(words, parts), [Group(Curly, block)] + more;
    var a, b := Fill(frames, [item]), Block(block, more);
    Joined(a, b, at);
    Elements(b, at);
    assert b[1..] == last;
    FillEnds(frames, item, b);
    FlowConcat(a, b, at, false, NoPending);
    ReadConcat(a, b, false, false);
    FlagBehind(frames, [item], at);
    ItemAlone(words, parts, to);
    FlagExact(parts, to, false, Fresh(to));
    FlowTotal(a, at, false, NoPending);
    ReadTotal(a, false, false);
    LateOnlyMasks(a, at, false, NoPending, false, false);
    var p := FlowOf(a, at, false, NoPending).pending;
    StaleBlock(last, at, p);
    LateOnlyMasks(last, at, false, PendingStep(p, at, Unsafe), false, false);
  }

  lemma FillEnds(frames: seq<Frame>, n: Node, b: seq<Node>)
    requires !n.Word? && forall i | 0 <= i < |frames| :: frames[i].back == []
    ensures Splits(Fill(frames, [n]), b)
  {
    if frames != [] {
      var whole := Fill(frames, [n]);
      assert whole[|whole| - 1] == frames[0].Around(Fill(frames[1..], [n]));
    }
  }

  lemma ItemAlone(words: seq<Token>, parts: seq<Node>, at: Place)
    requires TestWords(words)
    ensures FlowOf([Item(words, parts)], at, false, NoPending).pending == FlowOf(parts, at, false, Fresh(at)).pending
  {
    hide TestWords;
    var nodes := [Item(words, parts)];
    assert nodes[1..] == [];
    var f := FlowNode(nodes, at, false, NoPending);
    assert FlowOf([], at, f.inTest, f.pending) == Flow(0, 0, f.inTest, f.pending);
  }

  /** An unsafe block under a stale flag. */
  lemma StaleBlock(last: seq<Node>, at: Place, p: Pending)
    requires last != [] && last[0].Group? && last[0].bracket == Curly && p.Pending?
    ensures FlowOf([UNSAFE] + last, at, false, p).production
      == FlowOf(last, at, false, PendingStep(p, at, Unsafe)).production
    ensures Read([UNSAFE] + last, false, false).production == 1 + Read(last, false, false).production
  {
    var nodes := [UNSAFE] + last;
    assert nodes[1..] == last;
  }

  // ---------------------------------------------------------------------
  // Early
  // ---------------------------------------------------------------------

  /** No attribute of its own at this level. */
  predicate Plain(nodes: seq<Node>) { forall i | 0 <= i < |nodes| :: !nodes[i].Item? }

  /** For any item, in any production code that is otherwise in order, with a first part at whose end
      the flag is to be up still and production code in the rest: the whole is counted right if and
      only if the scanner's rule has the flag up there. */
  lemma EarlyExact(c: Config, around: seq<Frame>, words: seq<Token>, front: seq<Node>, rest: seq<Node>, more: seq<Node>)
    requires var nodes := Fill(around, [Item(words, front + rest)] + more);
      WellFormed(nodes) && (CountSource(c, Print(nodes)).Ok? || Acceptable(c, nodes)) && !c.wholeFileIsTest
    requires Ordinary(around, START) && TestWords(words) && Plain(front) && Splits(front, rest) && !Governs(front)
    requires var at := PlaceIn(around, START);
      && Released([Item(words, front + rest)] + more, at) && Held(more, at)
      && (FlagAfter(front, at, Fresh(at)).Pending? ==> Holds(rest, at, FlagAfter(front, at, Fresh(at))))
    requires Read(rest, false, false).production > 0
    ensures var nodes := Fill(around, [Item(words, front + rest)] + more);
      var at := PlaceIn(around, START);
      && CountSource(c, Print(nodes)).Ok?
      && (CountSource(c, Print(nodes)).value.0 == Read(nodes, false, false).production
          <==> FlagAfter(front, at, Fresh(at)).Pending?)
  {
    hide Read, FlowOf, Held, Released, WellFormed, Print, CountSource, Acceptable, FlagAfter, Holds, TestWords, Governs, Ordinary;
    hide Plain, Splits, Fill, PlaceIn;
    var at, item := PlaceIn(around, START), Item(words, front + rest);
    var hole := [item] + more;
    var nodes := Fill(around, hole);
    ScanIsFlow(c, nodes);
    FillInOrder(around, hole, START);
    if FlagAfter(front, at, Fresh(at)).Pending? {
      PlainHolds(front, at, Fresh(at));
      HoldsConcat(front, rest, at, Fresh(at));
      assert Held([item], at) by { Single(item, at); }
      Joined([item], more, at);
      ClassificationExact(c, nodes);
    } else {
      EarlyExposes(words, front, rest, more, at);
      ExposedWhole(around, hole, START);
    }
  }

  /** Without attributes of its own, a list that ends with the flag up has had it up throughout. */
  lemma {:induction false} PlainHolds(nodes: seq<Node>, at: Place, p: Pending)
    requires Plain(nodes) && FlagAfter(nodes, at, p).Pending?
    ensures Holds(nodes, at, p) && p.Pending?
    decreases |nodes|
  {
    hide Quiet;
    if nodes != [] {
      PlainHolds(nodes[1..], at, FlagNode(nodes[0], at, p));
    }
  }

  lemma EarlyExposes(words: seq<Token>, front: seq<Node>, rest: seq<Node>, more: seq<Node>, at: Place)
    requires TestWords(words) && Splits(front, rest) && !Governs(front) && Read(rest, false, false).production > 0
    requires Released([Item(words, front + rest)] + more, at) && FlagAfter(front, at, Fresh(at)) == NoPending
    ensures var nodes := [Item(words, front + rest)] + more;
      FlowOf(nodes, at, false, NoPending).production > Read(nodes, false, false).production
  {
    hide Read, FlowOf, Released, FlagAfter, TestWords, Governs, Splits, GovernsNode;
    var item := Item(words, front + rest);
    Joined([item], more, at);
    Single(item, at);
    Joined(front, rest, at);
    FlowConcat(front, rest, at, false, Fresh(at));
    FlagExact(front, at, false, Fresh(at));
    FlowTotal(front, at, false, Fresh(at));
    EarlyOnlyExposes(rest, at, false, false, false);
    ItemThen(words, front + rest, more, at);
    FlagExact(front + rest, at, false, Fresh(at));
    EarlyOnlyExposes(more, at, Governs(front + rest), Governs(front + rest), false);
  }

  lemma ItemThen(words: seq<Token>, parts: seq<Node>, more: seq<Node>, at: Place)
    requires TestWords(words)
    ensures var f := FlowOf(parts, at, false, Fresh(at));
      FlowOf([Item(words, parts)] + more, at, false, NoPending).production
      == f.production + FlowOf(more, at, Governs(parts), f.pending).production
    ensures Read([Item(words, parts)] + more, false, false).production == Read(more, Governs(parts), false).production
  {
    hide TestWords, Governs;
    var nodes := [Item(words, parts)] + more;
    assert nodes[1..] == more;
    FlowTotal(parts, at, false, Fresh(at));
    ReadTotal(parts, false, true);
  }

  // ---------------------------------------------------------------------
  // Braces, and attributes in a signature
  // ---------------------------------------------------------------------

  /** The scanner passes over these braces with its flag up, because it takes a sign before them for
      an angle bracket that is still open. */
  ghost predicate PassesOver(head: seq<Node>, body: seq<Node>, at: Place)
  {
    var p := FlagAfter(head, at, Fresh(at));
    p.Pending? && p.angle > 0 && Quiet(body)
  }

  lemma {:induction false} FlagOrigin(nodes: seq<Node>, at: Place, p: Pending)
    requires p.Pending? ==> p.origin == at
    ensures var q := FlagAfter(nodes, at, p); q.Pending? ==> q.origin == at
    decreases nodes
  {
    hide Quiet, TestWords;
    if nodes != [] {
      if nodes[0].Item? { FlagOrigin(nodes[0].parts, at, Armed(nodes[0].words, at, p)); }
      FlagOrigin(nodes[1..], at, FlagNode(nodes[0], at, p));
    }
  }

  lemma FlagThen(head: seq<Node>, n: Node, at: Place, p: Pending)
    ensures FlagAfter(head + [n], at, p) == FlagNode(n, at, FlagAfter(head, at, p))
  {
    hide FlagNode;
    FlagConcat(head, [n], at, p);
    var q := FlagAfter(head, at, p);
    assert [n][1..] == [] && FlagAfter([], at, FlagNode(n, at, q)) == FlagNode(n, at, q);
  }

  lemma FlagBehindBraces(head: seq<Node>, body: seq<Node>, at: Place)
    ensures FlagAfter(head + [Group(Curly, body)], at, Fresh(at)).Pending? <==> PassesOver(head, body, at)
  {
    hide Quiet, FlagAfter;
    FlagThen(head, Group(Curly, body), at, Fresh(at));
    FlagOrigin(head, at, Fresh(at));
  }

  /** `#[attr] head { body } unsafe { block } more`: right if and only if the scanner takes the braces
      for the item's. */
  lemma BracesLate(c: Config, around: seq<Frame>, words: seq<Token>, head: seq<Node>, body: seq<Node>,
                   block: seq<Node>, more: seq<Node>)
    requires var nodes := Fill(around, Followed([], Item(words, head + [Group(Curly, body)]), block, more));
      WellFormed(nodes) && (CountSource(c, Print(nodes)).Ok? || Acceptable(c, nodes)) && !c.wholeFileIsTest
    requires Ordinary(around, START) && InOrder(Block(block, more), PlaceIn(around, START))
    requires TestWords(words) && !Governs(head)
    requires var at, parts := PlaceIn(around, START), head + [Group(Curly, body)];
      Holds(parts, at, Fresh(at)) && Released(parts, at)
    ensures var nodes := Fill(around, Followed([], Item(words, head + [Group(Curly, body)]), block, more));
      && CountSource(c, Print(nodes)).Ok?
      && (CountSource(c, Print(nodes)).value.0 == Read(nodes, false, false).production
          <==> !PassesOver(head, body, PlaceIn(around, START)))
  {
    hide Read, FlowOf, Held, Released, WellFormed, Print, CountSource, Acceptable, FlagAfter, Holds, TestWords, Governs;
    hide PassesOver, Ordinary, Block;
    var at, parts := PlaceIn(around, START), head + [Group(Curly, body)];
    FlagBehindBraces(head, body, at);
    Ungoverned(words, head, body);
    assert Fill([], [Item(words, parts)]) == [Item(words, parts)] && PlaceIn([], at) == at && Ordinary([], at) by { NoFrames(at); }
    LateExact(c, around, [], words, parts, block, more);
  }

  lemma NoFrames(at: Place)
    ensures Ordinary([], at)
  {
  }

  lemma {:induction false} GovernsConcat(a: seq<Node>, b: seq<Node>)
    ensures Governs(a + b) <==> Governs(a) || Governs(b)
    decreases |a|
  {
    hide GovernsNode;
    if a == [] {
      assert a + b == b;
    } else {
      assert (a + b)[1..] == a[1..] + b && (a + b)[0] == a[0];
      GovernsConcat(a[1..], b);
    }
  }

  lemma Ungoverned(words: seq<Token>, head: seq<Node>, body: seq<Node>)
    requires !Governs(head)
    ensures !Governs(head + [Group(Curly, body)]) && !Governs([Item(words, head + [Group(Curly, body)])])
  {
    var g, i := [Group(Curly, body)], [Item(words, head + [Group(Curly, body)])];
    GovernsConcat(head, g);
    assert g[1..] == [] && i[1..] == [];
  }

  /** `#[attr] head { body } rest more` with production code in the rest of the item: right if and only
      if the scanner does not take the braces for the item's. */
  lemma BracesEarly(c: Config, around: seq<Frame>, words: seq<Token>, head: seq<Node>, body: seq<Node>,
                    rest: seq<Node>, more: seq<Node>)
    requires var nodes := Fill(around, [Item(words, (head + [Group(Curly, body)]) + rest)] + more);
      WellFormed(nodes) && (CountSource(c, Print(nodes)).Ok? || Acceptable(c, nodes)) && !c.wholeFileIsTest
    requires Ordinary(around, START) && TestWords(words) && Plain(head) && !Governs(head)
    requires var at, front := PlaceIn(around, START), head + [Group(Curly, body)];
      && Released([Item(words, front + rest)] + more, at) && Held(more, at)
      && (PassesOver(head, body, at) ==> Holds(rest, at, FlagAfter(front, at, Fresh(at))))
    requires Read(rest, false, false).production > 0
    ensures var nodes := Fill(around, [Item(words, (head + [Group(Curly, body)]) + rest)] + more);
      && CountSource(c, Print(nodes)).Ok?
      && (CountSource(c, Print(nodes)).value.0 == Read(nodes, false, false).production
          <==> PassesOver(head, body, PlaceIn(around, START)))
  {
    hide Read, FlowOf, Held, Released, WellFormed, Print, CountSource, Acceptable, FlagAfter, Holds, TestWords, Governs;
    hide PassesOver, Ordinary, Fill, PlaceIn;
    var front := head + [Group(Curly, body)];
    FlagBehindBraces(head, body, PlaceIn(around, START));
    Ungoverned(words, head, body);
    EarlyExact(c, around, words, front, rest, more);
  }

  /** `#[attr] head ( group ) rest more`, any bracket that is not the item's own, with production code
      in the rest of the item: right if and only if the group holds no test item, though the group
      releases the flag of each. */
  lemma OverrideExact(c: Config, around: seq<Frame>, words: seq<Token>, head: seq<Node>, b: Bracket, group: seq<Node>,
                      rest: seq<Node>, more: seq<Node>)
    requires var nodes := Fill(around, [Item(words, (head + [Group(b, group)]) + rest)] + more);
      WellFormed(nodes) && (CountSource(c, Print(nodes)).Ok? || Acceptable(c, nodes)) && !c.wholeFileIsTest
    requires Ordinary(around, START) && TestWords(words) && Plain(head) && !Governs(head + [Group(b, group)])
    requires var at, front := PlaceIn(around, START), head + [Group(b, group)];
      && Released([Item(words, front + rest)] + more, at) && Held(more, at)
      && FlagAfter(head, at, Fresh(at)).Pending? && !Takes(at, FlagAfter(head, at, Fresh(at)), b)
      && (Quiet(group) ==> Holds(rest, at, FlagAfter(head, at, Fresh(at))))
    requires Read(rest, false, false).production > 0
    ensures var nodes := Fill(around, [Item(words, (head + [Group(b, group)]) + rest)] + more);
      && CountSource(c, Print(nodes)).Ok?
      && (CountSource(c, Print(nodes)).value.0 == Read(nodes, false, false).production <==> Quiet(group))
  {
    hide Read, FlowOf, Held, Released, WellFormed, Print, CountSource, Acceptable, FlagAfter, Holds, TestWords, Governs;
    hide Ordinary, Fill, PlaceIn, Quiet;
    var front, at := head + [Group(b, group)], PlaceIn(around, START);
    FlagThen(head, Group(b, group), at, Fresh(at));
    EarlyExact(c, around, words, front, rest, more);
  }
}
