/** The reference tokenizer's merge counter: greedy merging of adjacent tokens by rank,
    behind a memo table. */
module BytePairs {
  import opened Bytes

  type token = bytes
  type Ranks = map<token, int>

  predicate HasBytes(ranks: Ranks) { forall b: byte :: [b] in ranks }

  function Singles(piece: bytes): (t: seq<token>) { seq(|piece|, i requires 0 <= i < |piece| => [piece[i]]) }

  predicate Mergeable(ranks: Ranks, t: seq<token>, i: int) { 0 <= i < |t| - 1 && t[i] + t[i + 1] in ranks }

  function Rank(ranks: Ranks, t: seq<token>, i: int): (r: int)
    requires Mergeable(ranks, t, i)
  {
    ranks[t[i] + t[i + 1]]
  }

  /** The pair to merge next: of least rank, and leftmost among those. */
  ghost predicate IsBest(ranks: Ranks, t: seq<token>, i: int)
  {
    && Mergeable(ranks, t, i)
    && forall j | Mergeable(ranks, t, j) ::
         Rank(ranks, t, i) < Rank(ranks, t, j) || (Rank(ranks, t, i) == Rank(ranks, t, j) && i <= j)
  }

  ghost predicate Stuck(ranks: Ranks, t: seq<token>) { forall i :: !Mergeable(ranks, t, i) }

  function Merged(t: seq<token>, i: int): (u: seq<token>)
    requires 0 <= i < |t| - 1
  {
    t[..i] + [t[i] + t[i + 1]] + t[i + 2..]
  }

  // ---------------------------------------------------------------------
  // Greedy reduction
  // ---------------------------------------------------------------------

  /** The better of two candidate pairs, comparing ranks and then positions as tuples. */
  function Better(ranks: Ranks, t: seq<token>, best: Option<nat>, i: nat): (r: Option<nat>)
    requires best.Some? ==> Mergeable(ranks, t, best.value)
  {
    if !Mergeable(ranks, t, i) then best
    else if best.Some? && Rank(ranks, t, best.value) <= Rank(ranks, t, i) then best
    else Some(i)
  }

  /** The best among the first `n` pairs. */
  function BestOf(ranks: Ranks, t: seq<token>, n: nat): (r: Option<nat>)
    ensures r.Some? ==> r.value < n && Mergeable(ranks, t, r.value)
    ensures r.None? ==> forall j | 0 <= j < n :: !Mergeable(ranks, t, j)
    ensures r.Some? ==> forall j | 0 <= j < n && Mergeable(ranks, t, j) ::
      Rank(ranks, t, r.value) < Rank(ranks, t, j) || (Rank(ranks, t, r.value) == Rank(ranks, t, j) && r.value <= j)
  {
    if n == 0 then None else Better(ranks, t, BestOf(ranks, t, n - 1), n - 1)
  }

  function Best(ranks: Ranks, t: seq<token>): (r: Option<nat>)
    ensures r.Some? ==> IsBest(ranks, t, r.value)
    ensures r.None? <==> Stuck(ranks, t)
  {
    BestOf(ranks, t, |t|)
  }

  /** All merges, best first, until none is left. */
  function Reduce(ranks: Ranks, t: seq<token>): (r: seq<token>)
    ensures Stuck(ranks, r) && |r| <= |t| && (t != [] ==> r != [])
    decreases |t|
  {
    match Best(ranks, t)
    case None => t
    case Some(i) => Reduce(ranks, Merged(t, i))
  }

  function Flat(t: seq<token>): (b: bytes) { if t == [] then [] else t[0] + Flat(t[1..]) }

  lemma {:induction false} FlatConcat(s: seq<token>, t: seq<token>)
    ensures Flat(s + t) == Flat(s) + Flat(t)
  {
    if s == [] {
      assert s + t == t;
    } else {
      assert (s + t)[1..] == s[1..] + t;
      FlatConcat(s[1..], t);
      ConcatAssociative(s[0], Flat(s[1..]), Flat(t));
    }
  }

  lemma MergedFlat(t: seq<token>, i: int)
    requires 0 <= i < |t| - 1
    ensures Flat(Merged(t, i)) == Flat(t)
  {
    hide Flat;
    var pair, rest := [t[i], t[i + 1]], t[i + 2..];
    assert t == t[..i] + (pair + rest);
    FlatConcat(t[..i], pair + rest);
    FlatConcat(pair, rest);
    FlatConcat(t[..i] + [t[i] + t[i + 1]], rest);
    FlatConcat(t[..i], [t[i] + t[i + 1]]);
    assert Flat(pair) == t[i] + t[i + 1] && Flat([t[i] + t[i + 1]]) == t[i] + t[i + 1] by { FlatPair(t[i], t[i + 1]); }
    ConcatAssociative(Flat(t[..i]), t[i] + t[i + 1], Flat(rest));
  }

  lemma FlatPair(a: token, b: token)
    ensures Flat([a, b]) == a + b && Flat([a + b]) == a + b
  {
    assert [a, b][1..] == [b] && [b][1..] == [] && b + [] == b;
    assert Flat([b]) == b && Flat([a, b]) == a + Flat([b]);
    assert [a + b][1..] == [] && (a + b) + [] == a + b;
  }

  lemma {:induction false} SinglesFlat(piece: bytes)
    ensures Flat(Singles(piece)) == piece
  {
    if piece != [] {
      SinglesFlat(piece[1..]);
      assert Singles(piece)[1..] == Singles(piece[1..]);
      assert piece == [piece[0]] + piece[1..];
    }
  }

  predicate AllKnown(ranks: Ranks, t: seq<token>) { forall i | 0 <= i < |t| :: t[i] in ranks }

  /** The merges keep the bytes, and make only tokens of the vocabulary. */
  lemma {:induction false} ReduceKeeps(ranks: Ranks, t: seq<token>)
    ensures Flat(Reduce(ranks, t)) == Flat(t)
    ensures AllKnown(ranks, t) ==> AllKnown(ranks, Reduce(ranks, t))
    decreases |t|
  {
    hide Flat, Best;
    match Best(ranks, t)
    case None =>
    case Some(i) =>
      MergedFlat(t, i);
      ReduceKeeps(ranks, Merged(t, i));
  }

  ghost predicate BestMerge(ranks: Ranks, t: seq<token>, u: seq<token>) { exists i :: IsBest(ranks, t, i) && u == Merged(t, i) }

  /** A run of best merges. */
  ghost predicate Greedy(ranks: Ranks, ts: seq<seq<token>>)
  {
    ts != [] && forall k | 0 <= k < |ts| - 1 :: BestMerge(ranks, ts[k], ts[k + 1])
  }

  lemma BestUnique(ranks: Ranks, t: seq<token>, i: int)
    requires IsBest(ranks, t, i)
    ensures Best(ranks, t) == Some(i)
  {
    assert Mergeable(ranks, t, i);
    var j := Best(ranks, t).value;
    assert Mergeable(ranks, t, j);
  }

  /** Every maximal run of best merges ends in the same tokens. */
  lemma {:induction false} GreedyEnds(ranks: Ranks, ts: seq<seq<token>>)
    requires Greedy(ranks, ts) && Stuck(ranks, ts[|ts| - 1])
    ensures ts[|ts| - 1] == Reduce(ranks, ts[0])
    decreases |ts|
  {
    hide BestMerge, Stuck;
    if |ts| == 1 {
      assert Best(ranks, ts[0]).None?;
    } else {
      BestMergeReduces(ranks, ts[0], ts[1]);
      var rest := ts[1..];
      forall k | 0 <= k < |rest| - 1 ensures BestMerge(ranks, rest[k], rest[k + 1]) {
        assert BestMerge(ranks, ts[k + 1], ts[k + 1 + 1]);
      }
      GreedyEnds(ranks, rest);
    }
  }

  lemma BestMergeReduces(ranks: Ranks, t: seq<token>, u: seq<token>)
    requires BestMerge(ranks, t, u)
    ensures Reduce(ranks, t) == Reduce(ranks, u)
  {
    var i :| IsBest(ranks, t, i) && u == Merged(t, i);
    BestUnique(ranks, t, i);
  }

  // ---------------------------------------------------------------------
  // Counting
  // ---------------------------------------------------------------------

  /** The count without the memo table. */
  function Count(ranks: Ranks, piece: bytes): (n: nat)
  {
    if piece in ranks then 1 else |Reduce(ranks, Singles(piece))|
  }

  /** A piece counts one exactly when it is itself a token; the count never exceeds its length. */
  lemma CountsOne(ranks: Ranks, piece: bytes)
    requires HasBytes(ranks) && piece != []
    ensures Count(ranks, piece) == 1 <==> piece in ranks
    ensures 1 <= Count(ranks, piece) <= |piece|
  {
    hide Reduce, Flat;
    var r := Reduce(ranks, Singles(piece));
    if |r| == 1 {
      ReduceKeeps(ranks, Singles(piece));
      SinglesFlat(piece);
      assert r[0] == piece by { FlatOne(r); }
      assert AllKnown(ranks, Singles(piece));
    }
  }

  lemma FlatOne(r: seq<token>)
    requires |r| == 1
    ensures Flat(r) == r[0]
  {
    assert r[1..] == [] && r[0] + [] == r[0];
  }

  /** The tokens behind a count: in the vocabulary, spelling the piece, with no pair left to merge. */
  lemma Tokenizes(ranks: Ranks, piece: bytes)
    requires HasBytes(ranks)
    ensures var r := if piece in ranks then [piece] else Reduce(ranks, Singles(piece));
      |r| == Count(ranks, piece) && AllKnown(ranks, r) && Flat(r) == piece && Stuck(ranks, r)
  {
    hide Reduce, Flat;
    if piece in ranks {
      FlatOne([piece]);
    } else {
      ReduceKeeps(ranks, Singles(piece));
      SinglesFlat(piece);
    }
  }

  class ReferenceTokenizer {
    const ranks: Ranks
    var cache: map<bytes, nat>

    /** Whatever is remembered is right. */
    ghost predicate Valid() reads this { forall p | p in cache :: cache[p] == Count(ranks, p) }

    constructor (ranks: Ranks)
      ensures this.ranks == ranks && Valid() && cache == map[]
    {
      this.ranks, this.cache := ranks, map[];
    }

    method PieceCount(piece: bytes) returns (n: nat)
      requires Valid()
      modifies this
      ensures n == Count(ranks, piece) && Valid()
      ensures forall p | p in old(cache) :: p in cache
    {
      hide Reduce;
      if piece in cache { return cache[piece]; }
      if piece in ranks { return 1; }
      var tokens := Reduced(ranks, Singles(piece));
      cache := cache[piece := |tokens|];
      return |tokens|;
    }

    method CountPieces(pieces: seq<bytes>) returns (n: nat)
      requires Valid()
      modifies this
      ensures n == Sum(ranks, pieces) && Valid()
    {
      hide Count;
      n := 0;
      assert pieces[..|pieces|] == pieces;
      for i := 0 to |pieces|
        invariant Valid() && n == Sum(ranks, pieces[..i])
      {
        var one := PieceCount(pieces[i]);
        assert pieces[..i + 1][..i] == pieces[..i];
        n := n + one;
      }
    }
  }

  function Sum(ranks: Ranks, pieces: seq<bytes>): (n: nat)
  {
    if pieces == [] then 0 else Sum(ranks, pieces[..|pieces| - 1]) + Count(ranks, pieces[|pieces| - 1])
  }

  /** The loop: find the least candidate, splice the pair, until no candidate is left. */
  method Reduced(ranks: Ranks, start: seq<token>) returns (tokens: seq<token>)
    ensures tokens == Reduce(ranks, start)
  {
    hide Best, IsBest, Stuck;
    tokens := start;
    while |tokens| > 1
      invariant Reduce(ranks, tokens) == Reduce(ranks, start)
      decreases |tokens|
    {
      var best: Option<nat> := None;
      for i := 0 to |tokens| - 1
        invariant best == BestOf(ranks, tokens, i)
      {
        best := Better(ranks, tokens, best, i);
      }
      assert best == Best(ranks, tokens) by { LastPair(ranks, tokens); }
      if best.None? { return; }
      var i := best.value;
      tokens := tokens[..i] + [tokens[i] + tokens[i + 1]] + tokens[i + 2..];
    }
    assert Best(ranks, tokens).None? by { TooFew(ranks, tokens); }
  }

  lemma LastPair(ranks: Ranks, t: seq<token>)
    requires |t| > 1
    ensures Best(ranks, t) == BestOf(ranks, t, |t| - 1)
  {
    assert !Mergeable(ranks, t, |t| - 1);
  }

  lemma TooFew(ranks: Ranks, t: seq<token>)
    requires |t| <= 1
    ensures Best(ranks, t).None?
  {
    assert Stuck(ranks, t);
  }

  // ---------------------------------------------------------------------
  // Common prefixes
  // ---------------------------------------------------------------------

  /** All sequences have an element at `i`, the same one up to its canonical form. */
  predicate Agree<T>(canonical: T -> bytes, lists: seq<seq<T>>, i: nat)
    requires lists != []
  {
    (forall k | 0 <= k < |lists| :: i < |lists[k]|) &&
    (forall k | 0 <= k < |lists| :: canonical(lists[k][i]) == canonical(lists[0][i]))
  }

  /** The longest prefix of the first list that all lists share; no lists share nothing. */
  method CommonPrefix<T>(canonical: T -> bytes, lists: seq<seq<T>>) returns (prefix: seq<T>)
    ensures lists == [] ==> prefix == []
    ensures lists != [] ==> prefix <= lists[0] && forall i | 0 <= i < |prefix| :: Agree(canonical, lists, i)
    ensures lists != [] ==> !Agree(canonical, lists, |prefix|)
  {
    prefix := [];
    if lists == [] { return; }
    while forall k | 0 <= k < |lists| :: |prefix| < |lists[k]|
      invariant prefix <= lists[0] && forall i | 0 <= i < |prefix| :: Agree(canonical, lists, i)
      decreases |lists[0]| - |prefix|
    {
      var i := |prefix|;
      if exists k | 0 <= k < |lists| :: canonical(lists[k][i]) != canonical(lists[0][i]) { return; }
      assert Agree(canonical, lists, i);
      prefix := prefix + [lists[0][i]];
    }
  }

  /** Three bytes of which both pairs are tokens: the pair of least rank is merged, the first on a tie. */
  lemma LeastRankFirst(ranks: Ranks, a: byte, b: byte, c: byte)
    requires [a, b] in ranks && [b, c] in ranks && [a, b, c] !in ranks
    ensures Reduce(ranks, Singles([a, b, c])) == if ranks[[a, b]] <= ranks[[b, c]] then [[a, b], [c]] else [[a], [b, c]]
    ensures Count(ranks, [a, b, c]) == 2
  {
    var t := Singles([a, b, c]);
    assert t == [[a], [b], [c]] && [a] + [b] == [a, b] && [b] + [c] == [b, c];
    assert Mergeable(ranks, t, 0) && Mergeable(ranks, t, 1) && !Mergeable(ranks, t, 2);
    var i := if ranks[[a, b]] <= ranks[[b, c]] then 0 else 1;
    assert IsBest(ranks, t, i);
    BestUnique(ranks, t, i);
    var u := Merged(t, i);
    assert u == if i == 0 then [[a, b], [c]] else [[a], [b, c]];
    assert [a, b] + [c] == [a, b, c] && [a] + [b, c] == [a, b, c];
    assert Stuck(ranks, u);
    assert Best(ranks, u).None?;
  }
}
