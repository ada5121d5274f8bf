/** The vault as an atomic object: a map from aliases to secrets that answers one
    operation at a time and survives crashes. `MemoryVault` is its in-memory form. */
module VaultSpec {
  import opened Bytes
  import VaultNames

  datatype Op = Put(alias: bytes, secret: bytes) | Resolve(alias: bytes) | Delete(alias: bytes)

  /** `Failed` is any error other than a missing credential: it promises nothing. */
  datatype Reply = Stored | Removed | Found(secret: bytes) | Absent | Failed

  /** The values of one alias, oldest first. */
  type history = h: seq<Option<bytes>> | h != [] witness [None]

  /** The history of each alias, and how far back in it a crash may go. */
  datatype Book = Book(values: map<bytes, history>, floors: map<bytes, nat>)

  function History(b: Book, a: bytes): (h: history) { if a in b.values then b.values[a] else [None] }

  function Floor(b: Book, a: bytes): (n: nat) { if a in b.floors then b.floors[a] else 0 }

  function Current(b: Book, a: bytes): (v: Option<bytes>) { History(b, a)[|History(b, a)| - 1] }

  function Noted(b: Book, a: bytes, v: Option<bytes>): (c: Book)
  {
    b.(values := b.values[a := History(b, a) + [v]])
  }

  /** A call in progress: not yet effective, or effective with this reply at this point of the history. */
  datatype Phase = Called(op: Op) | Taken(op: Op, reply: Reply, at: nat)

  datatype Spec = Spec(book: Book, phases: map<nat, Phase>)

  datatype Label = Call(thread: nat, op: Op) | Return(thread: nat, reply: Reply) | Inner | Crash

  // ---------------------------------------------------------------------
  // The atomic map
  // ---------------------------------------------------------------------

  /** What one operation does to a plain map: the body of `MemoryVault`. */
  function Apply(m: map<bytes, bytes>, op: Op): (r: (map<bytes, bytes>, Reply))
  {
    match op
    case Put(a, v) => (m[a := v], Stored)
    case Resolve(a) => (m, if a in m then Found(m[a]) else Absent)
    case Delete(a) => (m - {a}, Removed)
  }

  /** The map that a book stands for. */
  ghost predicate Shows(b: Book, m: map<bytes, bytes>)
  {
    forall a ::
      match Current(b, a)
      case None => a !in m
      case Some(v) => a in m && m[a] == v
  }

  /** A call takes effect, in one step, on the whole map. */
  function Effect(b: Book, op: Op): (r: (Book, Phase))
  {
    var n := |History(b, op.alias)|;
    match op
    case Put(a, v) => (Noted(b, a, Some(v)), Taken(op, Stored, n))
    case Resolve(a) => (b, Taken(op, match Current(b, a) case None => Absent case Some(v) => Found(v), n - 1))
    case Delete(a) =>
      if Current(b, a).None? then (b, Taken(op, Removed, n - 1)) else (Noted(b, a, None), Taken(op, Removed, n))
  }

  /** The effect on the book is the effect on the map, with the map's reply. */
  lemma EffectIsApply(b: Book, op: Op, m: map<bytes, bytes>)
    requires Shows(b, m)
    ensures Shows(Effect(b, op).0, Apply(m, op).0)
    ensures Effect(b, op).1.reply == Apply(m, op).1
  {
    var c, n := Effect(b, op).0, Apply(m, op).0;
    forall a
      ensures match Current(c, a) case None => a !in n case Some(v) => a in n && n[a] == v
    {
      assert match Current(b, a) case None => a !in m case Some(v) => a in m && m[a] == v;
    }
  }

  // ---------------------------------------------------------------------
  // The automaton
  // ---------------------------------------------------------------------

  /** An acknowledged change can no longer be lost. */
  predicate Durable(b: Book, p: Phase)
    requires p.Taken?
  {
    p.op.Resolve? || p.at <= Floor(b, p.op.alias)
  }

  /** Changes become durable; nothing else happens. */
  ghost predicate Settles(b: Book, c: Book)
  {
    && c.values == b.values
    && forall a :: Floor(b, a) <= Floor(c, a) && (Floor(c, a) == Floor(b, a) || Floor(c, a) < |History(b, a)|)
  }

  /** A crash cuts each history somewhere at or above its floor. */
  ghost predicate CutBack(b: Book, c: Book)
  {
    forall a ::
      && Floor(b, a) <= Floor(c, a) < |History(b, a)|
      && History(c, a) == History(b, a)[..Floor(c, a) + 1]
  }

  ghost predicate SpecStep(s: Spec, s': Spec, l: Label)
  {
    match l
    case Call(t, op) => t !in s.phases && s' == s.(phases := s.phases[t := Called(op)])
    case Return(t, reply) =>
      && t in s.phases && s' == s.(phases := s.phases - {t})
      && (reply == Failed ||
          (s.phases[t].Taken? && s.phases[t].reply == reply && Durable(s.book, s.phases[t])))
    case Inner =>
      || s' == s
      || (exists t | t in s.phases ::
            && s.phases[t].Called?
            && var (book, phase) := Effect(s.book, s.phases[t].op);
               s' == Spec(book, s.phases[t := phase]))
      || (s'.phases == s.phases && Settles(s.book, s'.book))
    case Crash => s'.phases == map[] && CutBack(s.book, s'.book)
  }

  ghost predicate SpecRun(states: seq<Spec>, labels: seq<Label>)
  {
    && |states| == |labels| + 1
    && forall i | 0 <= i < |labels| :: SpecStep(states[i], states[i + 1], labels[i])
  }

  // ---------------------------------------------------------------------
  // What the automaton promises
  // ---------------------------------------------------------------------

  /** No step but a crash removes anything from a history, and no step lowers a floor. */
  lemma StepKeepsHistory(s: Spec, s': Spec, l: Label, a: bytes)
    requires SpecStep(s, s', l) && Floor(s.book, a) < |History(s.book, a)|
    ensures Floor(s.book, a) <= Floor(s'.book, a) < |History(s'.book, a)|
    ensures History(s.book, a)[..Floor(s.book, a) + 1] == History(s'.book, a)[..Floor(s.book, a) + 1]
    ensures l != Crash ==> History(s.book, a) <= History(s'.book, a)
  {
    if l.Crash? {
      var f := Floor(s.book, a);
      assert History(s'.book, a) == History(s.book, a)[..Floor(s'.book, a) + 1];
      assert History(s'.book, a)[..f + 1] == History(s.book, a)[..f + 1];
    }
  }

  /** Whatever was durable once stays in the history through every later step and crash. */
  lemma {:induction false} DurableForever(states: seq<Spec>, labels: seq<Label>, a: bytes, k: nat)
    requires SpecRun(states, labels) && k <= Floor(states[0].book, a) < |History(states[0].book, a)|
    ensures var last := states[|labels|].book;
      k <= Floor(last, a) < |History(last, a)| && History(last, a)[..k + 1] == History(states[0].book, a)[..k + 1]
    decreases |labels|
  {
    hide SpecStep;
    if labels != [] {
      assert SpecStep(states[0], states[1], labels[0]);
      StepKeepsHistory(states[0], states[1], labels[0], a);
      var f := Floor(states[0].book, a);
      assert History(states[0].book, a)[..f + 1][..k + 1] == History(states[1].book, a)[..f + 1][..k + 1];
      assert History(states[0].book, a)[..k + 1] == History(states[1].book, a)[..k + 1];
      assert SpecRun(states[1..], labels[1..]) by {
        forall i | 0 <= i < |labels[1..]|
          ensures SpecStep(states[1..][i], states[1..][i + 1], labels[1..][i])
        {
          assert SpecStep(states[i + 1], states[i + 2], labels[i + 1]);
        }
      }
      DurableForever(states[1..], labels[1..], a, k);
    }
  }

  // ---------------------------------------------------------------------
  // MemoryVault
  // ---------------------------------------------------------------------

  class MemoryVault {
    var secrets: map<bytes, bytes>

    constructor ()
      ensures secrets == map[]
    {
      secrets := map[];
    }

    method PutSecret(alias: bytes, secret: bytes)
      modifies this
      ensures secrets == Apply(old(secrets), Put(alias, secret)).0
    {
      secrets := secrets[alias := secret];
    }

    method ResolveSecret(alias: bytes) returns (r: Reply)
      ensures (secrets, r) == Apply(secrets, Resolve(alias))
    {
      return if alias in secrets then Found(secrets[alias]) else Absent;
    }

    method DeleteSecret(alias: bytes)
      modifies this
      ensures secrets == Apply(old(secrets), Delete(alias)).0
    {
      secrets := secrets - {alias};
    }

    /** The keys in order, as the ordered map yields them. */
    method List() returns (aliases: seq<bytes>)
      ensures VaultNames.StrictlySorted(aliases) && VaultNames.Members(aliases) == secrets.Keys
    {
      hide VaultNames.Sort;
      var left := secrets.Keys;
      var found: seq<bytes> := [];
      while left != {}
        invariant left <= secrets.Keys
        invariant VaultNames.Members(found) == secrets.Keys - left
        invariant forall x :: multiset(found)[x] <= 1
      {
        var a :| a in left;
        assert a !in VaultNames.Members(found);
        assert a !in found;
        VaultNames.MembersAppend(found, a);
        assert secrets.Keys - (left - {a}) == (secrets.Keys - left) + {a};
        found := found + [a];
        left := left - {a};
      }
      aliases := VaultNames.Sort(found);
      VaultNames.SortSorted(found);
      VaultNames.SortedDistinct(aliases);
      VaultNames.SameMultisetSameMembers(aliases, found);
    }
  }

  /** A directory whose entries are the map's keys is listed exactly as the map is. */
  lemma ListingsAgree(names: seq<bytes>, keys: set<bytes>, fromMap: seq<bytes>)
    requires VaultNames.Distinct(names) && forall n | n in names :: !VaultNames.Stray(n)
    requires forall a :: a in keys <==> VaultNames.Holds(names, a)
    requires VaultNames.StrictlySorted(fromMap) && VaultNames.Members(fromMap) == keys
    ensures VaultNames.Sort(VaultNames.Decoded(names)) == fromMap
  {
    hide VaultNames.Sort, VaultNames.Decoded, VaultNames.Stray, VaultNames.Holds;
    VaultNames.PlainListing(names);
    var listed := VaultNames.Sort(VaultNames.Decoded(names));
    forall a ensures a in VaultNames.Members(listed) <==> a in keys {
    }
    VaultNames.SortedUnique(listed, fromMap);
  }
}
