/** Vault file names and directory listings: lower-case hexadecimal aliases, the
    names that are never listed, and when a listing is the sorted set of aliases. */
module VaultNames {
  import opened Bytes

  // ---------------------------------------------------------------------
  // Base16 (section 8 of RFC 4648), written in lower case, read in either
  // ---------------------------------------------------------------------

  function Digit(n: nat): (c: byte)
    requires n < 16
  {
    if n < 10 then 48 + n else 87 + n
  }

  function Value(c: byte): (n: Option<nat>)
    ensures n.Some? ==> n.value < 16
  {
    if 48 <= c <= 57 then Some(c - 48)
    else if 97 <= c <= 102 then Some(c - 87)
    else if 65 <= c <= 70 then Some(c - 55)
    else None
  }

  function Hex(s: bytes): (h: bytes)
    ensures |h| == 2 * |s|
  {
    if s == [] then [] else [Digit(s[0] / 16), Digit(s[0] % 16)] + Hex(s[1..])
  }

  function Unhex(h: bytes): (s: Option<bytes>)
  {
    if h == [] then Some([])
    else if |h| == 1 then None
    else
      var rest := Unhex(h[2..]);
      if Value(h[0]).None? || Value(h[1]).None? || rest.None? then None
      else Some([16 * Value(h[0]).value + Value(h[1]).value] + rest.value)
  }

  lemma {:induction false} UnhexHex(s: bytes)
    ensures Unhex(Hex(s)) == Some(s)
  {
    if s != [] {
      UnhexHex(s[1..]);
      assert Hex(s)[2..] == Hex(s[1..]);
      assert s == [s[0]] + s[1..];
    }
  }

  predicate LowerCase(h: bytes) { forall i | 0 <= i < |h| :: !(65 <= h[i] <= 70) }

  lemma LowerCaseHead(h: bytes)
    requires |h| >= 2
    ensures LowerCase(h) <==> !(65 <= h[0] <= 70) && !(65 <= h[1] <= 70) && LowerCase(h[2..])
  {
    assert forall i | 0 <= i < |h| - 2 :: h[2..][i] == h[i + 2];
    if !(65 <= h[0] <= 70) && !(65 <= h[1] <= 70) && LowerCase(h[2..]) {
      forall i | 0 <= i < |h|
        ensures !(65 <= h[i] <= 70)
      {
        assert i >= 2 ==> h[i] == h[2..][i - 2];
      }
    }
  }

  lemma DigitOfValue(c: byte)
    requires Value(c).Some?
    ensures Digit(Value(c).value) == c <==> !(65 <= c <= 70)
  {
  }

  /** Reading forgets case and nothing else. */
  lemma {:induction false} HexUnhex(h: bytes)
    requires Unhex(h).Some?
    ensures Hex(Unhex(h).value) == h <==> LowerCase(h)
  {
    hide LowerCase, Digit, Value;
    if h == [] {
      NothingIsLowerCase();
    } else {
      HexUnhex(h[2..]);
      LowerCaseHead(h);
      DigitOfValue(h[0]);
      DigitOfValue(h[1]);
      var s, rest := Unhex(h).value, Unhex(h[2..]).value;
      var hi, lo := Value(h[0]).value, Value(h[1]).value;
      assert s == [16 * hi + lo] + rest && s[1..] == rest;
      assert Hex(s) == [Digit(hi), Digit(lo)] + Hex(rest);
      assert Hex(s)[2..] == Hex(rest) && h == [h[0], h[1]] + h[2..];
    }
  }

  lemma NothingIsLowerCase()
    ensures LowerCase([])
  {
  }

  // ---------------------------------------------------------------------
  // Names
  // ---------------------------------------------------------------------

  const SUFFIX: bytes := [46, 118, 97, 117, 108, 116] // ".vault"

  /** `<hex alias>.vault`. */
  function EntryName(alias: bytes): (name: bytes) { Hex(alias) + SUFFIX }

  /** `.hav1-<hex nonce>.tmp`. */
  function SealedTemp(nonce: bytes): (name: bytes)
  {
    [46, 104, 97, 118, 49, 45] + Hex(nonce) + [46, 116, 109, 112]
  }

  function Decimal(n: nat): (s: bytes)
    ensures s != [] && forall i | 0 <= i < |s| :: 48 <= s[i] <= 57
  {
    (if n < 10 then [] else Decimal(n / 10)) + [48 + n % 10]
  }

  /** `.<hex alias>.tmp-<process>-<counter>`. */
  function PlainTemp(alias: bytes, process: nat, counter: nat): (name: bytes)
  {
    [46] + Hex(alias) + [46, 116, 109, 112, 45] + Decimal(process) + [45] + Decimal(counter)
  }

  /** `.<hex alias>.refresh.lock`. */
  function LockName(alias: bytes): (name: bytes)
  {
    [46] + Hex(alias) + [46, 114, 101, 102, 114, 101, 115, 104, 46, 108, 111, 99, 107]
  }

  /** `name.strip_suffix(".vault")`. */
  function Stem(name: bytes): (stem: Option<bytes>)
    ensures stem.Some? ==> name == stem.value + SUFFIX
  {
    if |name| >= 6 && name[|name| - 6..] == SUFFIX then Some(name[..|name| - 6]) else None
  }

  lemma StemOfEntry(alias: bytes)
    ensures Stem(EntryName(alias)) == Some(Hex(alias))
  {
    hide Hex;
    var name := EntryName(alias);
    assert name[|name| - 6..] == SUFFIX && name[..|name| - 6] == Hex(alias);
  }

  lemma EntryNameInjective(a: bytes, b: bytes)
    requires EntryName(a) == EntryName(b)
    ensures a == b
  {
    StemOfEntry(a);
    StemOfEntry(b);
    UnhexHex(a);
    UnhexHex(b);
  }

  /** Temporary and lock files are never mistaken for entries. */
  lemma OthersHaveNoStem(alias: bytes, nonce: bytes, process: nat, counter: nat)
    ensures Stem(SealedTemp(nonce)).None?
    ensures Stem(PlainTemp(alias, process, counter)).None?
    ensures Stem(LockName(alias)).None?
  {
    hide Hex, Decimal;
    EndsOtherwise(SealedTemp(nonce));
    EndsOtherwise(PlainTemp(alias, process, counter));
    EndsOtherwise(LockName(alias));
  }

  lemma EndsOtherwise(name: bytes)
    requires name != [] && name[|name| - 1] != 116
    ensures Stem(name).None?
  {
    if |name| >= 6 {
      assert name[|name| - 6..][5] == name[|name| - 1];
    }
  }

  /** Two writers collide on a temporary name only if they drew the same nonce. */
  lemma SealedTempInjective(m: bytes, n: bytes)
    requires SealedTemp(m) == SealedTemp(n)
    ensures m == n
  {
    hide Hex;
    var a, b := SealedTemp(m), SealedTemp(n);
    assert a[6..|a| - 4] == Hex(m) && b[6..|b| - 4] == Hex(n);
    UnhexHex(m);
    UnhexHex(n);
  }

  // ---------------------------------------------------------------------
  // File-name order is alias order
  // ---------------------------------------------------------------------

  lemma DigitOrder(m: nat, n: nat)
    requires m < 16 && n < 16
    ensures Digit(m) < Digit(n) <==> m < n
    ensures 46 < Digit(m)
  {
  }

  lemma {:induction false} EntryOrder(a: bytes, b: bytes)
    ensures Less(EntryName(a), EntryName(b)) <==> Less(a, b)
  {
    if a == [] {
      if b != [] {
        assert EntryName(b)[0] == Digit(b[0] / 16);
        DigitOrder(b[0] / 16, 0);
        assert EntryName(a) == SUFFIX;
      } else {
        LessTotal(EntryName(a), EntryName(b));
      }
    } else if b == [] {
      assert EntryName(a)[0] == Digit(a[0] / 16);
      DigitOrder(a[0] / 16, 0);
      assert EntryName(b) == SUFFIX;
    } else {
      EntryOrder(a[1..], b[1..]);
      EntryHead(a);
      EntryHead(b);
      TwoDigits(a[0], EntryName(a[1..]), b[0], EntryName(b[1..]));
    }
  }

  lemma EntryHead(a: bytes)
    requires a != []
    ensures EntryName(a) == [Digit(a[0] / 16), Digit(a[0] % 16)] + EntryName(a[1..])
  {
  }

  lemma TwoDigits(x: byte, s: bytes, y: byte, t: bytes)
    ensures Less([Digit(x / 16), Digit(x % 16)] + s, [Digit(y / 16), Digit(y % 16)] + t)
      <==> x < y || (x == y && Less(s, t))
  {
    var a, b := [Digit(x / 16), Digit(x % 16)] + s, [Digit(y / 16), Digit(y % 16)] + t;
    assert a[1..] == [Digit(x % 16)] + s && b[1..] == [Digit(y % 16)] + t;
    assert a[1..][1..] == s && b[1..][1..] == t;
    DigitOrder(x / 16, y / 16);
    DigitOrder(y / 16, x / 16);
    DigitOrder(x % 16, y % 16);
    DigitOrder(y % 16, x % 16);
  }

  // ---------------------------------------------------------------------
  // Sorted lists of aliases
  // ---------------------------------------------------------------------

  function Members(s: seq<bytes>): (m: set<bytes>) { set x | x in s }

  predicate StrictlySorted(s: seq<bytes>) { forall i, j | 0 <= i < j < |s| :: Less(s[i], s[j]) }

  predicate Sorted(s: seq<bytes>) { forall i, j | 0 <= i < j < |s| :: s[i] == s[j] || Less(s[i], s[j]) }

  /** A set has one strictly sorted enumeration. */
  lemma {:induction false} SortedUnique(a: seq<bytes>, b: seq<bytes>)
    requires StrictlySorted(a) && StrictlySorted(b)
    requires Members(a) == Members(b)
    ensures a == b
  {
    if a == [] || b == [] {
      MembersOfNothing(a);
      MembersOfNothing(b);
    } else {
      SameHead(a, b);
      SameHead(b, a);
      LessTotal(a[0], b[0]);
      TailSet(a);
      TailSet(b);
      SortedUnique(a[1..], b[1..]);
      assert a == [a[0]] + a[1..] && b == [b[0]] + b[1..];
    }
  }

  lemma MembersAppend(s: seq<bytes>, x: bytes)
    ensures Members(s + [x]) == Members(s) + {x}
  {
  }

  lemma SameMultisetSameMembers(s: seq<bytes>, t: seq<bytes>)
    requires multiset(s) == multiset(t)
    ensures Members(s) == Members(t)
  {
    forall x ensures x in s <==> x in t {
      assert x in s <==> x in multiset(s);
      assert x in t <==> x in multiset(t);
    }
  }

  lemma MembersOfNothing(a: seq<bytes>)
    ensures a == [] <==> Members(a) == {}
  {
    if a != [] {
      assert a[0] in Members(a);
    }
  }

  lemma SameHead(a: seq<bytes>, b: seq<bytes>)
    requires a != [] && b != [] && StrictlySorted(b) && Members(a) == Members(b)
    ensures a[0] == b[0] || Less(b[0], a[0])
  {
    assert a[0] in Members(a);
    var k :| 0 <= k < |b| && b[k] == a[0];
  }

  lemma TailSet(a: seq<bytes>)
    requires a != [] && StrictlySorted(a)
    ensures Members(a[1..]) == Members(a) - {a[0]}
  {
    forall x | x in a[1..]
      ensures x != a[0] && x in a
    {
      var k :| 0 <= k < |a[1..]| && a[1..][k] == x;
      assert a[k + 1] == x && Less(a[0], a[k + 1]);
      LessTotal(a[0], x);
    }
    forall x | x in a && x != a[0]
      ensures x in a[1..]
    {
      var k :| 0 <= k < |a| && a[k] == x;
      assert a[1..][k - 1] == x;
    }
  }

  function Insert(x: bytes, s: seq<bytes>): (t: seq<bytes>)
    ensures multiset(t) == multiset(s) + multiset{x}
  {
    if s == [] then [x]
    else if Less(s[0], x) then
      assert s == [s[0]] + s[1..];
      [s[0]] + Insert(x, s[1..])
    else [x] + s
  }

  /** `sort_by(cmp)`. */
  function Sort(s: seq<bytes>): (t: seq<bytes>)
    ensures multiset(t) == multiset(s)
  {
    if s == [] then [] else
    assert s == [s[0]] + s[1..];
    Insert(s[0], Sort(s[1..]))
  }

  lemma {:induction false} InsertSorted(x: bytes, s: seq<bytes>)
    requires Sorted(s)
    ensures Sorted(Insert(x, s))
  {
    if s != [] {
      if Less(s[0], x) {
        InsertSorted(x, s[1..]);
        var t := Insert(x, s[1..]);
        forall k | 0 <= k < |t|
          ensures s[0] == t[k] || Less(s[0], t[k])
        {
          assert t[k] in t;
          assert t[k] in multiset(t);
          if t[k] != x {
            assert t[k] in multiset(s[1..]);
            var m :| 0 <= m < |s[1..]| && s[1..][m] == t[k];
            assert s[m + 1] == t[k];
          }
        }
      } else {
        LessTotal(s[0], x);
        forall k | 0 <= k < |s|
          ensures x == s[k] || Less(x, s[k])
        {
          if x != s[0] && s[k] != s[0] {
            assert Less(s[0], s[k]);
            LessTransitive(x, s[0], s[k]);
          }
        }
      }
    }
  }

  lemma {:induction false} SortSorted(s: seq<bytes>)
    ensures Sorted(Sort(s))
  {
    if s != [] {
      SortSorted(s[1..]);
      InsertSorted(s[0], Sort(s[1..]));
    }
  }

  lemma SortedDistinct(s: seq<bytes>)
    requires Sorted(s) && forall x :: multiset(s)[x] <= 1
    ensures StrictlySorted(s)
  {
    forall i, j | 0 <= i < j < |s|
      ensures Less(s[i], s[j])
    {
      assert s == s[..i + 1] + s[i + 1..];
      assert s[i] in multiset(s[..i + 1]) by { assert s[..i + 1][i] == s[i]; }
      assert s[j] in multiset(s[i + 1..]) by { assert s[i + 1..][j - i - 1] == s[j]; }
      assert multiset(s)[s[i]] == multiset(s[..i + 1])[s[i]] + multiset(s[i + 1..])[s[i]];
    }
  }

  lemma StrictMeansDistinct(s: seq<bytes>, x: bytes)
    requires StrictlySorted(s)
    ensures multiset(s)[x] <= 1
  {
    if multiset(s)[x] > 1 {
      assert x in multiset(s);
      assert x in s;
      var i :| 0 <= i < |s| && s[i] == x;
      assert s == s[..i] + [x] + s[i + 1..];
      assert multiset(s) == multiset(s[..i]) + multiset{x} + multiset(s[i + 1..]);
      if x in multiset(s[..i]) {
        assert x in s[..i];
        var j :| 0 <= j < i && s[j] == x;
      } else {
        assert x in multiset(s[i + 1..]);
        assert x in s[i + 1..];
        var j :| 0 <= j < |s| - i - 1 && s[i + 1..][j] == x;
        assert s[i + 1 + j] == x;
      }
      LessTotal(x, x);
    }
  }

  // ---------------------------------------------------------------------
  // Listings
  // ---------------------------------------------------------------------

  /** The alias that the plain vault lists for a file name, if any. */
  function Listed(name: bytes): (alias: Option<bytes>)
  {
    if !ValidUtf8(name) || Stem(name).None? then None else
    var decoded := Unhex(Stem(name).value);
    if decoded.Some? && ValidUtf8(decoded.value) then decoded else None
  }

  function Decoded(names: seq<bytes>): (aliases: seq<bytes>)
  {
    if names == [] then []
    else
      var rest := Decoded(names[..|names| - 1]);
      match Listed(names[|names| - 1])
      case None => rest
      case Some(alias) => rest + [alias]
  }

  predicate Distinct(names: seq<bytes>) { forall i, j | 0 <= i < j < |names| :: names[i] != names[j] }

  /** The aliases that a directory holds an entry for. */
  ghost predicate Holds(names: seq<bytes>, alias: bytes) { ValidUtf8(alias) && EntryName(alias) in names }

  /** A name that is listed under an alias whose entry it is not: hexadecimal in upper case. */
  predicate Stray(name: bytes) { Listed(name).Some? && EntryName(Listed(name).value) != name }

  lemma StrayIsUpperCase(name: bytes)
    requires Listed(name).Some?
    ensures Stray(name) <==> !LowerCase(Stem(name).value)
  {
    hide Hex, Unhex, LowerCase, ValidUtf8;
    var stem := Stem(name).value;
    HexUnhex(stem);
    var alias := Listed(name).value;
    if EntryName(alias) == name {
      StemOfEntry(alias);
    }
  }

  lemma {:induction false} DecodedMembers(names: seq<bytes>, alias: bytes)
    ensures alias in Decoded(names) <==> exists n | n in names :: Listed(n) == Some(alias)
  {
    hide Listed;
    if names != [] {
      var front, last := names[..|names| - 1], names[|names| - 1];
      DecodedMembers(front, alias);
      assert names == front + [last];
    }
  }

  lemma EntryListed(alias: bytes)
    requires ValidUtf8(alias)
    ensures Listed(EntryName(alias)) == Some(alias)
  {
    hide Hex, Unhex;
    StemOfEntry(alias);
    UnhexHex(alias);
    AsciiIsUtf8(EntryName(alias)) by { HexIsAscii(alias); }
  }

  lemma {:induction false} HexIsAscii(s: bytes)
    ensures forall i | 0 <= i < |EntryName(s)| :: EntryName(s)[i] < 128
  {
    if s != [] {
      HexIsAscii(s[1..]);
      EntryHead(s);
      var tail := EntryName(s[1..]);
      var e := EntryName(s);
      assert e == [Digit(s[0] / 16), Digit(s[0] % 16)] + tail;
      forall i | 0 <= i < |e| ensures e[i] < 128 {
        if i >= 2 { assert e[i] == tail[i - 2]; }
      }
    }
  }

  lemma {:induction false} AsciiIsUtf8(s: bytes)
    requires forall i | 0 <= i < |s| :: s[i] < 128
    ensures ValidUtf8(s)
  {
    if s != [] {
      AsciiIsUtf8(s[1..]);
    }
  }

  /** Without strays, distinct names give distinct aliases. */
  lemma {:induction false} DecodedDistinct(names: seq<bytes>, alias: bytes)
    requires Distinct(names) && forall n | n in names :: !Stray(n)
    ensures multiset(Decoded(names))[alias] <= 1
  {
    hide Listed, EntryName;
    if names != [] {
      var front, last := names[..|names| - 1], names[|names| - 1];
      assert forall n | n in front :: n in names;
      DecodedDistinct(front, alias);
      assert last in names;
      if Listed(last) == Some(alias) {
        DecodedMembers(front, alias);
        assert alias !in Decoded(front);
      }
    }
  }

  /** The plain vault's listing is the sorted set of its aliases exactly when no stray is present. */
  lemma PlainListing(names: seq<bytes>)
    requires Distinct(names)
    ensures (StrictlySorted(Sort(Decoded(names))) && forall a :: a in Sort(Decoded(names)) <==> Holds(names, a))
      <==> forall n | n in names :: !Stray(n)
  {
    hide Sort, Decoded, Listed, EntryName, ValidUtf8;
    var out := Sort(Decoded(names));
    SortSorted(Decoded(names));
    SameMembers(names);
    if forall n | n in names :: !Stray(n) {
      forall a ensures multiset(out)[a] <= 1 { DecodedDistinct(names, a); }
      SortedDistinct(out);
      forall a ensures a in out <==> Holds(names, a) { HeldIffListed(names, a); }
    }
    if n :| n in names && Stray(n) {
      var a := Listed(n).value;
      assert a in out;
      if Holds(names, a) && StrictlySorted(out) {
        EntryListed(a);
        TwiceListed(names, n, EntryName(a), a);
        StrictMeansDistinct(out, a);
      }
    }
  }

  const UPPER_J: bytes := [52, 65] + SUFFIX // "4A.vault"
  const ALIAS_J: bytes := [74]

  /** A directory with the one name `4A.vault` lists the alias `J`, which has no entry; with `4a.vault`
      beside it, the alias is listed twice. */
  lemma StrayExample()
    ensures Decoded([UPPER_J]) == [ALIAS_J] && !Holds([UPPER_J], ALIAS_J)
    ensures Distinct([UPPER_J, EntryName(ALIAS_J)]) && Decoded([UPPER_J, EntryName(ALIAS_J)]) == [ALIAS_J, ALIAS_J]
    ensures Sort([ALIAS_J]) == [ALIAS_J] && Sort([ALIAS_J, ALIAS_J]) == [ALIAS_J, ALIAS_J]
  {
    var stem: bytes := [52, 65];
    assert Unhex(stem) == Some(ALIAS_J) by {
      assert stem[2..] == [] && Unhex(stem[2..]) == Some([]);
      assert Value(stem[0]) == Some(4) && Value(stem[1]) == Some(10);
      assert [16 * 4 + 10] + Unhex(stem[2..]).value == ALIAS_J;
    }
    assert UPPER_J[|UPPER_J| - 6..] == SUFFIX && UPPER_J[..|UPPER_J| - 6] == stem;
    assert Stem(UPPER_J) == Some(stem);
    AsciiIsUtf8(UPPER_J);
    AsciiIsUtf8(ALIAS_J);
    assert Listed(UPPER_J) == Some(ALIAS_J);
    assert UPPER_J != EntryName(ALIAS_J) by {
      assert UPPER_J[1] == 65;
      assert EntryName(ALIAS_J)[1] == Digit(10);
    }
    EntryListed(ALIAS_J);
    TwoListed(UPPER_J, EntryName(ALIAS_J), ALIAS_J);
    assert [ALIAS_J][1..] == [] && [ALIAS_J, ALIAS_J][1..] == [ALIAS_J];
    assert Sort([ALIAS_J]) == [ALIAS_J];
  }

  lemma TwoListed(m: bytes, n: bytes, alias: bytes)
    requires Listed(m) == Listed(n) == Some(alias)
    ensures Decoded([m]) == [alias] && Decoded([m, n]) == [alias, alias]
  {
    hide Listed;
    assert [m][..0] == [] && [m, n][..1] == [m];
    assert Decoded([]) == [];
  }

  lemma SameMembers(names: seq<bytes>)
    ensures forall a :: a in Sort(Decoded(names)) <==> exists n | n in names :: Listed(n) == Some(a)
  {
    hide Sort, Decoded, Listed;
    forall a
      ensures a in Sort(Decoded(names)) <==> exists n | n in names :: Listed(n) == Some(a)
    {
      DecodedMembers(names, a);
      assert a in Sort(Decoded(names)) <==> a in multiset(Sort(Decoded(names)));
      assert a in Decoded(names) <==> a in multiset(Decoded(names));
    }
  }

  lemma HeldIffListed(names: seq<bytes>, a: bytes)
    requires forall n | n in names :: !Stray(n)
    ensures (exists n | n in names :: Listed(n) == Some(a)) <==> Holds(names, a)
  {
    hide EntryName, ValidUtf8;
    if n :| n in names && Listed(n) == Some(a) {
      assert !Stray(n);
    }
    if Holds(names, a) {
      EntryListed(a);
    }
  }

  /** Two different names under one alias are both listed. */
  lemma {:induction false} TwiceListed(names: seq<bytes>, m: bytes, n: bytes, alias: bytes)
    requires m in names && n in names && m != n && Listed(m) == Some(alias) && Listed(n) == Some(alias)
    ensures multiset(Decoded(names))[alias] >= 2
  {
    hide Listed;
    var front, last := names[..|names| - 1], names[|names| - 1];
    assert names == front + [last];
    if m != last && n != last {
      TwiceListed(front, m, n, alias);
    } else {
      DecodedMembers(front, alias);
      assert alias in Decoded(front);
    }
  }

  // ---------------------------------------------------------------------
  // The listing loops
  // ---------------------------------------------------------------------

  /** `FileVault::list`. */
  method ListPlain(names: seq<bytes>) returns (aliases: seq<bytes>)
    ensures aliases == Sort(Decoded(names))
  {
    aliases := [];
    for i := 0 to |names|
      invariant aliases == Decoded(names[..i])
    {
      assert names[..i + 1][..i] == names[..i];
      var stem := Stem(names[i]);
      if ValidUtf8(names[i]) && stem.Some? {
        var decoded := Unhex(stem.value);
        if decoded.Some? && ValidUtf8(decoded.value) {
          aliases := aliases + [decoded.value];
        }
      }
    }
    assert names[..|names|] == names;
    aliases := Sort(aliases);
  }

  /** The name of a sealed entry, or no entry at all. */
  predicate Regular(name: bytes)
  {
    ValidUtf8(name) && Stem(name).Some? ==> Listed(name).Some? && !Stray(name)
  }

  /** The name is that of an entry, so that the file is opened and inspected. */
  predicate Inspected(name: bytes) { ValidUtf8(name) && Stem(name).Some? }

  /** `EncryptedFileVault::list`: refuses any `.vault` name that is not exactly an entry's, or whose file
      does not open as one, and otherwise lists the aliases in order. */
  method ListSealed(names: seq<bytes>, opens: bytes -> bool) returns (aliases: Option<seq<bytes>>)
    requires Distinct(names)
    ensures aliases.Some? <==> forall n | n in names :: Regular(n) && (Inspected(n) ==> opens(n))
    ensures aliases.Some? ==> StrictlySorted(aliases.value) && forall a :: a in aliases.value <==> Holds(names, a)
  {
    hide Hex, Unhex, ValidUtf8, Sort;
    var found := [];
    for i := 0 to |names|
      invariant found == Decoded(names[..i])
      invariant forall k | 0 <= k < i :: Regular(names[k]) && (Inspected(names[k]) ==> opens(names[k]))
    {
      assert names[..i + 1][..i] == names[..i];
      var stem := Stem(names[i]);
      if ValidUtf8(names[i]) && stem.Some? {
        var decoded := Unhex(stem.value);
        if decoded.None? || !ValidUtf8(decoded.value) {
          assert !Regular(names[i]);
          return None;
        }
        if Hex(decoded.value) != stem.value {
          HexUnhex(stem.value);
          StrayIsUpperCase(names[i]);
          assert !Regular(names[i]);
          return None;
        }
        if !opens(names[i]) {
          assert Inspected(names[i]);
          return None;
        }
        found := found + [decoded.value];
      }
    }
    assert names[..|names|] == names;
    assert forall n | n in names :: Regular(n) && !Stray(n);
    PlainListing(names);
    return Some(Sort(found));
  }
}
