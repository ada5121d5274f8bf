/** The native lifecycle log: a current file and four rotated ones, kept by calls that
    may fail or be killed between any two file operations. */
module LogRotation {
  import opened Bytes

  const CAP: nat := 1048576
  const OLDEST: nat := 4
  const NEWLINE: byte := 10

  /** What one call wrote: a whole line, or the part of it that reached the file. */
  type chunk = bytes

  /** File 0 is `native.log`, file i is `native.log.i`. */
  type Files = map<nat, seq<chunk>>

  function Content(f: Files, i: nat): (c: seq<chunk>) { if i in f then f[i] else [] }

  /** The oldest rotated file first, the current one last. */
  function Reading(f: Files): (c: seq<chunk>)
  {
    Joined(Content(f, 4), Content(f, 3), Content(f, 2), Content(f, 1), Content(f, 0))
  }

  function Joined(a: seq<chunk>, b: seq<chunk>, c: seq<chunk>, d: seq<chunk>, e: seq<chunk>): (all: seq<chunk>)
  {
    a + (b + (c + (d + e)))
  }

  /** An empty place can be anywhere. */
  lemma JoinedMoves(a: seq<chunk>, b: seq<chunk>, c: seq<chunk>, d: seq<chunk>)
    ensures Joined(a, [], b, c, d) == Joined([], a, b, c, d)
    ensures Joined(a, b, [], c, d) == Joined(a, [], b, c, d)
    ensures Joined(a, b, c, [], d) == Joined(a, b, [], c, d)
    ensures Joined(a, b, c, d, []) == Joined(a, b, c, [], d)
  {
    assert forall s: seq<chunk> :: [] + s == s && s + [] == s;
  }

  lemma JoinedDrop(a: seq<chunk>, b: seq<chunk>, c: seq<chunk>, d: seq<chunk>, e: seq<chunk>, all: seq<chunk>)
    requires Suffix(Joined(a, b, c, d, e), all)
    ensures Suffix(Joined([], b, c, d, e), all)
  {
    var rest := b + (c + (d + e));
    assert [] + rest == rest;
    SuffixTail(a, rest, all);
  }

  lemma JoinedAppend(a: seq<chunk>, b: seq<chunk>, c: seq<chunk>, d: seq<chunk>, e: seq<chunk>, x: chunk)
    ensures Joined(a, b, c, d, e + [x]) == Joined(a, b, c, d, e) + [x]
  {
    assert d + (e + [x]) == (d + e) + [x];
    assert c + ((d + e) + [x]) == (c + (d + e)) + [x];
    assert b + ((c + (d + e)) + [x]) == (b + (c + (d + e))) + [x];
  }

  function Size(c: seq<chunk>): (n: nat) { if c == [] then 0 else |c[0]| + Size(c[1..]) }

  predicate Suffix(s: seq<chunk>, all: seq<chunk>) { |s| <= |all| && s == all[|all| - |s|..] }

  lemma {:induction false} SizeAppend(c: seq<chunk>, x: chunk)
    ensures Size(c + [x]) == Size(c) + |x|
  {
    if c != [] {
      assert (c + [x])[1..] == c[1..] + [x];
      SizeAppend(c[1..], x);
    }
  }

  lemma SuffixTail(s: seq<chunk>, t: seq<chunk>, all: seq<chunk>)
    requires Suffix(s + t, all)
    ensures Suffix(t, all)
  {
    assert (s + t)[|s|..] == t;
  }

  lemma SuffixGrows(s: seq<chunk>, all: seq<chunk>, x: chunk)
    requires Suffix(s, all)
    ensures Suffix(s + [x], all + [x])
  {
  }

  // ---------------------------------------------------------------------
  // Rotation
  // ---------------------------------------------------------------------

  /** `rename` of one file to the next number, over whatever is there; missing files are skipped. */
  function Shifted(f: Files, i: nat): (g: Files) { if i in f then f[i + 1 := f[i]] - {i} else f }

  /** The files when `n` of the rotation's five operations are done: unlink the oldest (a failure
      to do so is ignored), then move 3, 2, 1 and 0 up. */
  function Rotating(f: Files, unlinks: bool, n: nat): (g: Files)
    requires n <= 5
    decreases n
  {
    if n == 0 then f
    else if n == 1 then (if unlinks then f - {OLDEST} else f)
    else Shifted(Rotating(f, unlinks, n - 1), 5 - n)
  }

  predicate FiveFiles(f: Files) { forall i | i in f :: i <= OLDEST }

  /** Moving a file up into a free place, or over the oldest, loses at most the oldest. */
  lemma ShiftReading(f: Files, i: nat, all: seq<chunk>)
    requires i < OLDEST && (i + 1 == OLDEST || i + 1 !in f) && FiveFiles(f) && Suffix(Reading(f), all)
    ensures FiveFiles(Shifted(f, i)) && i !in Shifted(f, i) && Suffix(Reading(Shifted(f, i)), all)
    ensures i + 1 !in f ==> Reading(Shifted(f, i)) == Reading(f)
  {
    hide Joined, Suffix;
    if i in f {
      var c4, c3, c2, c1, c0 := Content(f, 4), Content(f, 3), Content(f, 2), Content(f, 1), Content(f, 0);
      var g := Shifted(f, i);
      assert forall k :: Content(g, k) == if k == i + 1 then f[i] else if k == i then [] else Content(f, k);
      if i == 3 {
        JoinedDrop(c4, c3, c2, c1, c0, all);
        JoinedMoves(c3, c2, c1, c0);
      } else if i == 2 {
        JoinedMoves(c4, c2, c1, c0);
      } else if i == 1 {
        JoinedMoves(c4, c3, c1, c0);
      } else {
        JoinedMoves(c4, c3, c2, c0);
      }
    }
  }

  /** However far a rotation gets, the files still read as one contiguous stretch of the history. */
  lemma {:induction false} RotatingReading(f: Files, unlinks: bool, n: nat, all: seq<chunk>)
    requires n <= 5 && FiveFiles(f) && Suffix(Reading(f), all)
    ensures var g := Rotating(f, unlinks, n);
      FiveFiles(g) && Suffix(Reading(g), all) && (n >= 2 ==> 5 - n !in g)
    decreases n
  {
    hide Reading;
    if n == 1 {
      UnlinkReading(f, all);
    } else if n > 1 {
      RotatingReading(f, unlinks, n - 1, all);
      ShiftReading(Rotating(f, unlinks, n - 1), 5 - n, all);
    }
  }

  lemma UnlinkReading(f: Files, all: seq<chunk>)
    requires FiveFiles(f) && Suffix(Reading(f), all)
    ensures FiveFiles(f - {OLDEST}) && Suffix(Reading(f - {OLDEST}), all)
  {
    hide Joined, Suffix;
    JoinedDrop(Content(f, 4), Content(f, 3), Content(f, 2), Content(f, 1), Content(f, 0), all);
  }

  /** Rotation loses nothing but the oldest file, and nothing at all if there is none. */
  lemma {:induction false} RotatingLoses(f: Files, unlinks: bool, n: nat)
    requires n <= 5 && FiveFiles(f) && OLDEST !in f
    ensures Reading(Rotating(f, unlinks, n)) == Reading(f)
    ensures FiveFiles(Rotating(f, unlinks, n)) && (1 <= n ==> 5 - n !in Rotating(f, unlinks, n))
    decreases n
  {
    hide Reading;
    if n == 1 {
      assert f - {OLDEST} == f;
    } else if n > 1 {
      RotatingLoses(f, unlinks, n - 1);
      var g := Rotating(f, unlinks, n - 1);
      assert Suffix(Reading(g), Reading(g));
      ShiftReading(g, 5 - n, Reading(g));
    }
  }

  /** What a rotation drops, however far it gets: nothing, or the oldest file. */
  lemma {:induction false} RotatingDrops(f: Files, unlinks: bool, n: nat)
    requires n <= 5 && FiveFiles(f)
    ensures Reading(Rotating(f, unlinks, n)) in {Reading(f), Reading(f - {OLDEST})}
    ensures n >= 2 ==> 5 - n !in Rotating(f, unlinks, n)
    ensures FiveFiles(Rotating(f, unlinks, n))
    decreases n
  {
    hide Reading, Joined, Suffix;
    if n > 1 {
      RotatingDrops(f, unlinks, n - 1);
      var g, i := Rotating(f, unlinks, n - 1), 5 - n;
      WholeSuffix(Reading(g));
      ShiftReading(g, i, Reading(g));
      if n == 2 { OldestReplaced(f, unlinks); }
    }
  }

  /** Moving the third file over the oldest. */
  lemma OldestReplaced(f: Files, unlinks: bool)
    requires FiveFiles(f)
    ensures var g := Shifted(Rotating(f, unlinks, 1), 3);
      Reading(g) in {Reading(f), Reading(f - {OLDEST})}
  {
    hide Joined;
    var h := f - {OLDEST};
    var g := Shifted(Rotating(f, unlinks, 1), 3);
    if 3 in f {
      assert Content(g, 4) == f[3] && Content(g, 3) == [] && forall k | k < 3 :: Content(g, k) == Content(f, k);
      assert Content(h, 4) == [] && forall k | k < 4 :: Content(h, k) == Content(f, k);
      JoinedMoves(f[3], Content(f, 2), Content(f, 1), Content(f, 0));
    } else {
      assert g == Rotating(f, unlinks, 1);
    }
  }

  predicate Within(f: Files, cap: nat) { forall i | i in f :: Size(f[i]) <= cap }

  lemma ShiftSizes(f: Files, i: nat, cap: nat)
    requires Within(f, cap)
    ensures Within(Shifted(f, i), cap)
  {
    hide Size;
    forall k | k in Shifted(f, i) ensures Size(Shifted(f, i)[k]) <= cap {
      assert Shifted(f, i)[k] == if i in f && k == i + 1 then f[i] else f[k];
      assert i in f ==> Size(f[i]) <= cap;
    }
  }

  lemma {:induction false} RotatingSizes(f: Files, unlinks: bool, n: nat, cap: nat)
    requires n <= 5 && Within(f, cap)
    ensures Within(Rotating(f, unlinks, n), cap)
    decreases n
  {
    if n > 1 {
      hide Within, Shifted;
      RotatingSizes(f, unlinks, n - 1, cap);
      ShiftSizes(Rotating(f, unlinks, n - 1), 5 - n, cap);
    }
  }

  // ---------------------------------------------------------------------
  // One call
  // ---------------------------------------------------------------------

  predicate NeedsRotation(f: Files, line: chunk) { 0 in f && Size(f[0]) + |line| + 1 > CAP }

  function Appended(f: Files, c: chunk): (g: Files) { f[0 := Content(f, 0) + [c]] }

  /** Where a call ends: it is refused or killed before the rotation is done, or before the current
      file is opened, or while writing (`Wrote(n)`: n bytes reached the file), or it succeeds. */
  datatype End = Rotated(n: nat) | Unopened | Wrote(n: nat) | Finished

  datatype Call = Call(line: chunk, unlinks: bool, end: End)

  function Line(line: chunk): (c: chunk) { line + [NEWLINE] }

  /** What a call adds to the history, if anything. */
  function Written(c: Call): (w: seq<chunk>)
  {
    match c.end
    case Finished => [Line(c.line)]
    case Wrote(n) => [if n <= |c.line| then c.line[..n] else Line(c.line)]
    case _ => []
  }

  predicate Possible(f: Files, c: Call)
  {
    && (c.end.Rotated? ==> c.end.n < 5 && NeedsRotation(f, c.line))
    && (c.end.Wrote? ==> c.end.n <= |c.line|)
  }

  function After(f: Files, c: Call): (g: Files)
    requires Possible(f, c)
  {
    var steps := if !NeedsRotation(f, c.line) then 0 else if c.end.Rotated? then c.end.n else 5;
    var g := Rotating(f, c.unlinks, steps);
    if Written(c) == [] then g else Appended(g, Written(c)[0])
  }

  class NativeLog {
    var files: Files

    /** Renames as the system does; false is an error other than a missing file. */
    method Rename(i: nat, works: bool) returns (ok: bool)
      modifies this
      ensures ok == works && files == if works then Shifted(old(files), i) else old(files)
    {
      if works && i in files {
        files := files[i + 1 := files[i]] - {i};
      }
      return works;
    }

    /** Appends one line, rotating first if it would not fit. `c.end` and `c.unlinks` say what the
        system makes of the call. */
    method Record(c: Call) returns (ok: bool)
      requires Possible(files, c)
      modifies this
      ensures files == After(old(files), c)
      ensures ok <==> c.end.Finished?
    {
      ghost var before := files;
      if 0 in files && Size(files[0]) + |c.line| + 1 > CAP {
        if c.end == Rotated(0) { return false; }
        if c.unlinks { files := files - {OLDEST}; }
        var index, done := 3, 1;
        while index >= 1
          invariant 0 <= index <= 3 && done == 4 - index
          invariant files == Rotating(before, c.unlinks, done)
          invariant c.end.Rotated? ==> c.end.n >= done
        {
          var moved := Rename(index, c.end != Rotated(done));
          if !moved { return false; }
          index, done := index - 1, done + 1;
        }
        var moved := Rename(0, c.end != Rotated(4));
        if !moved { return false; }
      }
      if c.end.Unopened? { return false; }
      var present := if 0 in files then files[0] else [];
      if c.end.Wrote? {
        files := files[0 := present + [c.line[..c.end.n]]];
        return false;
      }
      files := files[0 := present + [c.line + [NEWLINE]]];
      return true;
    }
  }

  // ---------------------------------------------------------------------
  // Every run
  // ---------------------------------------------------------------------

  /** The files after each of a sequence of calls. */
  ghost predicate Run(states: seq<Files>, calls: seq<Call>)
  {
    && |states| == |calls| + 1 && states[0] == map[]
    && forall i | 0 <= i < |calls| :: Possible(states[i], calls[i]) && states[i + 1] == After(states[i], calls[i])
  }

  function AllWritten(calls: seq<Call>): (w: seq<chunk>)
  {
    if calls == [] then [] else AllWritten(calls[..|calls| - 1]) + Written(calls[|calls| - 1])
  }

  lemma AfterReading(f: Files, c: Call, all: seq<chunk>)
    requires FiveFiles(f) && Suffix(Reading(f), all) && Possible(f, c)
    ensures FiveFiles(After(f, c)) && Suffix(Reading(After(f, c)), all + Written(c))
  {
    hide Reading, Rotating, Suffix;
    var steps := if !NeedsRotation(f, c.line) then 0 else if c.end.Rotated? then c.end.n else 5;
    var g := Rotating(f, c.unlinks, steps);
    RotatingReading(f, c.unlinks, steps, all);
    if Written(c) == [] {
      assert all + [] == all;
    } else {
      AppendReading(g, Written(c)[0]);
      SuffixGrows(Reading(g), all, Written(c)[0]);
    }
  }

  lemma AppendReading(f: Files, x: chunk)
    ensures Reading(Appended(f, x)) == Reading(f) + [x]
  {
    hide Joined;
    JoinedAppend(Content(f, 4), Content(f, 3), Content(f, 2), Content(f, 1), Content(f, 0), x);
  }

  lemma AfterFits(f: Files, c: Call)
    requires FiveFiles(f) && Within(f, CAP) && Possible(f, c) && |c.line| + 1 <= CAP
    ensures Within(After(f, c), CAP)
  {
    hide Rotating, Size;
    var rotates := NeedsRotation(f, c.line);
    var steps := if !rotates then 0 else if c.end.Rotated? then c.end.n else 5;
    var g := Rotating(f, c.unlinks, steps);
    RotatingSizes(f, c.unlinks, steps, CAP);
    if Written(c) != [] {
      assert |Written(c)[0]| <= |c.line| + 1;
      SizeAppend(Content(g, 0), Written(c)[0]);
      EmptySize();
      if rotates {
        assert 0 !in g by { assert Suffix(Reading(f), Reading(f)); RotatingReading(f, c.unlinks, 5, Reading(f)); }
      } else {
        assert g == f by { NoRotation(f, c.unlinks); }
      }
      assert Size(Content(g, 0) + [Written(c)[0]]) <= CAP;
      forall i | i in After(f, c) ensures Size(After(f, c)[i]) <= CAP {
        if i != 0 { assert Size(g[i]) <= CAP; }
      }
    }
  }

  /** A line too long for any file goes over the cap: the condition on lines cannot be dropped. */
  lemma OversizedLine(f: Files, c: Call)
    requires Possible(f, c) && c.end.Finished? && |c.line| + 1 > CAP
    ensures 0 in After(f, c) && Size(After(f, c)[0]) > CAP
  {
    hide Rotating, Size;
    var g := Rotating(f, c.unlinks, if NeedsRotation(f, c.line) then 5 else 0);
    SizeAppend(Content(g, 0), Line(c.line));
  }

  lemma EmptySize()
    ensures Size([]) == 0
  {
  }

  lemma NoRotation(f: Files, unlinks: bool)
    ensures Rotating(f, unlinks, 0) == f
  {
  }

  /** Over every run, whatever failed or was killed and where: at most five files, which read as a
      contiguous suffix of everything written, whole chunks in order. */
  lemma {:induction false} EveryRunReads(states: seq<Files>, calls: seq<Call>, i: nat)
    requires Run(states, calls) && i < |states|
    ensures FiveFiles(states[i]) && Suffix(Reading(states[i]), AllWritten(calls[..i]))
  {
    if i > 0 {
      hide Reading, Rotating, After, Suffix, Written, Possible;
      EveryRunReads(states, calls, i - 1);
      assert Possible(states[i - 1], calls[i - 1]) && states[i - 1 + 1] == After(states[i - 1], calls[i - 1]);
      AfterReading(states[i - 1], calls[i - 1], AllWritten(calls[..i - 1]));
      assert calls[..i][..i - 1] == calls[..i - 1];
    }
  }

  /** What one call does to the reading: it drops nothing, or the oldest file, and then adds what it wrote. */
  lemma CallDrops(f: Files, c: Call)
    requires FiveFiles(f) && Possible(f, c)
    ensures Reading(After(f, c)) in {Reading(f) + Written(c), Reading(f - {OLDEST}) + Written(c)}
  {
    hide Reading, Rotating;
    var steps := if !NeedsRotation(f, c.line) then 0 else if c.end.Rotated? then c.end.n else 5;
    RotatingDrops(f, c.unlinks, steps);
    if Written(c) != [] {
      AppendReading(Rotating(f, c.unlinks, steps), Written(c)[0]);
      assert Written(c) == [Written(c)[0]];
    } else {
      assert Reading(f) + [] == Reading(f) && Reading(f - {OLDEST}) + [] == Reading(f - {OLDEST});
    }
  }

  /** And no file exceeds the cap, if every line fits in a file. */
  lemma {:induction false} EveryRunFits(states: seq<Files>, calls: seq<Call>, i: nat)
    requires Run(states, calls) && (forall k | 0 <= k < |calls| :: |calls[k].line| + 1 <= CAP) && i < |states|
    ensures Within(states[i], CAP) && FiveFiles(states[i])
  {
    if i > 0 {
      hide Reading, Rotating, After, Within, Possible, Suffix;
      EveryRunFits(states, calls, i - 1);
      assert Possible(states[i - 1], calls[i - 1]) && states[i - 1 + 1] == After(states[i - 1], calls[i - 1]);
      AfterFits(states[i - 1], calls[i - 1]);
      assert FiveFiles(states[i]) by {
        assert Suffix(Reading(states[i - 1]), Reading(states[i - 1])) by { WholeSuffix(Reading(states[i - 1])); }
        AfterReading(states[i - 1], calls[i - 1], Reading(states[i - 1]));
      }
    }
  }

  lemma WholeSuffix(s: seq<chunk>)
    ensures Suffix(s, s)
  {
  }

  /** Nothing is lost before the fourth rotated file exists. */
  lemma NothingLost(f: Files, c: Call)
    requires FiveFiles(f) && OLDEST !in f && Possible(f, c)
    ensures Reading(After(f, c)) == Reading(f) + Written(c)
  {
    hide Reading, Rotating;
    var steps := if !NeedsRotation(f, c.line) then 0 else if c.end.Rotated? then c.end.n else 5;
    RotatingLoses(f, c.unlinks, steps);
    if Written(c) != [] {
      AppendReading(Rotating(f, c.unlinks, steps), Written(c)[0]);
    }
  }

  // ---------------------------------------------------------------------
  // When a call rotates, and what it leaves
  // ---------------------------------------------------------------------

  /** The line would take the current file over 1048576 bytes. */
  predicate WouldOverflow(f: Files, line: chunk) { 0 in f && Size(f[0]) + |line| + 1 > 1048576 }

  predicate SameFile(f: Files, i: nat, g: Files, j: nat) { (i in f <==> j in g) && (i in f ==> f[i] == g[j]) }

  /** A line that fits is appended to the current file, and no other file is touched. */
  lemma FittingAppends(f: Files, c: Call)
    requires Possible(f, c) && !WouldOverflow(f, c.line)
    ensures var g := After(f, c);
      && g - {0} == f - {0}
      && Content(g, 0) == Content(f, 0) + Written(c) && (0 in g <==> 0 in f || c.end.Finished? || c.end.Wrote?)
    ensures c.end.Finished? ==> Content(After(f, c), 0) == Content(f, 0) + [c.line + [10]]
    ensures c.end.Wrote? ==> Content(After(f, c), 0) == Content(f, 0) + [c.line[..c.end.n]]
  {
    hide Size;
    NoRotation(f, c.unlinks);
    if Written(c) == [] { assert Content(f, 0) + Written(c) == Content(f, 0); }
  }

  /** A line that does not fit gets a current file of its own, and every older file moves up by one;
      the oldest goes, unless its removal failed and nothing takes its place. */
  lemma OverflowRotates(f: Files, c: Call)
    requires Possible(f, c) && WouldOverflow(f, c.line) && !c.end.Rotated?
    ensures var g := After(f, c);
      && Content(g, 0) == Written(c)
      && SameFile(g, 1, f, 0) && SameFile(g, 2, f, 1) && SameFile(g, 3, f, 2)
      && (if 3 in f || c.unlinks then SameFile(g, 4, f, 3) else SameFile(g, 4, f, 4))
    ensures c.end.Finished? ==> Content(After(f, c), 0) == [c.line + [10]]
    ensures c.end.Wrote? ==> Content(After(f, c), 0) == [c.line[..c.end.n]]
  {
    hide Size, Rotating;
    Rotated(f, c.unlinks);
    assert [] + Written(c) == Written(c);
  }

  /** After three of the five operations. */
  lemma HalfRotated(f: Files, unlinks: bool)
    ensures var g := Rotating(f, unlinks, 3);
      && SameFile(g, 0, f, 0) && SameFile(g, 1, f, 1) && 2 !in g && SameFile(g, 3, f, 2)
      && (if 3 in f || unlinks then SameFile(g, 4, f, 3) else SameFile(g, 4, f, 4))
  {
    var f1, f2 := Rotating(f, unlinks, 1), Rotating(f, unlinks, 2);
    assert f1 == if unlinks then f - {OLDEST} else f;
    assert f2 == Shifted(f1, 3) && Rotating(f, unlinks, 3) == Shifted(f2, 2);
  }

  lemma Rotated(f: Files, unlinks: bool)
    ensures var g := Rotating(f, unlinks, 5);
      && 0 !in g && SameFile(g, 1, f, 0) && SameFile(g, 2, f, 1) && SameFile(g, 3, f, 2)
      && (if 3 in f || unlinks then SameFile(g, 4, f, 3) else SameFile(g, 4, f, 4))
  {
    HalfRotated(f, unlinks);
    var f3, f4 := Rotating(f, unlinks, 3), Rotating(f, unlinks, 4);
    assert f4 == Shifted(f3, 1) && Rotating(f, unlinks, 5) == Shifted(f4, 0);
    hide Rotating;
  }

  /** The bytes that calls ask to write. */
  function Asked(calls: seq<Call>): (n: nat)
  {
    if calls == [] then 0 else Asked(calls[..|calls| - 1]) + |calls[|calls| - 1].line| + 1
  }

  lemma {:induction false} SizeConcat(a: seq<chunk>, b: seq<chunk>)
    ensures Size(a + b) == Size(a) + Size(b)
  {
    if a == [] {
      assert a + b == b;
    } else {
      assert (a + b)[1..] == a[1..] + b;
      SizeConcat(a[1..], b);
    }
  }

  lemma WrittenSize(c: Call)
    ensures Size(Written(c)) <= |c.line| + 1 && (c.end.Finished? ==> Size(Written(c)) == |c.line| + 1)
  {
    if Written(c) != [] { assert Written(c)[1..] == [] && Size(Written(c)) == |Written(c)[0]| + Size([]); }
  }

  lemma {:induction false} WrittenWithinAsked(calls: seq<Call>)
    ensures Size(AllWritten(calls)) <= Asked(calls)
    ensures (forall k | 0 <= k < |calls| :: calls[k].end.Finished?) ==> Size(AllWritten(calls)) == Asked(calls)
  {
    hide Written;
    if calls != [] {
      var last := |calls| - 1;
      WrittenWithinAsked(calls[..last]);
      WrittenSize(calls[last]);
      SizeConcat(AllWritten(calls[..last]), Written(calls[last]));
    }
  }

  lemma OnlyCurrent(f: Files)
    requires forall i | i in f :: i == 0
    ensures Reading(f) == Content(f, 0)
  {
  }

  /** While all that was asked for fits in one file, nothing is rotated and nothing is lost, whatever
      fails or is killed. */
  lemma {:induction false} KeptWhole(states: seq<Files>, calls: seq<Call>, i: nat)
    requires Run(states, calls) && i < |states| && Asked(calls[..i]) <= 1048576
    ensures (forall k | k in states[i] :: k == 0) && Reading(states[i]) == Content(states[i], 0) == AllWritten(calls[..i])
  {
    hide Written, Size, Reading, After;
    if i > 0 {
      assert calls[..i][..i - 1] == calls[..i - 1];
      KeptWhole(states, calls, i - 1);
      assert Possible(states[i - 1], calls[i - 1]) && states[i - 1 + 1] == After(states[i - 1], calls[i - 1]);
      WrittenWithinAsked(calls[..i - 1]);
      FittingAppends(states[i - 1], calls[i - 1]);
      assert states[i] - {0} == map[] by { assert states[i - 1] - {0} == map[]; }
      assert forall k | k in states[i] && k != 0 :: k in states[i] - {0};
    }
    OnlyCurrent(states[i]);
  }

  /** In particular nothing is lost while at most 1048576 bytes have been written, if no call failed. */
  lemma NothingLostWithinCap(states: seq<Files>, calls: seq<Call>, i: nat)
    requires Run(states, calls) && i < |states|
    requires (forall k | 0 <= k < i :: calls[k].end.Finished?) && Size(AllWritten(calls[..i])) <= 1048576
    ensures Reading(states[i]) == AllWritten(calls[..i])
  {
    hide Run, Size, Reading, AllWritten;
    assert |states| == |calls| + 1 by { RunLength(states, calls); }
    WrittenWithinAsked(calls[..i]);
    KeptWhole(states, calls, i);
  }

  lemma RunLength(states: seq<Files>, calls: seq<Call>)
    requires Run(states, calls)
    ensures |states| == |calls| + 1
  {
  }

  /** A line that fits no file, and a disk that takes none of it. */
  const LOST := Call(seq(1048576, _ => 0), true, Wrote(0))

  lemma Pushes(f: Files)
    requires 0 in f
    ensures Possible(f, LOST)
    ensures var g := After(f, LOST);
      0 in g && g[0] == [[]] && SameFile(g, 1, f, 0) && SameFile(g, 2, f, 1) && SameFile(g, 3, f, 2) && SameFile(g, 4, f, 3)
  {
    hide Rotating;
    assert Written(LOST) == [[]];
    OverflowRotates(f, LOST);
  }

  /** The condition cannot be on what was written: five calls that ask for too much and write nothing
      push a short line out. */
  lemma LostThoughShort() returns (states: seq<Files>, calls: seq<Call>)
    ensures Run(states, calls) && |calls| == 6 && Size(AllWritten(calls)) <= 1048576
    ensures Reading(states[6]) != AllWritten(calls)
  {
    hide After, Size, Reading;
    var c := Call([1], true, Finished);
    var s1 := After(map[], c);
    FittingAppends(map[], c);
    Pushes(s1);
    var s2 := After(s1, LOST);
    Pushes(s2);
    var s3 := After(s2, LOST);
    Pushes(s3);
    var s4 := After(s3, LOST);
    Pushes(s4);
    var s5 := After(s4, LOST);
    Pushes(s5);
    var s6 := After(s5, LOST);
    states, calls := [map[], s1, s2, s3, s4, s5, s6], [c, LOST, LOST, LOST, LOST, LOST];
    assert |Reading(s6)| == 5 by { FiveChunks(s6); }
    LostWritten(c, calls);
  }

  lemma FiveChunks(f: Files)
    requires forall i | 0 <= i <= 4 :: i in f && |f[i]| == 1
    ensures |Reading(f)| == 5
  {
  }

  lemma LostWritten(c: Call, calls: seq<Call>)
    requires c.end.Finished? && |c.line| == 1 && calls == [c, LOST, LOST, LOST, LOST, LOST]
    ensures |AllWritten(calls)| == 6 && Size(AllWritten(calls)) == 2
  {
    hide Size;
    WrittenSize(c);
    LostAgain([c], 5, calls);
    assert [c][..0] == [] && AllWritten([]) == [] && AllWritten([c]) == [] + Written(c) == Written(c);
  }

  lemma {:induction false} LostAgain(before: seq<Call>, n: nat, calls: seq<Call>)
    requires |calls| == |before| + n && calls[..|before|] == before && forall k | |before| <= k < |calls| :: calls[k] == LOST
    ensures |AllWritten(calls)| == |AllWritten(before)| + n && Size(AllWritten(calls)) == Size(AllWritten(before))
    decreases n
  {
    if n > 0 {
      var front := calls[..|calls| - 1];
      assert front[..|before|] == before;
      LostAgain(before, n - 1, front);
      assert Written(LOST) == [[]] && Written(LOST)[1..] == [] && Size(Written(LOST)) == 0 + Size([]);
      SizeConcat(AllWritten(front), Written(LOST));
    } else {
      assert calls == before;
    }
  }
}
