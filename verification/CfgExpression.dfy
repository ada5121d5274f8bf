/** The cfg-attribute analysis of the unsafe-block scanner: a word-list parser, a
    brute-force satisfiability check, and the proof that together they decide
    whether an attribute confines its item to test builds. */
module CfgExpression {

  datatype Operator = All | Any | Not

  /** A parsed cfg expression; the option `test` has become the constant false. */
  datatype Cfg =
    | Atom(name: string)
    | Constant(value: bool)
    | Node(op: Operator, operands: seq<Cfg>)

  const MAX_ATOMS: nat := 16

  function OperatorOf(word: string): (op: seq<Operator>)
  {
    if word == "all" then [All] else if word == "any" then [Any] else if word == "not" then [Not] else []
  }

  function Join(words: seq<string>): (s: string)
  {
    if words == [] then "" else words[0] + Join(words[1..])
  }

  // ---------------------------------------------------------------------
  // The parser
  // ---------------------------------------------------------------------

  datatype Parsed<+T> = Nothing | Got(value: T, rest: seq<string>)

  /** How many words an atom takes, given the parentheses open inside it. */
  function AtomLength(words: seq<string>, nested: nat): (n: nat)
    ensures n <= |words|
  {
    if words == [] then 0
    else if words[0] == "(" then 1 + AtomLength(words[1..], nested + 1)
    else if words[0] == ")" then (if nested == 0 then 0 else 1 + AtomLength(words[1..], nested - 1))
    else if words[0] == "," && nested == 0 then 0
    else 1 + AtomLength(words[1..], nested)
  }

  predicate OpensOperator(words: seq<string>)
  {
    |words| >= 2 && OperatorOf(words[0]) != [] && words[1] == "("
  }

  function AtomOrConstant(name: string): (e: Cfg)
  {
    if name == "test" then Constant(false) else Atom(name)
  }

  function Parse(words: seq<string>): (p: Parsed<Cfg>)
    ensures p.Got? ==> |p.rest| < |words|
    decreases |words|, 1
  {
    if words == [] then Nothing
    else if OpensOperator(words) then
      var op := OperatorOf(words[0])[0];
      match ParseOperands(words[2..])
      case Nothing => Nothing
      case Got(operands, rest) =>
        if op == Not && |operands| != 1 then Nothing else Got(Node(op, operands), rest)
    else
      var n := 1 + AtomLength(words[1..], 0);
      Got(AtomOrConstant(Join(words[..n])), words[n..])
  }

  /** The operands up to and including the closing parenthesis. */
  function ParseOperands(words: seq<string>): (p: Parsed<seq<Cfg>>)
    ensures p.Got? ==> |p.rest| < |words|
    decreases |words|, 2
  {
    if words == [] then Nothing
    else if words[0] == ")" then Got([], words[1..])
    else
      match Parse(words)
      case Nothing => Nothing
      case Got(e, rest) =>
        if rest == [] then Nothing
        else if rest[0] == "," then
          match ParseOperands(rest[1..])
          case Nothing => Nothing
          case Got(es, tail) => Got([e] + es, tail)
        else if rest[0] == ")" then Got([e], rest[1..])
        else Nothing
  }

  // ---------------------------------------------------------------------
  // The parser as the source runs it: a cursor into one word list
  // ---------------------------------------------------------------------

  datatype Cursor<+T> = Missing | At(value: T, next: nat)

  function Located<T>(words: seq<string>, p: Parsed<T>): (c: Cursor<T>)
    requires p.Got? ==> |p.rest| <= |words|
  {
    match p case Nothing => Missing case Got(v, rest) => At(v, |words| - |rest|)
  }

  function Prepend(done: seq<Cfg>, p: Parsed<seq<Cfg>>): (q: Parsed<seq<Cfg>>)
  {
    match p case Nothing => Nothing case Got(es, rest) => Got(done + es, rest)
  }

  /** One turn of the operand loop, as the recursive parser sees it. */
  lemma OperandStep(done: seq<Cfg>, words: seq<string>)
    requires words != [] && words[0] != ")"
    ensures Parse(words).Nothing? ==> ParseOperands(words).Nothing?
    ensures Parse(words).Got? ==>
      var Got(e, rest) := Parse(words);
      && (rest == [] || (rest[0] != "," && rest[0] != ")") ==> ParseOperands(words).Nothing?)
      && (rest != [] && rest[0] == "," ==>
            Prepend(done, ParseOperands(words)) == Prepend(done + [e], ParseOperands(rest[1..])))
      && (rest != [] && rest[0] == ")" ==>
            Prepend(done, ParseOperands(words)) == Prepend(done + [e], ParseOperands(rest)))
  {
    hide Parse;
    if Parse(words).Got? && Parse(words).rest != [] {
      var Got(e, rest) := Parse(words);
      if rest[0] == "," && ParseOperands(rest[1..]).Got? {
        var es := ParseOperands(rest[1..]).value;
        assert done + ([e] + es) == (done + [e]) + es;
      } else if rest[0] == ")" {
        assert ParseOperands(rest) == Got([], rest[1..]);
        assert (done + [e]) + [] == done + [e];
      }
    }
  }

  lemma SuffixOfSuffix(words: seq<string>, i: nat, rest: seq<string>, tail: seq<string>)
    requires i <= |words| && words[i..] == tail && |rest| <= |tail| && rest == tail[|tail| - |rest|..]
    ensures words[|words| - |rest|..] == rest
  {
  }

  /** What a parse leaves over is a suffix of what it was given. */
  lemma {:induction false} RestIsSuffix(words: seq<string>)
    ensures Parse(words).Got? ==> Parse(words).rest == words[|words| - |Parse(words).rest|..]
    decreases |words|, 1
  {
    if OpensOperator(words) {
      OperandRestIsSuffix(words[2..]);
    }
  }

  lemma {:induction false} OperandRestIsSuffix(words: seq<string>)
    ensures ParseOperands(words).Got? ==>
      ParseOperands(words).rest == words[|words| - |ParseOperands(words).rest|..]
    decreases |words|, 2
  {
    hide Parse;
    if words != [] && words[0] != ")" {
      RestIsSuffix(words);
      var p := Parse(words);
      if p.Got? && p.rest != [] && p.rest[0] == "," {
        OperandRestIsSuffix(p.rest[1..]);
      }
    }
  }

  lemma OperandsEnd(words: seq<string>)
    ensures words == [] ==> ParseOperands(words) == Nothing
    ensures words != [] && words[0] == ")" ==> ParseOperands(words) == Got([], words[1..])
  {
  }

  /** The two forms of an expression. */
  lemma ParseCases(words: seq<string>)
    requires words != []
    ensures OpensOperator(words) ==>
      Parse(words) ==
        match ParseOperands(words[2..])
        case Nothing => Nothing
        case Got(operands, rest) =>
          if OperatorOf(words[0])[0] == Not && |operands| != 1 then Nothing
          else Got(Node(OperatorOf(words[0])[0], operands), rest)
    ensures !OpensOperator(words) ==>
      var n := 1 + AtomLength(words[1..], 0);
      Parse(words) == Got(AtomOrConstant(Join(words[..n])), words[n..])
  {
    hide ParseOperands, AtomLength, Join;
  }

  /** `_parse_cfg_expression`. */
  method ParseExpression(words: seq<string>, start: nat) returns (r: Cursor<Cfg>)
    ensures start >= |words| ==> r == Missing
    ensures start < |words| ==> r == Located(words, Parse(words[start..]))
    decreases |words| - start, 0
  {
    hide Parse, ParseOperands, Join, AtomLength;
    if start >= |words| {
      return Missing;
    }
    ParseCases(words[start..]);
    var operator := OperatorOf(words[start]);
    if operator != [] && start + 1 < |words| && words[start + 1] == "(" {
      assert words[start..][2..] == words[start + 2..];
      var list := ParseOperandList(words, start + 2);
      if list.Missing? || (operator[0] == Not && |list.value| != 1) {
        return Missing;
      }
      return At(Node(operator[0], list.value), list.next);
    }
    var cursor := AtomEnd(words, start + 1);
    assert words[start..][1..] == words[start + 1..];
    assert words[start..][..cursor - start] == words[start..cursor];
    return At(AtomOrConstant(Join(words[start..cursor])), cursor);
  }

  /** Its operand loop. */
  method ParseOperandList(words: seq<string>, start: nat) returns (r: Cursor<seq<Cfg>>)
    requires start <= |words|
    ensures r == Located(words, ParseOperands(words[start..]))
    decreases |words| - start, 1
  {
    hide Parse, ParseOperands;
    var cursor := start;
    var operands: seq<Cfg> := [];
    ghost var whole := ParseOperands(words[start..]);
    assert whole.Got? ==> [] + whole.value == whole.value;
    while cursor < |words| && words[cursor] != ")"
      invariant start <= cursor <= |words|
      invariant whole == Prepend(operands, ParseOperands(words[cursor..]))
      decreases |words| - cursor
    {
      ghost var here := words[cursor..];
      OperandStep(operands, here);
      RestIsSuffix(here);
      var parsed := ParseExpression(words, cursor);
      if parsed.Missing? {
        return Missing;
      }
      SuffixOfSuffix(words, cursor, Parse(here).rest, here);
      operands := operands + [parsed.value];
      cursor := parsed.next;
      if cursor < |words| && words[cursor] == "," {
        cursor := cursor + 1;
      } else if cursor >= |words| || words[cursor] != ")" {
        return Missing;
      }
    }
    OperandsEnd(words[cursor..]);
    if cursor >= |words| {
      return Missing;
    }
    assert operands + [] == operands;
    return At(operands, cursor + 1);
  }

  /** Its atom loop. */
  method AtomEnd(words: seq<string>, start: nat) returns (cursor: nat)
    requires start <= |words|
    ensures cursor == start + AtomLength(words[start..], 0)
  {
    cursor := start;
    var nested := 0;
    while cursor < |words|
      invariant start <= cursor <= |words|
      invariant AtomLength(words[start..], 0) == cursor - start + AtomLength(words[cursor..], nested)
    {
      assert words[cursor..][1..] == words[cursor + 1..];
      if words[cursor] == "(" {
        nested := nested + 1;
      } else if words[cursor] == ")" {
        if nested == 0 {
          break;
        }
        nested := nested - 1;
      } else if words[cursor] == "," && nested == 0 {
        break;
      }
      cursor := cursor + 1;
    }
  }

  // ---------------------------------------------------------------------
  // Concrete syntax, with its meaning
  // ---------------------------------------------------------------------

  /** What a programmer writes inside `cfg(...)`. */
  datatype Syntax =
    | Leaf(words: seq<string>)
    | Branch(operator: Operator, parts: seq<Syntax>, trailingComma: bool)

  function OperatorWord(op: Operator): (w: string)
  {
    match op case All => "all" case Any => "any" case Not => "not"
  }

  /** `words` closes every parenthesis it opens, starting `nested` deep, and has no outer comma. */
  predicate Enclosed(words: seq<string>, nested: nat)
  {
    if words == [] then nested == 0
    else if words[0] == "(" then Enclosed(words[1..], nested + 1)
    else if words[0] == ")" then nested > 0 && Enclosed(words[1..], nested - 1)
    else if words[0] == "," then nested > 0 && Enclosed(words[1..], nested)
    else Enclosed(words[1..], nested)
  }

  predicate WellFormed(s: Syntax)
  {
    match s
    case Leaf(words) => |words| >= 1 && !OpensOperator(words) && Enclosed(words[1..], 0)
    case Branch(op, parts, trailing) =>
      && (op == Not ==> |parts| == 1)
      && (trailing ==> parts != [])
      && (forall i | 0 <= i < |parts| :: WellFormed(parts[i]) && !LeadsWithClose(parts[i]))
  }

  predicate LeadsWithClose(s: Syntax) { s.Leaf? && s.words != [] && s.words[0] == ")" }

  predicate Operands(parts: seq<Syntax>)
  {
    forall i | 0 <= i < |parts| :: WellFormed(parts[i]) && !LeadsWithClose(parts[i])
  }

  function Print(s: Syntax): (words: seq<string>)
  {
    match s
    case Leaf(words) => words
    case Branch(op, parts, trailing) => [OperatorWord(op), "("] + PrintParts(parts, trailing)
  }

  function PrintParts(parts: seq<Syntax>, trailing: bool): (words: seq<string>)
  {
    if parts == [] then [")"]
    else if |parts| == 1 && !trailing then Print(parts[0]) + [")"]
    else Print(parts[0]) + ([","] + PrintParts(parts[1..], trailing))
  }

  /** Whether the expression holds when exactly the options in `enabled` are set. */
  predicate Holds(s: Syntax, enabled: set<string>)
  {
    match s
    case Leaf(words) => Join(words) in enabled
    case Branch(All, parts, _) => forall i | 0 <= i < |parts| :: Holds(parts[i], enabled)
    case Branch(Any, parts, _) => exists i | 0 <= i < |parts| :: Holds(parts[i], enabled)
    case Branch(Not, parts, _) => |parts| == 1 && !Holds(parts[0], enabled)
  }

  function CfgOf(s: Syntax): (e: Cfg)
  {
    match s
    case Leaf(words) => AtomOrConstant(Join(words))
    case Branch(op, parts, _) => Node(op, CfgsOf(parts))
  }

  function CfgsOf(parts: seq<Syntax>): (es: seq<Cfg>)
    ensures |es| == |parts| && forall i | 0 <= i < |parts| :: es[i] == CfgOf(parts[i])
  {
    if parts == [] then [] else [CfgOf(parts[0])] + CfgsOf(parts[1..])
  }

  /** The options an expression mentions. */
  function Options(s: Syntax): (names: set<string>)
  {
    match s
    case Leaf(words) => {Join(words)}
    case Branch(_, parts, _) => OptionsOfAll(parts)
  }

  function OptionsOfAll(parts: seq<Syntax>): (names: set<string>)
  {
    if parts == [] then {} else Options(parts[0]) + OptionsOfAll(parts[1..])
  }

  /** The number of options that the check must enumerate. */
  function Free(s: Syntax): (n: nat) { |Options(s) - {"test"}| }

  // ---------------------------------------------------------------------
  // The parser reads exactly the grammar
  // ---------------------------------------------------------------------

  predicate Stops(rest: seq<string>) { rest == [] || rest[0] == "," || rest[0] == ")" }

  lemma {:induction false} AtomLengthOfEnclosed(words: seq<string>, nested: nat, rest: seq<string>)
    requires Enclosed(words, nested) && Stops(rest)
    ensures AtomLength(words + rest, nested) == |words|
  {
    if words == [] {
      assert words + rest == rest;
    } else {
      assert (words + rest)[0] == words[0] && (words + rest)[1..] == words[1..] + rest;
      var inner := if words[0] == "(" then nested + 1 else if words[0] == ")" then nested - 1 else nested;
      AtomLengthOfEnclosed(words[1..], inner, rest);
    }
  }

  lemma {:induction false} EnclosedPrefix(words: seq<string>, nested: nat)
    requires AtomLength(words, nested) < |words|
    ensures Enclosed(words[..AtomLength(words, nested)], nested)
    ensures Stops(words[AtomLength(words, nested)..])
  {
    var n := AtomLength(words, nested);
    if n > 0 {
      var inner := if words[0] == "(" then nested + 1 else if words[0] == ")" then nested - 1 else nested;
      EnclosedPrefix(words[1..], inner);
      assert words[..n][1..] == words[1..][..n - 1];
      assert words[n..] == words[1..][n - 1..];
    }
  }

  lemma LeafRoundTrip(words: seq<string>, rest: seq<string>)
    requires WellFormed(Leaf(words)) && Stops(rest)
    ensures Parse(words + rest) == Got(AtomOrConstant(Join(words)), rest)
  {
    var all := words + rest;
    assert all[1..] == words[1..] + rest;
    AtomLengthOfEnclosed(words[1..], 0, rest);
    assert |words| == 1 && rest != [] ==> all[1] == rest[0];
    assert !OpensOperator(all);
    assert all[..|words|] == words && all[|words|..] == rest;
  }

  /** Printing an expression and parsing it gives the expression back. */
  lemma {:induction false} ParseOfPrint(s: Syntax, rest: seq<string>)
    requires WellFormed(s) && Stops(rest)
    ensures Parse(Print(s) + rest) == Got(CfgOf(s), rest)
    decreases s, 0
  {
    hide Parse, ParseOperands, PrintParts, CfgsOf, Enclosed, Join;
    match s
    case Leaf(words) =>
      LeafRoundTrip(words, rest);
    case Branch(op, parts, trailing) =>
      var all := Print(s) + rest;
      assert all[2..] == PrintParts(parts, trailing) + rest;
      assert OpensOperator(all);
      ParseCases(all);
      OperandsOfPrint(parts, trailing, rest);
  }

  /** No operand's printing can be mistaken for the end of the list. */
  lemma PrintHead(s: Syntax)
    requires WellFormed(s) && !LeadsWithClose(s)
    ensures |Print(s)| > 0 && Print(s)[0] != ")"
  {
  }

  lemma {:induction false} OperandsOfPrint(parts: seq<Syntax>, trailing: bool, rest: seq<string>)
    requires Operands(parts)
    ensures ParseOperands(PrintParts(parts, trailing) + rest) == Got(CfgsOf(parts), rest)
    decreases parts, 1
  {
    hide Parse, Print, CfgOf, WellFormed;
    var words := PrintParts(parts, trailing) + rest;
    if parts == [] {
      assert words[1..] == rest;
    } else {
      PrintHead(parts[0]);
      var head := Print(parts[0]);
      if |parts| == 1 && !trailing {
        var tail := [")"] + rest;
        assert words == head + tail;
        ParseOfPrint(parts[0], tail);
        assert tail[1..] == rest;
        assert CfgsOf(parts) == [CfgOf(parts[0])];
      } else {
        var after := PrintParts(parts[1..], trailing) + rest;
        var tail := [","] + after;
        assert words == head + tail;
        ParseOfPrint(parts[0], tail);
        assert tail[1..] == after;
        OperandsOfPrint(parts[1..], trailing, rest);
      }
    }
  }

  /** Conversely, whatever the parser accepts short of the end was printed from some expression. */
  lemma {:induction false} PrintOfParse(words: seq<string>) returns (s: Syntax)
    requires Parse(words).Got? && Parse(words).rest != []
    ensures WellFormed(s) && CfgOf(s) == Parse(words).value
    ensures words == Print(s) + Parse(words).rest
    ensures s.Leaf? ==> s.words[0] == words[0]
    decreases |words|, 1
  {
    hide Parse, ParseOperands, PrintParts, CfgsOf, AtomLength, Enclosed, Join;
    ParseCases(words);
    if OpensOperator(words) {
      var op := OperatorOf(words[0])[0];
      var parts, trailing := PrintOfOperands(words[2..]);
      s := Branch(op, parts, trailing);
      assert words == [words[0], "("] + words[2..];
      assert OperatorWord(op) == words[0];
    } else {
      var n := AtomLength(words[1..], 0);
      assert words[1..][n..] == words[n + 1..];
      EnclosedPrefix(words[1..], 0);
      s := Leaf(words[..n + 1]);
      assert words[..n + 1][1..] == words[1..][..n];
    }
  }

  lemma PrintPartsCons(head: Syntax, others: seq<Syntax>, comma: bool, rest: seq<string>)
    requires comma ==> others != []
    ensures PrintParts([head] + others, comma || others == []) + rest
      == Print(head) + ([","] + (PrintParts(others, comma) + rest))
  {
    assert ([head] + others)[1..] == others;
    assert PrintParts(others, comma || others == []) == PrintParts(others, comma);
    var tail := PrintParts(others, comma);
    assert (Print(head) + ([","] + tail)) + rest == Print(head) + ([","] + (tail + rest));
  }

  lemma {:induction false} PrintOfOperands(words: seq<string>) returns (parts: seq<Syntax>, trailing: bool)
    requires ParseOperands(words).Got?
    ensures Operands(parts)
    ensures trailing ==> parts != []
    ensures CfgsOf(parts) == ParseOperands(words).value
    ensures words == PrintParts(parts, trailing) + ParseOperands(words).rest
    decreases |words|, 2
  {
    hide Parse, Print, CfgOf, WellFormed;
    if words[0] == ")" {
      parts, trailing := [], false;
    } else {
      var head := PrintOfParse(words);
      var rest := Parse(words).rest;
      if rest[0] == "," {
        var others, comma := PrintOfOperands(rest[1..]);
        parts, trailing := [head] + others, comma || others == [];
        PrintPartsCons(head, others, comma, ParseOperands(rest[1..]).rest);
        assert rest == [","] + rest[1..];
      } else {
        parts, trailing := [head], false;
        assert rest == [")"] + rest[1..];
      }
    }
  }

  // ---------------------------------------------------------------------
  // Evaluation and the brute-force check
  // ---------------------------------------------------------------------

  function Atoms(e: Cfg): (names: set<string>)
  {
    match e
    case Atom(name) => {name}
    case Constant(_) => {}
    case Node(_, operands) => AtomsOfAll(operands)
  }

  function AtomsOfAll(es: seq<Cfg>): (names: set<string>)
    ensures forall i | 0 <= i < |es| :: Atoms(es[i]) <= names
  {
    if es == [] then {} else Atoms(es[0]) + AtomsOfAll(es[1..])
  }

  predicate Evaluate(e: Cfg, assignment: map<string, bool>)
    requires Atoms(e) <= assignment.Keys
  {
    match e
    case Atom(name) => assignment[name]
    case Constant(value) => value
    case Node(All, operands) => forall i | 0 <= i < |operands| :: Evaluate(operands[i], assignment)
    case Node(Any, operands) => exists i | 0 <= i < |operands| :: Evaluate(operands[i], assignment)
    case Node(Not, operands) => |operands| == 1 && !Evaluate(operands[0], assignment)
  }

  function Prefixed(b: bool, rows: seq<seq<bool>>): (r: seq<seq<bool>>)
    ensures |r| == |rows| && forall i | 0 <= i < |rows| :: r[i] == [b] + rows[i]
  {
    if rows == [] then [] else [[b] + rows[0]] + Prefixed(b, rows[1..])
  }

  /** `itertools.product((False, True), repeat=n)`. */
  function Product(n: nat): (rows: seq<seq<bool>>)
    ensures forall i | 0 <= i < |rows| :: |rows[i]| == n
  {
    if n == 0 then [[]] else Prefixed(false, Product(n - 1)) + Prefixed(true, Product(n - 1))
  }

  lemma PrefixedHas(b: bool, rows: seq<seq<bool>>, row: seq<bool>)
    requires row in rows
    ensures [b] + row in Prefixed(b, rows)
  {
    var i :| 0 <= i < |rows| && rows[i] == row;
    assert Prefixed(b, rows)[i] == [b] + row;
  }

  lemma {:induction false} ProductComplete(values: seq<bool>)
    ensures values in Product(|values|)
  {
    hide Prefixed;
    if values != [] {
      ProductComplete(values[1..]);
      var rows := Product(|values| - 1);
      assert values == [values[0]] + values[1..];
      PrefixedHas(values[0], rows, values[1..]);
      assert Product(|values|) == Prefixed(false, rows) + Prefixed(true, rows);
    }
  }

  /** `dict(zip(atoms, values))`. */
  function Assign(atoms: seq<string>, values: seq<bool>): (m: map<string, bool>)
    requires |atoms| == |values|
    ensures m.Keys == set x | x in atoms
  {
    if atoms == [] then map[] else Assign(atoms[1..], values[1..])[atoms[0] := values[0]]
  }

  /** The row of the table that describes the options in `enabled`. */
  function RowOf(atoms: seq<string>, enabled: set<string>): (values: seq<bool>)
    ensures |values| == |atoms|
  {
    if atoms == [] then [] else [atoms[0] in enabled] + RowOf(atoms[1..], enabled)
  }

  predicate Describes(m: map<string, bool>, enabled: set<string>)
  {
    forall x | x in m :: m[x] <==> x in enabled
  }

  lemma {:induction false} AssignRow(atoms: seq<string>, enabled: set<string>)
    ensures Describes(Assign(atoms, RowOf(atoms, enabled)), enabled)
  {
    if atoms != [] {
      AssignRow(atoms[1..], enabled);
      assert RowOf(atoms, enabled)[1..] == RowOf(atoms[1..], enabled);
    }
  }

  /** Evaluation looks at nothing but the collected atoms, so it computes the meaning. */
  lemma {:induction false} EvaluateMeaning(s: Syntax, m: map<string, bool>, enabled: set<string>)
    requires Atoms(CfgOf(s)) <= m.Keys && Describes(m, enabled) && "test" !in enabled
    ensures Evaluate(CfgOf(s), m) <==> Holds(s, enabled)
  {
    match s
    case Leaf(words) =>
    case Branch(op, parts, trailing) =>
      forall i | 0 <= i < |parts|
        ensures Atoms(CfgOf(parts[i])) <= m.Keys
        ensures Evaluate(CfgOf(parts[i]), m) <==> Holds(parts[i], enabled)
      {
        assert CfgsOf(parts)[i] == CfgOf(parts[i]);
        EvaluateMeaning(parts[i], m, enabled);
      }
      assert forall i | 0 <= i < |parts| :: CfgsOf(parts)[i] == CfgOf(parts[i]);
  }

  /** An enumeration without repetition, as `sorted(set)` gives. */
  predicate Enumerates(atoms: seq<string>, names: set<string>)
  {
    && (set x | x in atoms) == names
    && |atoms| == |names|
  }

  ghost predicate Satisfiable(e: Cfg, atoms: seq<string>)
    requires Enumerates(atoms, Atoms(e))
  {
    exists row | row in Product(|atoms|) :: Evaluate(e, Assign(atoms, row))
  }

  /** False in every configuration that leaves `test` off. */
  ghost predicate Unsatisfiable(s: Syntax)
  {
    forall enabled: set<string> | "test" !in enabled :: !Holds(s, enabled)
  }

  /** `_cfg_can_be_true_with_test_disabled`, past its size check: the product loop. */
  method CanBeTrue(e: Cfg, atoms: seq<string>) returns (sat: bool)
    requires Enumerates(atoms, Atoms(e))
    ensures sat <==> Satisfiable(e, atoms)
  {
    hide Evaluate, Assign, Product;
    var rows := Product(|atoms|);
    for k := 0 to |rows|
      invariant forall j | 0 <= j < k :: !Evaluate(e, Assign(atoms, rows[j]))
    {
      if Evaluate(e, Assign(atoms, rows[k])) {
        assert rows[k] in rows;
        return true;
      }
    }
    return false;
  }

  /** The loop decides satisfiability with `test` off, over every configuration. */
  lemma ProductDecides(s: Syntax, atoms: seq<string>)
    requires Enumerates(atoms, Atoms(CfgOf(s)))
    ensures Satisfiable(CfgOf(s), atoms) <==> !Unsatisfiable(s)
  {
    var e := CfgOf(s);
    if row :| row in Product(|atoms|) && Evaluate(e, Assign(atoms, row)) {
      var m := Assign(atoms, row);
      AtomsAreOptions(s);
      var enabled := set x | x in m && m[x];
      EvaluateMeaning(s, m, enabled);
    }
    if enabled: set<string> :| "test" !in enabled && Holds(s, enabled) {
      var row := RowOf(atoms, enabled);
      ProductComplete(row);
      AssignRow(atoms, enabled);
      EvaluateMeaning(s, Assign(atoms, row), enabled);
    }
  }

  /** The collected atoms are the options mentioned, without `test`. */
  lemma {:induction false} AtomsAreOptions(s: Syntax)
    ensures Atoms(CfgOf(s)) == Options(s) - {"test"}
  {
    match s
    case Leaf(_) =>
    case Branch(_, parts, _) => AllAtomsAreOptions(parts);
  }

  lemma {:induction false} AllAtomsAreOptions(parts: seq<Syntax>)
    ensures AtomsOfAll(CfgsOf(parts)) == OptionsOfAll(parts) - {"test"}
  {
    if parts != [] {
      AtomsAreOptions(parts[0]);
      AllAtomsAreOptions(parts[1..]);
    }
  }

  // ---------------------------------------------------------------------
  // The attribute
  // ---------------------------------------------------------------------

  datatype Verdict = TestOnly | NotTestOnly | TooManyAtoms

  function Attribute(s: Syntax): (words: seq<string>)
  {
    ["cfg", "("] + Print(s) + [")"]
  }

  /** What the scanner's answer for these words must be. */
  ghost predicate Correct(words: seq<string>, v: Verdict)
  {
    match v
    case TestOnly =>
      words == ["test"] ||
      exists s :: WellFormed(s) && words == Attribute(s) && Free(s) <= MAX_ATOMS && Unsatisfiable(s)
    case TooManyAtoms =>
      exists s :: WellFormed(s) && words == Attribute(s) && Free(s) > MAX_ATOMS
    case NotTestOnly =>
      words != ["test"] &&
      forall s :: WellFormed(s) && words == Attribute(s) ==> Free(s) <= MAX_ATOMS && !Unsatisfiable(s)
  }

  /** Two expressions that print the same mean the same to the analysis. */
  lemma AttributeDetermines(s: Syntax, rest: seq<string>)
    requires WellFormed(s) && rest == [")"]
    ensures Attribute(s)[2..] == Print(s) + rest
    ensures Parse(Attribute(s)[2..]) == Got(CfgOf(s), rest)
  {
    assert Attribute(s)[2..] == Print(s) + rest;
    ParseOfPrint(s, rest);
  }

  /** If the tail parses with one word left, the attribute was printed from an expression. */
  lemma AttributeRecovered(words: seq<string>) returns (s: Syntax)
    requires |words| >= 4 && words[..2] == ["cfg", "("] && words[|words| - 1] == ")"
    requires Parse(words[2..]).Got? && |Parse(words[2..]).rest| == 1
    ensures WellFormed(s) && words == Attribute(s) && CfgOf(s) == Parse(words[2..]).value
  {
    s := PrintOfParse(words[2..]);
    var rest := Parse(words[2..]).rest;
    assert words[2..][|words| - 3] == rest[0];
    assert rest == [")"];
    assert words == words[..2] + words[2..];
  }

  /** When the shape check or the parse fails, no expression prints these words. */
  lemma NotAnAttribute(words: seq<string>, s: Syntax)
    requires WellFormed(s) && words == Attribute(s)
    ensures |words| >= 4 && words[..2] == ["cfg", "("] && words[|words| - 1] == ")"
    ensures Parse(words[2..]) == Got(CfgOf(s), [")"])
    ensures Free(s) == |Atoms(CfgOf(s))|
  {
    AttributeDetermines(s, [")"]);
    AtomsAreOptions(s);
    assert |Print(s)| >= 1;
  }

  /** The words leave no choice of answer. */
  lemma CorrectUnique(words: seq<string>, v: Verdict, w: Verdict)
    requires Correct(words, v) && Correct(words, w)
    ensures v == w
  {
    forall s | WellFormed(s) && words == Attribute(s)
      ensures |words| >= 4 && Parse(words[2..]) == Got(CfgOf(s), [")"]) && Free(s) == |Atoms(CfgOf(s))|
    {
      NotAnAttribute(words, s);
    }
  }

  /** The scanner's answer, as a function of the words. */
  ghost function VerdictOf(words: seq<string>): (v: Verdict)
    ensures Correct(words, v)
  {
    if Correct(words, TooManyAtoms) then TooManyAtoms
    else if Correct(words, TestOnly) then TestOnly
    else NotTestOnly
  }

  method Sorted(names: set<string>) returns (atoms: seq<string>)
    ensures Enumerates(atoms, names)
  {
    atoms := [];
    var left := names;
    while left != {}
      invariant left <= names
      invariant Enumerates(atoms, names - left)
    {
      var name :| name in left;
      ghost var seen := names - left;
      left := left - {name};
      assert names - left == seen + {name};
      atoms := atoms + [name];
    }
    assert names - {} == names;
  }

  /** `_attribute_is_test_only`: decided exactly, for every list of words. */
  method AttributeIsTestOnly(words: seq<string>) returns (v: Verdict)
    ensures Correct(words, v)
    ensures v == VerdictOf(words)
  {
    v := DecideAttribute(words);
    CorrectUnique(words, v, VerdictOf(words));
  }

  method DecideAttribute(words: seq<string>) returns (v: Verdict)
    ensures Correct(words, v)
  {
    if words == ["test"] {
      return TestOnly;
    }
    forall s | WellFormed(s) && words == Attribute(s)
      ensures |words| >= 4 && words[..2] == ["cfg", "("] && words[|words| - 1] == ")"
      ensures Parse(words[2..]) == Got(CfgOf(s), [")"]) && Free(s) == |Atoms(CfgOf(s))|
    {
      NotAnAttribute(words, s);
    }
    if |words| < 4 || words[..2] != ["cfg", "("] || words[|words| - 1] != ")" {
      return NotTestOnly;
    }
    var parsed := ParseExpression(words, 2);
    if parsed.Missing? || parsed.next != |words| - 1 {
      return NotTestOnly;
    }
    ghost var s := AttributeRecovered(words);
    var e := parsed.value;
    if |Atoms(e)| > MAX_ATOMS {
      return TooManyAtoms;
    }
    var atoms := Sorted(Atoms(e));
    forall t | WellFormed(t) && words == Attribute(t)
      ensures Satisfiable(e, atoms) <==> !Unsatisfiable(t)
    {
      ProductDecides(t, atoms);
    }
    var sat := CanBeTrue(e, atoms);
    return if sat then NotTestOnly else TestOnly;
  }

  // ---------------------------------------------------------------------
  // What the operators mean for a verdict
  // ---------------------------------------------------------------------

  /** `any` is test-only exactly when all its parts are; one such part makes `all` test-only; and `not` is
      so exactly when its part always holds without `test`. */
  lemma OperatorVerdicts(parts: seq<Syntax>, trailing: bool, part: Syntax)
    ensures Unsatisfiable(Branch(Any, parts, trailing)) <==> forall i | 0 <= i < |parts| :: Unsatisfiable(parts[i])
    ensures (exists i | 0 <= i < |parts| :: Unsatisfiable(parts[i])) ==> Unsatisfiable(Branch(All, parts, trailing))
    ensures Unsatisfiable(Branch(Not, [part], trailing)) <==> forall enabled | "test" !in enabled :: Holds(part, enabled)
  {
    AnyVerdict(parts, trailing);
    forall enabled: set<string> ensures Holds(Branch(Not, [part], trailing), enabled) <==> !Holds(part, enabled) {
      assert [part][0] == part;
    }
  }

  lemma AnyVerdict(parts: seq<Syntax>, trailing: bool)
    ensures Unsatisfiable(Branch(Any, parts, trailing)) <==> forall i | 0 <= i < |parts| :: Unsatisfiable(parts[i])
  {
    var s := Branch(Any, parts, trailing);
    if Unsatisfiable(s) {
      forall i | 0 <= i < |parts| ensures Unsatisfiable(parts[i]) {
        forall enabled: set<string> | "test" !in enabled ensures !Holds(parts[i], enabled) {
          assert !Holds(s, enabled);
        }
      }
    }
  }

  /** `test` is the one option that is always off, and any other can be on. */
  lemma OptionVerdict(words: seq<string>)
    ensures Unsatisfiable(Leaf(words)) <==> Join(words) == "test"
  {
    if Join(words) != "test" { assert Holds(Leaf(words), {Join(words)}); }
  }

  /** The attribute `test` itself is test-only. */
  lemma TestVerdict()
    ensures VerdictOf(["test"]) == TestOnly
  {
    CorrectUnique(["test"], TestOnly, VerdictOf(["test"]));
  }

  /** A `cfg` attribute is beyond the scanner's means exactly when it mentions more than 16 options other than
      `test`, and within them it is test-only if it is false in every configuration without `test`. */
  lemma VerdictLimit(s: Syntax)
    requires WellFormed(s)
    ensures VerdictOf(Attribute(s)) == TooManyAtoms <==> |Options(s) - {"test"}| > 16
    ensures |Options(s) - {"test"}| <= 16 && Unsatisfiable(s) ==> VerdictOf(Attribute(s)) == TestOnly
  {
    hide Unsatisfiable, Parse;
    var words := Attribute(s);
    var v := VerdictOf(words);
    NotAnAttribute(words, s);
    if Free(s) > MAX_ATOMS {
      assert Correct(words, TooManyAtoms);
      CorrectUnique(words, TooManyAtoms, v);
    } else {
      if v == TooManyAtoms {
        var t :| WellFormed(t) && words == Attribute(t) && Free(t) > MAX_ATOMS;
        NotAnAttribute(words, t);
      }
      if Unsatisfiable(s) {
        assert Correct(words, TestOnly);
        CorrectUnique(words, TestOnly, v);
      }
    }
  }
}
