/** The scanner's check of `path` attributes: the shape of the attribute and the string literal
    in it. Decoding an ordinary literal and looking at the target are parameters. */
module PathAttributes {
  import opened Bytes

  const RUST_SUFFIX := ".rs"

  predicate EndsWith(s: string, t: string) { |s| >= |t| && s[|s| - |t|..] == t }

  predicate Quote(c: char) { c == '"' }

  /** The text of a raw string token, between its quotes. */
  function RawText(token: string): (t: Option<string>)
    requires token != ""
  {
    match FirstFrom(token, Quote, 0)
    case None => None
    case Some(quote) =>
      if quote < 1 then None else
      var hashes := token[1..quote];
      var end := |token| - (1 + |hashes|);
      if exists i | 0 <= i < |hashes| :: hashes[i] != '#' then None
      else if !EndsWith(token, "\"" + hashes) then None
      else Some(if quote + 1 <= end then token[quote + 1..end] else "")
  }

  /** `_rust_string_literal`; `json` decodes a token that starts with a quote. */
  function Literal(json: string -> Option<string>, token: string): (t: Option<string>)
  {
    if token == "" then None
    else if token[0] == '"' then json(token)
    else if token[0] == 'r' then RawText(token)
    else None
  }

  /** `_validate_path_attribute`: attributes that are not `path` pass; a `path` must be a literal with a
      Rust target that is acceptable. */
  predicate PathAccepted(json: string -> Option<string>, target: string -> bool, words: seq<string>)
  {
    || words == [] || words[0] != "path"
    || ( && |words| == 3 && words[1] == "="
         && var text := Literal(json, words[2]); text.Some? && EndsWith(text.value, RUST_SUFFIX) && target(text.value) )
  }

  function Hashes(n: nat): (s: string) { seq(n, _ => '#') }

  /** A raw string token, as the lexer cuts it. */
  function RawToken(n: nat, text: string): (token: string) { ("r" + Hashes(n)) + ("\"" + (text + ("\"" + Hashes(n)))) }

  /** Every raw string is read back as its text, whatever quotes and signs the text holds. */
  lemma RawTextBack(json: string -> Option<string>, n: nat, text: string)
    ensures Literal(json, RawToken(n, text)) == Some(text)
  {
    var token, front := RawToken(n, text), "r" + Hashes(n);
    assert forall i | 0 <= i < |front| :: token[i] == front[i] && !Quote(token[i]);
    assert token[n + 1] == '"' && Quote(token[n + 1]);
    assert FirstFrom(token, Quote, 0) == Some(n + 1);
    assert token[1..n + 1] == Hashes(n);
    var tail := "\"" + Hashes(n);
    assert token[|token| - |tail|..] == tail;
    assert token[n + 2..|token| - |tail|] == text;
  }

  /** A raw string that is cut short where its text should begin, with hashes that happen to match. */
  function CutToken(n: nat): (token: string) { ("r" + Hashes(n)) + ("\"" + Hashes(n)) }

  lemma CutTextBack(json: string -> Option<string>, n: nat)
    ensures Literal(json, CutToken(n)) == Some("")
  {
    var token, front := CutToken(n), "r" + Hashes(n);
    assert forall i | 0 <= i < |front| :: token[i] == front[i] && !Quote(token[i]);
    assert token[n + 1] == '"' && Quote(token[n + 1]);
    assert FirstFrom(token, Quote, 0) == Some(n + 1);
    assert token[1..n + 1] == Hashes(n);
    assert token[|token| - (n + 1)..] == "\"" + Hashes(n);
  }

  /** Conversely, a raw token that is read as a text is that text's raw string, or one cut short, which
      is read as the empty text. */
  lemma RawTextOnly(token: string)
    requires token != "" && token[0] == 'r' && RawText(token).Some?
    ensures exists n: nat :: token == RawToken(n, RawText(token).value) || (token == CutToken(n) && RawText(token).value == "")
  {
    hide RawText;
    var n := RawShape(token);
    if |token| == 2 * (n + 1) { CutFrom(token, n); } else { RawFrom(token, n, RawText(token).value); }
  }

  lemma CutFrom(token: string, n: nat)
    requires |token| == 2 * (n + 1) && token[0] == 'r' && token[1..n + 1] == Hashes(n) && token[n + 1..] == "\"" + Hashes(n)
    ensures token == CutToken(n)
  {
    assert token == (token[..1] + token[1..n + 1]) + token[n + 1..];
  }

  lemma RawFrom(token: string, n: nat, text: string)
    requires |token| > 2 * (n + 1) && token[0] == 'r' && token[1..n + 1] == Hashes(n) && token[n + 1] == '"'
    requires var at := |token| - (n + 1); token[at..] == "\"" + Hashes(n) && text == token[n + 2..at]
    ensures token == RawToken(n, text)
  {
    hide Hashes;
    FrontFrom(token, n + 1);
    QuotedFrom(token, n + 1, |token| - (n + 1));
  }

  lemma FrontFrom(s: string, j: nat)
    requires 1 <= j <= |s| && s[0] == 'r'
    ensures s == ("r" + s[1..j]) + s[j..]
  {
  }

  lemma QuotedFrom(s: string, i: nat, j: nat)
    requires i < j <= |s| && s[i] == '"'
    ensures s[i..] == "\"" + (s[i + 1..j] + s[j..])
  {
  }

  /** The opening quote, the closing one, and the text between them. */
  lemma RawShape(token: string) returns (n: nat)
    requires token != "" && token[0] == 'r' && RawText(token).Some?
    ensures n + 1 <= |token| - (n + 1) && token[n + 1] == '"' && token[1..n + 1] == Hashes(n)
    ensures token[|token| - (n + 1)..] == "\"" + Hashes(n)
    ensures var at := |token| - (n + 1); RawText(token).value == if n + 2 <= at then token[n + 2..at] else ""
  {
    var quote := FirstFrom(token, Quote, 0).value;
    var hashes := token[1..quote];
    n := |hashes|;
    assert hashes == Hashes(n) by {
      forall i | 0 <= i < n ensures hashes[i] == '#' {
      }
    }
    assert token[|token| - (n + 1)..][0] == '"';
  }

  /** So a `path` attribute passes exactly when its raw target does. */
  lemma RawPathAccepted(json: string -> Option<string>, target: string -> bool, n: nat, text: string)
    ensures PathAccepted(json, target, ["path", "=", RawToken(n, text)]) <==> EndsWith(text, RUST_SUFFIX) && target(text)
  {
    RawTextBack(json, n, text);
  }

  /** A `path` attribute of any other shape is refused, and so is one whose target is no literal. */
  lemma OddPathRefused(json: string -> Option<string>, target: string -> bool, words: seq<string>)
    requires words != [] && words[0] == "path" && PathAccepted(json, target, words)
    ensures |words| == 3 && words[1] == "=" && words[2] != "" && words[2][0] in {'"', 'r'}
    ensures words[2][0] == '"' ==> json(words[2]).Some? && EndsWith(json(words[2]).value, ".rs") && target(json(words[2]).value)
    ensures words[2][0] == 'r' ==>
      exists n: nat, text: string :: EndsWith(text, ".rs") && target(text) && words[2] == RawToken(n, text)
  {
    hide RawText;
    if words[2][0] == 'r' {
      RawTextOnly(words[2]);
      var n: nat :| words[2] == RawToken(n, RawText(words[2]).value) || (words[2] == CutToken(n) && RawText(words[2]).value == "");
    }
  }
}
