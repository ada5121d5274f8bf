/** What the registry's requests mean, field by field: which are refused and with which error,
    what a new, a revived and an updated record are, and what is returned. */
module RegistryLaws {
  import opened Bytes
  import opened SourceRegistry
  import opened RegistryRuns

  predicate PlacedAt(rs: seq<Record>, i: int, kind: Kind, root: bytes) { 0 <= i < |rs| && SamePlace(rs[i], kind, root) }

  predicate NamedAt(rs: seq<Record>, i: int, id: bytes) { 0 <= i < |rs| && rs[i].id == id }

  /** The place that an enrolment or discovery asks for, if it is acceptable. */
  function Wanted(op: Op): (root: Option<bytes>)
    requires op.Enroll? || op.EnsureDefault?
  {
    if op.EnsureDefault? then Some(op.root) else op.canonical
  }

  predicate Acceptable(op: Op)
    requires op.Enroll? || op.EnsureDefault?
  {
    Wanted(op).Some? && Absolute(Wanted(op).value) && [46, 46] !in Components(Wanted(op).value)
  }

  function Label(kind: Kind, text: Option<string>): (s: string)
  {
    if Sanitized(text).Some? then Sanitized(text).value
    else match kind
      case CodexHome => "codex home"
      case ClaudeFile => "claude file"
      case GrokHome => "grok home"
      case KimiCodeHome => "kimi code home"
  }

  function TextOf(op: Op): (t: Option<string>)
    requires op.Enroll? || op.EnsureDefault?
  {
    if op.Enroll? then op.text else Some(op.name)
  }

  lemma Labels(kind: Kind, text: Option<string>)
    ensures (if Sanitized(text).Some? then Sanitized(text).value else Spaced(KindName(kind))) == Label(kind, text)
  {
    hide Sanitized;
    match kind
    case CodexHome => assert Spaced("codex_home") == "codex home";
    case ClaudeFile => assert Spaced("claude_file") == "claude file";
    case GrokHome => assert Spaced("grok_home") == "grok home";
    case KimiCodeHome => assert Spaced("kimi_code_home") == "kimi code home";
  }

  /** An unknown place: refused if it is not acceptable or there are 64 records already; otherwise a new
      record is added and returned, enabled, pending, labelled, owned by its kind and otherwise blank. */
  lemma NewPlace(h: Digest, rs: seq<Record>, op: Op)
    requires (op.Enroll? || op.EnsureDefault?) && (Acceptable(op) ==> !exists i :: PlacedAt(rs, i, op.kind, Wanted(op).value))
    ensures var o := Propose(h, rs, op);
      if !Acceptable(op) || |rs| >= 64 then o == Refuse(InvalidArgument)
      else
        var root := Wanted(op).value;
        var r := Record(SourceId(h, op.kind, root), op.kind, root, Label(op.kind, TextOf(op)), true, Unknown, op.kind,
                        None, None, None, None, Pending);
        o.Candidate? && o.answer == Some(r) && multiset(o.next) == multiset(rs) + multiset{r} && Ordered(o.next)
  {
    hide Sanitized, SourceId, SortById, Components, Label, Ordered, SamePlace;
    if Acceptable(op) {
      var root := Wanted(op).value;
      Labels(op.kind, TextOf(op));
      forall i | 0 <= i < |rs| ensures !SamePlace(rs[i], op.kind, root) { assert !PlacedAt(rs, i, op.kind, root); }
      var r := Newcomer(h, op.kind, root, TextOf(op));
      SortOrdered(rs + [r]);
    }
  }

  /** A known place: discovery and the enrolment of an enabled source return the record as it is; the
      enrolment of a disabled one enables it, resets its health and scan time, and relabels it if a
      label is given. */
  lemma KnownPlace(h: Digest, rs: seq<Record>, op: Op, i: nat)
    requires (op.Enroll? || op.EnsureDefault?) && Valid(h, rs) && Acceptable(op) && PlacedAt(rs, i, op.kind, Wanted(op).value)
    ensures var o, r := Propose(h, rs, op), rs[i];
      if op.EnsureDefault? || r.enabled then o == Keep(r)
      else
        var title := if Sanitized(op.text).Some? then Sanitized(op.text).value else r.title;
        var n := Record(r.id, r.kind, r.root, title, true, r.storeMode, r.refreshOwner, r.accountAlias, None, r.lastRefreshed,
                        r.accessExpires, Pending);
        o == Candidate(rs[i := n], Some(n))
  {
    hide Sanitized, SourceId, SortById, Components, Proper;
    var k := PlaceOf(rs, op.kind, Wanted(op).value).value;
    OnlyItself(rs, k, i);
  }

  /** An update replaces the record with its identity, at its place, if it stays at its coordinates and
      the records stay valid; a removal takes it out and returns it. */
  lemma NamedRecord(h: Digest, rs: seq<Record>, op: Op, i: nat)
    requires (op.Update? || op.Remove?) && Valid(h, rs)
    ensures var id := if op.Update? then op.record.id else op.id;
      var o := Propose(h, rs, op);
      && ((forall k :: !NamedAt(rs, k, id)) ==> o == Refuse(CredentialMissing))
      && (NamedAt(rs, i, id) ==>
            if op.Remove? then o == Candidate(rs[..i] + rs[i + 1..], Some(rs[i]))
            else if !SamePlace(rs[i], op.record.kind, op.record.root) then o == Refuse(InvalidArgument)
            else if !Valid(h, rs[i := op.record]) then o == Refuse(StoreCorrupt)
            else o == Candidate(rs[i := op.record], None))
  {
    hide SamePlace, Proper, Components;
    var id := if op.Update? then op.record.id else op.id;
    match IdOf(rs, id)
    case None => assert !NamedAt(rs, i, id);
    case Some(k) =>
      assert NamedAt(rs, k, id);
      if NamedAt(rs, i, id) { OnlyItself(rs, k, i); }
  }
}
