/** A file that is replaced as a whole: written to a fixed temporary name, synced,
    renamed over the target, and made durable by syncing the parent directory. */
module SnapshotFile {
  import opened Bytes

  /** The bytes of a file: torn, or a whole snapshot that a crash may tear, or one that it keeps. */
  datatype Content<T> = Torn | Written(snapshot: seq<T>) | Synced(snapshot: seq<T>)

  /** `main` lists what a crash may leave under the target's name since the parent was last synced:
      the durable content first, the visible one last. */
  datatype Files<T> = Files(main: seq<Option<Content<T>>>, temporary: Option<Content<T>>)

  datatype Stage = MakeParent | Serialize | OpenTemporary | WriteBytes | SyncBytes | RenameOver | SyncParent

  function Visible<T>(f: Files<T>): (c: Option<Content<T>>)
    requires f.main != []
  {
    f.main[|f.main| - 1]
  }

  /** What loading makes of the target: a missing file is an empty snapshot, torn bytes are an error. */
  function Loaded<T>(c: Option<Content<T>>): (s: Option<seq<T>>)
  {
    match c
    case None => Some([])
    case Some(Torn) => None
    case Some(Written(s)) => Some(s)
    case Some(Synced(s)) => Some(s)
  }

  /** Nothing that a crash can leave is torn. */
  predicate Whole<T>(f: Files<T>)
  {
    f.main != [] && forall i | 0 <= i < |f.main| :: f.main[i].Some? ==> f.main[i].value.Synced?
  }

  /** The candidates for the target after a save that failed at `fault`, if it did. */
  function Saved<T>(main: seq<Option<Content<T>>>, next: seq<T>, fault: Option<Stage>): (m: seq<Option<Content<T>>>)
  {
    match fault
    case None => [Some(Synced(next))]
    case Some(SyncParent) => main + [Some(Synced(next))]
    case Some(_) => main
  }

  /** Unsynced bytes are torn by a crash. */
  function Remains<T>(c: Option<Content<T>>): (r: Option<Content<T>>)
  {
    if c.Some? && c.value.Written? then Some(Torn) else c
  }

  /** The machine stops; one candidate is left. */
  ghost predicate Crashes<T(!new)>(f: Files<T>, g: Files<T>, pick: nat)
  {
    pick < |f.main| && g.main == [Remains(f.main[pick])]
  }

  /** Saves step by step; `fault` is the stage at which the system reports an error. */
  method Save<T>(f: Files<T>, next: seq<T>, fault: Option<Stage>) returns (g: Files<T>, ok: bool)
    requires f.main != []
    ensures ok <==> fault.None?
    ensures g.main == Saved(f.main, next, fault) && (Whole(f) ==> Whole(g))
  {
    g, ok := f, false;
    if FailsAt(fault, MakeParent) || FailsAt(fault, Serialize) || FailsAt(fault, OpenTemporary) { return; }
    g := g.(temporary := Some(Torn));
    if FailsAt(fault, WriteBytes) { return; }
    g := g.(temporary := Some(Written(next)));
    if FailsAt(fault, SyncBytes) { return; }
    g := g.(temporary := Some(Synced(next)));
    if FailsAt(fault, RenameOver) { return; }
    g := Files(g.main + [g.temporary], None);
    if FailsAt(fault, SyncParent) { return; }
    match fault { case None => case Some(stage) => StageCases(stage); }
    g, ok := g.(main := [Visible(g)]), true;
  }

  lemma StageCases(stage: Stage)
    ensures stage in {MakeParent, Serialize, OpenTemporary, WriteBytes, SyncBytes, RenameOver, SyncParent}
  {
    match stage case MakeParent => case Serialize => case OpenTemporary => case WriteBytes => case SyncBytes =>
    case RenameOver => case SyncParent =>
  }

  predicate FailsAt(fault: Option<Stage>, stage: Stage) { fault == Some(stage) }

  /** A failed save leaves the visible file as it was exactly when the parent's sync is not what
      failed, or the file already held the new snapshot. */
  lemma FailedSaveUntouched<T>(f: Files<T>, next: seq<T>, stage: Stage)
    requires Whole(f)
    ensures Visible(Files(Saved(f.main, next, Some(stage)), None)) == Visible(f)
       <==> stage != SyncParent || Visible(f) == Some(Synced(next))
  {
  }

  /** Whatever a crash leaves can be loaded. */
  lemma CrashLoads<T(!new)>(f: Files<T>, g: Files<T>, pick: nat)
    requires Whole(f) && Crashes(f, g, pick)
    ensures Whole(g) && g.main == [f.main[pick]] && Loaded(g.main[0]).Some?
  {
  }
}
