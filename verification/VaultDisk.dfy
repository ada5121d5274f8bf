/** A directory as the vaults use it: names bound to inodes, with what a crash may
    leave of both kept beside what is visible now. */
module VaultDisk {
  import opened Bytes

  /** The names that occur in a vault's directory. */
  datatype Name = Entry(alias: bytes) | Temp(id: bytes) | Lock(owner: bytes)

  type ino = nat

  /** `names` and `data` are what a process sees. A crash keeps the data of `synced` inodes and,
      for each name changed since the last directory sync, some binding it has had since then:
      `recent[n]` lists them, the durable one first. */
  datatype Disk = Disk(
    names: map<Name, ino>,
    data: map<ino, bytes>,
    synced: set<ino>,
    recent: map<Name, seq<Option<ino>>>)

  function Lookup(d: Disk, n: Name): (i: Option<ino>) { if n in d.names then Some(d.names[n]) else None }

  /** The bindings that a crash may leave for `n`. */
  function Candidates(d: Disk, n: Name): (c: seq<Option<ino>>)
  {
    if n in d.recent then d.recent[n] else [Lookup(d, n)]
  }

  /** The visible binding is always the latest candidate. */
  ghost predicate Latest(d: Disk)
  {
    forall n | n in d.recent :: d.recent[n] != [] && d.recent[n][|d.recent[n]| - 1] == Lookup(d, n)
  }

  /** Consistency of what a process sees: bound inodes exist. */
  ghost predicate Sound(d: Disk)
  {
    && Latest(d)
    && (forall n | n in d.names :: d.names[n] in d.data)
    && d.synced <= d.data.Keys
  }

  function Bind(d: Disk, n: Name, to: Option<ino>): (e: Disk)
  {
    d.(names := if to.Some? then d.names[n := to.value] else d.names - {n},
       recent := d.recent[n := Candidates(d, n) + [to]])
  }

  /** `open(O_CREAT | O_EXCL)` of a fresh inode. */
  function Create(d: Disk, n: Name, i: ino): (e: Disk)
  {
    Bind(d.(data := d.data[i := []], synced := d.synced - {i}), n, Some(i))
  }

  function Append(d: Disk, i: ino, b: bytes): (e: Disk)
    requires i in d.data
  {
    d.(data := d.data[i := d.data[i] + b], synced := d.synced - {i})
  }

  function Fsync(d: Disk, i: ino): (e: Disk) { d.(synced := d.synced + {i}) }

  function Rename(d: Disk, from: Name, to: Name): (e: Disk)
    requires from in d.names
  {
    Bind(Bind(d, to, Some(d.names[from])), from, None)
  }

  function Unlink(d: Disk, n: Name): (e: Disk)
  {
    if n in d.names then Bind(d, n, None) else d
  }

  function SyncDirectory(d: Disk): (e: Disk) { d.(recent := map[]) }

  /** The machine stops and `e` is found afterwards; `pick` says which candidate survived. */
  ghost predicate Crashes(d: Disk, e: Disk, pick: map<Name, nat>)
  {
    && pick.Keys == d.recent.Keys
    && (forall n | n in pick :: pick[n] < |d.recent[n]| && Lookup(e, n) == d.recent[n][pick[n]])
    && (forall n | n !in pick :: Lookup(e, n) == Lookup(d, n))
    && e.recent == map[]
    && e.synced == d.synced && e.data.Keys == d.data.Keys
    && (forall i | i in d.synced :: i in d.data ==> e.data[i] == d.data[i])
  }

  lemma BindLatest(d: Disk, n: Name, to: Option<ino>)
    requires Latest(d)
    ensures Latest(Bind(d, n, to)) && Lookup(Bind(d, n, to), n) == to
    ensures Bind(d, n, to).data == d.data && Bind(d, n, to).synced == d.synced
    ensures Candidates(Bind(d, n, to), n) == Candidates(d, n) + [to]
    ensures forall m | m != n ::
      Lookup(Bind(d, n, to), m) == Lookup(d, m) && Candidates(Bind(d, n, to), m) == Candidates(d, m)
  {
  }

  lemma CreateLatest(d: Disk, n: Name, i: ino)
    requires Latest(d)
    ensures var e := Create(d, n, i);
      && Latest(e) && Lookup(e, n) == Some(i) && e.data == d.data[i := []] && e.synced == d.synced - {i}
      && forall m | m != n :: Lookup(e, m) == Lookup(d, m) && Candidates(e, m) == Candidates(d, m)
  {
    var f := d.(data := d.data[i := []], synced := d.synced - {i});
    assert Latest(f) by {
      assert forall m :: Lookup(f, m) == Lookup(d, m);
    }
    BindLatest(f, n, Some(i));
  }

  lemma BindSound(d: Disk, n: Name, to: Option<ino>)
    requires Sound(d) && (to.Some? ==> to.value in d.data)
    ensures Sound(Bind(d, n, to))
    ensures Lookup(Bind(d, n, to), n) == to
    ensures Candidates(Bind(d, n, to), n) == Candidates(d, n) + [to]
    ensures forall m | m != n ::
      Lookup(Bind(d, n, to), m) == Lookup(d, m) && Candidates(Bind(d, n, to), m) == Candidates(d, m)
  {
  }
}
