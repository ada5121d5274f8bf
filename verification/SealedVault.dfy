/** `EncryptedFileVault` run by one caller at a time, with every way a file operation
    may fail. Callers that interleave are in `VaultMachine`. */
module SealedVault {
  import opened Bytes
  import opened VaultDisk
  import opened Sealing

  datatype Outcome<+T> = Done(value: T) | Missing | InvalidArgument | Corrupt

  /** The file operation that fails during a call, if any. */
  datatype Fault = NoFault | AtResolve | AtCreate | AtWrite(written: nat) | AtFsync | AtRename | AtUnlink | AtSync

  /** What `resolve` finds in a directory. */
  ghost function Lookups(d: Disk, seals: set<Seal>, k: key, alias: bytes): (r: Outcome<bytes>)
    requires Sound(d)
  {
    if Entry(alias) !in d.names then Missing
    else
      match Unseal(seals, k, alias, d.data[d.names[Entry(alias)]])
      case None => Corrupt
      case Some(secret) => Done(secret)
  }

  /** The bytes of an entry's file. */
  function EntryBytes(d: Disk, alias: bytes): (b: Option<bytes>)
  {
    if Entry(alias) in d.names && d.names[Entry(alias)] in d.data then Some(d.data[d.names[Entry(alias)]]) else None
  }

  predicate SameEntry(d: Disk, e: Disk, alias: bytes)
  {
    Lookup(d, Entry(alias)) == Lookup(e, Entry(alias)) && EntryBytes(d, alias) == EntryBytes(e, alias)
  }

  /** Every entry other than `alias`'s is bound to the same inode with the same bytes. */
  ghost predicate OthersKept(d: Disk, e: Disk, alias: bytes)
  {
    forall b | b != alias :: SameEntry(d, e, b)
  }

  ghost predicate EntriesKept(d: Disk, e: Disk)
  {
    forall b :: SameEntry(d, e, b)
  }

  /** Staging a temporary file: created, `written` into, perhaps synced. */
  function Staged(d: Disk, nonce: bytes, i: ino, written: bytes, synced: bool): (e: Disk)
  {
    var created := Append(Create(d, Temp(nonce), i), i, written);
    if synced then Fsync(created, i) else created
  }

  lemma CreateFields(d: Disk, n: Name, i: ino)
    ensures var e := Create(d, n, i);
      e.names == d.names[n := i] && e.data == d.data[i := []] && e.synced == d.synced - {i}
  {
  }

  lemma CreateSound(d: Disk, n: Name, i: ino)
    requires Sound(d)
    ensures Sound(Create(d, n, i))
  {
    CreateLatest(d, n, i);
    hide Latest, Create;
    CreateFields(d, n, i);
  }

  /** Latest bindings do not depend on the bytes of files. */
  lemma LatestNames(d: Disk, e: Disk)
    requires Latest(d) && e.names == d.names && e.recent == d.recent
    ensures Latest(e)
  {
    assert forall n :: Lookup(e, n) == Lookup(d, n);
  }

  lemma StagingKeepsEntries(d: Disk, nonce: bytes, i: ino, written: bytes, synced: bool)
    requires Sound(d) && i !in d.data
    ensures var e := Staged(d, nonce, i, written, synced);
      && Sound(e) && EntriesKept(d, e) && e.names == d.names[Temp(nonce) := i]
      && i in e.data && e.data[i] == written && (synced ==> i in e.synced)
  {
    hide Create, Latest, Candidates;
    var created, e := Create(d, Temp(nonce), i), Staged(d, nonce, i, written, synced);
    CreateSound(d, Temp(nonce), i);
    CreateFields(d, Temp(nonce), i);
    assert [] + written == written;
    LatestNames(created, e);
    forall b ensures SameEntry(d, e, b) {
      assert Entry(b) in d.names ==> d.names[Entry(b)] != i;
    }
  }

  /** Renaming the staged file over the entry. */
  lemma CommitReplacesEntry(d: Disk, nonce: bytes, i: ino, alias: bytes)
    requires Sound(d) && Temp(nonce) in d.names && d.names[Temp(nonce)] == i
    ensures var e := Rename(d, Temp(nonce), Entry(alias));
      && Sound(e) && OthersKept(d, e, alias) && e.data == d.data && e.synced == d.synced
      && e.names == d.names[Entry(alias) := i] - {Temp(nonce)}
  {
    BindSound(d, Entry(alias), Some(i));
    BindSound(Bind(d, Entry(alias), Some(i)), Temp(nonce), None);
  }

  lemma UnlinkTemp(d: Disk, nonce: bytes)
    requires Sound(d)
    ensures var e := Unlink(d, Temp(nonce));
      Sound(e) && EntriesKept(d, e) && e.data == d.data && e.names == d.names - {Temp(nonce)}
  {
    BindSound(d, Temp(nonce), None);
  }

  lemma KeptTrans(d: Disk, e: Disk, f: Disk, alias: bytes)
    requires EntriesKept(d, e) && OthersKept(e, f, alias)
    ensures OthersKept(d, f, alias)
    ensures EntriesKept(e, f) ==> EntriesKept(d, f)
  {
    forall b | b != alias || EntriesKept(e, f) ensures SameEntry(d, f, b) {
      assert SameEntry(d, e, b) && SameEntry(e, f, b);
    }
  }

  lemma KeptReflexive(d: Disk)
    ensures EntriesKept(d, d)
  {
  }

  lemma OthersTrans(d: Disk, e: Disk, f: Disk, alias: bytes)
    requires OthersKept(d, e, alias) && EntriesKept(e, f)
    ensures OthersKept(d, f, alias)
  {
    forall b | b != alias ensures SameEntry(d, f, b) {
      assert SameEntry(d, e, b) && SameEntry(e, f, b);
    }
  }

  lemma SyncKeepsEntries(d: Disk)
    requires Sound(d)
    ensures Sound(SyncDirectory(d)) && EntriesKept(d, SyncDirectory(d))
  {
  }

  class EncryptedFileVault {
    const dek: key
    var disk: Disk
    /** The memory of the ideal cipher: every seal it ever made, under any key. */
    var seals: set<Seal>

    ghost predicate Valid()
      reads this
    {
      Sound(disk) && Ledger(seals)
    }

    ghost function View(alias: bytes): (r: Outcome<bytes>)
      requires Valid()
      reads this
    {
      Lookups(disk, seals, dek, alias)
    }

    constructor (k: key, d: Disk, s: set<Seal>)
      requires Sound(d) && Ledger(s)
      ensures Valid() && dek == k && disk == d && seals == s
    {
      dek := k;
      disk := d;
      seals := s;
    }

    method Decipher(nonce: bytes, aad: bytes, cipher: bytes, tag: bytes) returns (p: Option<bytes>)
      requires Valid()
      ensures p == Decrypt(seals, dek, nonce, aad, cipher, tag)
    {
      var matching := set x | x in seals && x.key == dek && x.nonce == nonce && x.aad == aad && x.cipher == cipher && x.tag == tag;
      if matching == {} {
        assert forall x | x in seals :: x !in matching;
        return None;
      }
      var x :| x in matching;
      return Some(x.plain);
    }

    /** `works` is false when the file cannot be opened, inspected or read though it may be there. */
    method Resolve(alias: bytes, works: bool) returns (r: Outcome<bytes>)
      requires Valid()
      ensures r == if works then View(alias) else Corrupt
    {
      if !works {
        return Corrupt;
      }
      if Entry(alias) !in disk.names {
        return Missing;
      }
      var record := disk.data[disk.names[Entry(alias)]];
      if !(OVERHEAD <= |record| <= MAX_SECRET + OVERHEAD) {
        return Corrupt;
      }
      if record[..4] != MAGIC || Aad(alias).None? {
        return Corrupt;
      }
      var end := |record| - 16;
      var plain := Decipher(record[4..16], Aad(alias).value, record[16..end], record[end..]);
      return if plain.None? then Corrupt else Done(plain.value);
    }

    /** The file operations of a put: stage the record, sync it, rename it over the entry, sync the
        directory; unlink the staged file on failure. */
    method WriteEntry(alias: bytes, nonce: bytes, inode: ino, record: bytes, fault: Fault, cleanupFails: bool)
      returns (ok: bool)
      requires Valid() && inode !in disk.data && Temp(nonce) !in disk.names
      modifies this`disk
      ensures Valid()
      ensures ok <==> fault in {NoFault, AtResolve, AtCreate, AtUnlink}
      ensures ok || fault == AtSync ==>
        && OthersKept(old(disk), disk, alias) && disk.names == old(disk.names)[Entry(alias) := inode]
        && inode in disk.data && disk.data[inode] == record && inode in disk.synced
      ensures ok ==> disk.recent == map[]
      ensures !ok && fault != AtSync ==> EntriesKept(old(disk), disk) && (!cleanupFails ==> disk.names == old(disk.names))
    {
      hide Staged, Rename, Unlink, Sound, SameEntry, Ledger;
      var torn := fault.AtWrite?;
      var written := if torn then record[..if fault.written < |record| then fault.written else |record|] else record;
      var synced := !torn && fault != AtFsync;
      StagingKeepsEntries(disk, nonce, inode, written, synced);
      disk := Staged(disk, nonce, inode, written, synced);
      if synced && fault != AtRename {
        CommitReplacesEntry(disk, nonce, inode, alias);
        KeptTrans(old(disk), disk, Rename(disk, Temp(nonce), Entry(alias)), alias);
        disk := Rename(disk, Temp(nonce), Entry(alias));
        if fault == AtSync { return false; }
        SyncKeepsEntries(disk);
        OthersTrans(old(disk), disk, SyncDirectory(disk), alias);
        disk := SyncDirectory(disk);
        return true;
      }
      if !cleanupFails {
        UnlinkTemp(disk, nonce);
        KeptTrans(old(disk), disk, Unlink(disk, Temp(nonce)), alias);
        disk := Unlink(disk, Temp(nonce));
      }
      return false;
    }

    /** The checks that precede any change: size, an existing entry that authenticates, a usable
        alias, and a free temporary name. */
    ghost predicate Accepts(alias: bytes, secret: bytes, nonce: bytes)
      requires Valid()
      reads this
    {
      |secret| <= MAX_SECRET && !View(alias).Corrupt? && Aad(alias).Some? && Temp(nonce) !in disk.names
    }

    /** `put`. The nonce is drawn and `cipher` and `tag` are the cipher's output; `inode` is what
        the file system allocates. A put that fails at any point leaves every entry as it was,
        except that a failing directory sync reports an error for a put that has taken effect. */
    method Put(alias: bytes, secret: bytes, nonce: bytes, cipher: bytes, tag: bytes, inode: ino, fault: Fault, cleanupFails: bool)
      returns (r: Outcome<()>)
      requires Valid()
      requires Proper(Seal(dek, nonce, [], cipher, tag, secret)) && forall x | x in seals :: x.nonce != nonce
      requires inode !in disk.data
      modifies this
      ensures Valid()
      ensures !old(Accepts(alias, secret, nonce)) ==> !r.Done? && disk == old(disk)
      ensures |secret| > MAX_SECRET ==> r == InvalidArgument && seals == old(seals)
      ensures fault == AtResolve ==> disk == old(disk) && seals == old(seals)
      ensures r.Done? <==> old(Accepts(alias, secret, nonce)) && fault in {NoFault, AtUnlink}
      ensures r.Done? || (old(Accepts(alias, secret, nonce)) && fault == AtSync) ==>
        View(alias) == Done(secret) && OthersKept(old(disk), disk, alias)
      ensures r.Done? ==> disk.names == old(disk.names)[Entry(alias) := inode] && disk.recent == map[] && inode in disk.synced
      ensures !r.Done? && fault != AtSync ==> EntriesKept(old(disk), disk) && (!cleanupFails ==> disk.names == old(disk.names))
    {
      hide Unseal, Record, Sound, SameEntry, Aad;
      KeptReflexive(disk);
      if |secret| > MAX_SECRET {
        return InvalidArgument;
      }
      var existing := Resolve(alias, fault != AtResolve);
      if existing.Corrupt? {
        return Corrupt;
      }
      if Aad(alias).None? {
        return Corrupt;
      }
      var seal := Seal(dek, nonce, Aad(alias).value, cipher, tag, secret);
      seals := seals + {seal};
      if Temp(nonce) in disk.names || fault == AtCreate {
        return Corrupt;
      }
      var ok := WriteEntry(alias, nonce, inode, Record(seal), fault, cleanupFails);
      UnsealRecord(seals, seal, alias);
      return if ok then Done(()) else Corrupt;
    }

    /** `delete`: refuses to remove what it cannot authenticate; deleting nothing succeeds. */
    method Delete(alias: bytes, fault: Fault) returns (r: Outcome<()>)
      requires Valid()
      modifies this`disk
      ensures Valid()
      ensures old(View(alias)).Corrupt? ==> r == Corrupt && disk == old(disk)
      ensures fault == AtResolve ==> disk == old(disk)
      ensures r.Done? <==>
        !old(View(alias)).Corrupt? && fault != AtResolve && fault != AtSync && (old(View(alias)).Done? ==> fault != AtUnlink)
      ensures r.Done? ==> View(alias) == Missing && disk.names == old(disk.names) - {Entry(alias)} && disk.recent == map[]
      ensures OthersKept(old(disk), disk, alias)
    {
      hide Unseal;
      var existing := Resolve(alias, fault != AtResolve);
      if existing.Corrupt? {
        return Corrupt;
      }
      if existing.Done? {
        if fault == AtUnlink {
          return Corrupt;
        }
        disk := Unlink(disk, Entry(alias));
      }
      if fault == AtSync {
        return Corrupt;
      }
      disk := SyncDirectory(disk);
      return Done(());
    }
  }

  /** Entries that are kept as bytes are kept as secrets, for every key. */
  lemma KeptReadsTheSame(d: Disk, e: Disk, before: set<Seal>, after: set<Seal>, k: key, alias: bytes, b: bytes)
    requires Sound(d) && Sound(e) && Ledger(after) && before <= after && OthersKept(d, e, alias) && b != alias
    requires Lookups(d, before, k, b).Done?
    ensures Lookups(e, after, k, b) == Lookups(d, before, k, b)
  {
    assert SameEntry(d, e, b);
    UnsealMonotone(before, after, k, b, d.data[d.names[Entry(b)]]);
  }
}
