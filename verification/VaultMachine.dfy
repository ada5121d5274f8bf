/** Any number of callers of the file vaults, interleaved one file operation at a
    time, with a crash allowed after any of them. */
module VaultMachine {
  import opened Bytes
  import opened VaultDisk
  import opened Sealing
  import opened VaultSpec

  /** `FileVault`, or `EncryptedFileVault` instances that share a key. */
  datatype Kind = Plain | Keyed(key: key)

  /** What a file's bytes mean as the entry of an alias. */
  ghost function Reads(k: Kind, seals: set<Seal>, alias: bytes, data: bytes): (v: Option<bytes>)
  {
    match k
    case Plain => Some(data)
    case Keyed(key) => Unseal(seals, key, alias, data)
  }

  /** Where a call stands: the file operation it performs next. */
  datatype Pc =
    | PutOpen(alias: bytes, secret: bytes)
    | PutCheck(alias: bytes, secret: bytes, file: ino)
    | PutCreate(alias: bytes, secret: bytes)
    | PutWrite(alias: bytes, secret: bytes, id: bytes, file: ino, record: bytes, written: nat)
    | PutFsync(alias: bytes, secret: bytes, id: bytes, file: ino, record: bytes)
    | PutRename(alias: bytes, secret: bytes, id: bytes, file: ino, record: bytes)
    | PutSync(id: bytes, phase: Phase)
    | PutUndo(id: bytes, phase: Phase)
    | ResolveStat(alias: bytes)
    | ResolveOpen(alias: bytes)
    | ResolveRead(alias: bytes, file: ino, phase: Phase)
    | DeleteOpen(alias: bytes)
    | DeleteCheck(alias: bytes, file: ino)
    | DeleteUnlink(alias: bytes)
    | DeleteSync(phase: Phase)
    | Answer(phase: Phase, reply: Reply)

  /** `book` is auxiliary: it records effects, and no step depends on it. */
  datatype State = State(disk: Disk, seals: set<Seal>, pcs: map<nat, Pc>, book: Book)

  /** What the environment decides in one step. */
  datatype Choice = Choice(fails: bool, id: bytes, file: ino, cipher: bytes, tag: bytes, upto: nat)

  /** The stage of the atomic vault's protocol that a pc stands for. */
  function PhaseOf(pc: Pc): (p: Phase)
  {
    match pc
    case PutSync(_, phase) => phase
    case PutUndo(_, phase) => phase
    case ResolveRead(_, _, phase) => phase
    case DeleteSync(phase) => phase
    case Answer(phase, _) => phase
    case ResolveStat(a) => Called(Resolve(a))
    case ResolveOpen(a) => Called(Resolve(a))
    case DeleteOpen(a) => Called(Delete(a))
    case DeleteCheck(a, _) => Called(Delete(a))
    case DeleteUnlink(a) => Called(Delete(a))
    case PutOpen(a, v) => Called(Put(a, v))
    case PutCheck(a, v, _) => Called(Put(a, v))
    case PutCreate(a, v) => Called(Put(a, v))
    case PutWrite(a, v, _, _, _, _) => Called(Put(a, v))
    case PutFsync(a, v, _, _, _) => Called(Put(a, v))
    case PutRename(a, v, _, _, _) => Called(Put(a, v))
  }

  predicate Staging(pc: Pc) { pc.PutWrite? || pc.PutFsync? || pc.PutRename? }

  predicate OwnsTemp(pc: Pc) { Staging(pc) || pc.PutSync? || pc.PutUndo? }

  // ---------------------------------------------------------------------
  // Steps
  // ---------------------------------------------------------------------

  /** The checks made before the first file operation. */
  function Begin(k: Kind, op: Op): (pc: Pc)
  {
    match op
    case Put(a, v) =>
      if |v| > MAX_SECRET then Answer(Called(op), Failed)
      else if k.Plain? then PutCreate(a, v) else PutOpen(a, v)
    case Resolve(a) => if k.Plain? then ResolveStat(a) else ResolveOpen(a)
    case Delete(a) => if k.Plain? then DeleteUnlink(a) else DeleteOpen(a)
  }

  /** A plain temporary name carries a process id and a counter, so no other live call has it;
      a sealed one carries a nonce, never drawn before. */
  ghost predicate FreshId(k: Kind, s: State, id: bytes)
  {
    match k
    case Plain => forall u | u in s.pcs && OwnsTemp(s.pcs[u]) :: s.pcs[u].id != id
    case Keyed(_) => |id| == 12 && forall x | x in s.seals :: x.nonce != id
  }

  ghost predicate Allowed(k: Kind, s: State, t: nat, c: Choice)
    requires t in s.pcs
  {
    match s.pcs[t]
    case PutCreate(a, v) =>
      c.file !in s.disk.data && FreshId(k, s, c.id) && |c.tag| == 16 && |c.cipher| == |v|
    case PutWrite(_, _, _, _, record, written) => written <= c.upto <= |record|
    case _ => true
  }

  /** The environment assumption of `FileVault`: a file that is there can be inspected. */
  predicate StatWorks(s: State, t: nat, c: Choice)
    requires t in s.pcs
  {
    s.pcs[t].ResolveStat? && c.fails ==> Entry(s.pcs[t].alias) !in s.disk.names
  }

  function Give(s: State, t: nat, pc: Pc): (n: State) { s.(pcs := s.pcs[t := pc]) }

  /** The book after a directory sync: everything up to now is durable. */
  function Settled(b: Book): (c: Book)
  {
    b.(floors := map a | a in b.values :: |b.values[a]| - 1)
  }

  /** A call that gives up; a staged file is unlinked first. */
  function Fail(pc: Pc): (f: Pc)
  {
    if OwnsTemp(pc) then PutUndo(pc.id, PhaseOf(pc)) else Answer(PhaseOf(pc), Failed)
  }

  /** Seals the secret and creates the temporary file exclusively. A plain writer removes the
      name it could not create; a keyed one leaves it alone. */
  function CreateTurn(k: Kind, s: State, t: nat, c: Choice): (n: State)
    requires t in s.pcs && s.pcs[t].PutCreate?
  {
    var a, v := s.pcs[t].alias, s.pcs[t].secret;
    match k
    case Plain =>
      if c.fails || Temp(c.id) in s.disk.names then Give(s, t, PutUndo(c.id, Called(Put(a, v))))
      else Give(s.(disk := Create(s.disk, Temp(c.id), c.file)), t, PutWrite(a, v, c.id, c.file, v, 0))
    case Keyed(key) =>
      if Aad(a).None? then Give(s, t, Fail(s.pcs[t])) else
      var x := Seal(key, c.id, Aad(a).value, c.cipher, c.tag, v);
      var drawn := s.(seals := s.seals + {x});
      if c.fails || Temp(c.id) in s.disk.names then Give(drawn, t, Fail(s.pcs[t]))
      else Give(drawn.(disk := Create(s.disk, Temp(c.id), c.file)), t, PutWrite(a, v, c.id, c.file, Record(x), 0))
  }

  /** One more chunk of the record reaches the file. */
  function WriteTurn(s: State, t: nat, c: Choice): (n: State)
    requires t in s.pcs && s.pcs[t].PutWrite? && s.pcs[t].written <= c.upto <= |s.pcs[t].record|
  {
    var pc := s.pcs[t];
    if pc.file !in s.disk.data then Give(s, t, Fail(pc)) else
    Give(s.(disk := Append(s.disk, pc.file, pc.record[pc.written..c.upto])), t,
         if c.upto == |pc.record| then PutFsync(pc.alias, pc.secret, pc.id, pc.file, pc.record)
         else pc.(written := c.upto))
  }

  function FsyncTurn(s: State, t: nat): (n: State)
    requires t in s.pcs && s.pcs[t].PutFsync?
  {
    var pc := s.pcs[t];
    Give(s.(disk := Fsync(s.disk, pc.file)), t, PutRename(pc.alias, pc.secret, pc.id, pc.file, pc.record))
  }

  function RenameTurn(s: State, t: nat): (n: State)
    requires t in s.pcs && s.pcs[t].PutRename?
  {
    var pc := s.pcs[t];
    if Temp(pc.id) !in s.disk.names then Give(s, t, Fail(pc)) else
    var (book, phase) := Effect(s.book, Put(pc.alias, pc.secret));
    Give(s.(disk := Rename(s.disk, Temp(pc.id), Entry(pc.alias)), book := book), t, PutSync(pc.id, phase))
  }

  /** The first step of a plain resolve: any failure to inspect the file is reported as absence. */
  function StatTurn(s: State, t: nat, fails: bool): (n: State)
    requires t in s.pcs && s.pcs[t].ResolveStat?
  {
    var a := s.pcs[t].alias;
    if Entry(a) !in s.disk.names then Give(s, t, Answer(Effect(s.book, Resolve(a)).1, Absent))
    else if fails then Give(s, t, Answer(PhaseOf(s.pcs[t]), Absent))
    else if s.disk.names[Entry(a)] in s.disk.data && |s.disk.data[s.disk.names[Entry(a)]]| > MAX_SECRET
    then Give(s, t, Fail(s.pcs[t]))
    else Give(s, t, ResolveOpen(a))
  }

  function OpenTurn(k: Kind, s: State, t: nat): (n: State)
    requires t in s.pcs && s.pcs[t].ResolveOpen?
  {
    var a := s.pcs[t].alias;
    var phase := Effect(s.book, Resolve(a)).1;
    if Entry(a) in s.disk.names then Give(s, t, ResolveRead(a, s.disk.names[Entry(a)], phase))
    else if k.Plain? then Give(s, t, Fail(s.pcs[t]))
    else Give(s, t, Answer(phase, Absent))
  }

  ghost function ReadTurn(k: Kind, s: State, t: nat): (n: State)
    requires t in s.pcs && s.pcs[t].ResolveRead?
  {
    var pc := s.pcs[t];
    if pc.file !in s.disk.data then Give(s, t, Fail(pc)) else
    match Reads(k, s.seals, pc.alias, s.disk.data[pc.file])
    case None => Give(s, t, Fail(pc))
    case Some(v) => Give(s, t, Answer(pc.phase, Found(v)))
  }

  /** A keyed put or delete looks for the entry it is about to replace or remove. */
  function LookTurn(s: State, t: nat): (n: State)
    requires t in s.pcs && (s.pcs[t].PutOpen? || s.pcs[t].DeleteOpen?)
  {
    var pc := s.pcs[t];
    if Entry(pc.alias) in s.disk.names then
      var file := s.disk.names[Entry(pc.alias)];
      Give(s, t, if pc.PutOpen? then PutCheck(pc.alias, pc.secret, file) else DeleteCheck(pc.alias, file))
    else
      Give(s, t, if pc.PutOpen? then PutCreate(pc.alias, pc.secret)
                 else DeleteSync(Effect(s.book, Delete(pc.alias)).1))
  }

  /** The entry that a keyed put or delete found must authenticate before it is replaced or removed. */
  ghost function CheckTurn(k: Kind, s: State, t: nat): (n: State)
    requires t in s.pcs && (s.pcs[t].PutCheck? || s.pcs[t].DeleteCheck?)
  {
    var pc := s.pcs[t];
    if pc.file in s.disk.data && Reads(k, s.seals, pc.alias, s.disk.data[pc.file]).Some?
    then Give(s, t, if pc.PutCheck? then PutCreate(pc.alias, pc.secret) else DeleteUnlink(pc.alias))
    else Give(s, t, Fail(pc))
  }

  function UnlinkTurn(s: State, t: nat): (n: State)
    requires t in s.pcs && s.pcs[t].DeleteUnlink?
  {
    var a := s.pcs[t].alias;
    var (book, phase) := Effect(s.book, Delete(a));
    Give(s.(disk := Unlink(s.disk, Entry(a)), book := book), t, DeleteSync(phase))
  }

  /** A directory sync completes, and with it the call. */
  function SyncTurn(s: State, t: nat): (n: State)
    requires t in s.pcs && (s.pcs[t].PutSync? || s.pcs[t].DeleteSync?)
  {
    Give(s.(disk := SyncDirectory(s.disk), book := Settled(s.book)), t,
         Answer(s.pcs[t].phase, if s.pcs[t].PutSync? then Stored else Removed))
  }

  function UndoTurn(s: State, t: nat, fails: bool): (n: State)
    requires t in s.pcs && s.pcs[t].PutUndo?
  {
    Give(if fails then s else s.(disk := Unlink(s.disk, Temp(s.pcs[t].id))), t, Answer(s.pcs[t].phase, Failed))
  }

  /** One file operation of call `t`. */
  ghost function Turn(k: Kind, s: State, t: nat, c: Choice): (n: State)
    requires t in s.pcs && !s.pcs[t].Answer? && Allowed(k, s, t, c)
  {
    var pc := s.pcs[t];
    if pc.PutUndo? then UndoTurn(s, t, c.fails)
    else if pc.ResolveStat? then StatTurn(s, t, c.fails)
    else if pc.PutCreate? then CreateTurn(k, s, t, c)
    else if c.fails then Give(s, t, Fail(pc))
    else if pc.PutOpen? || pc.DeleteOpen? then LookTurn(s, t)
    else if pc.PutWrite? then WriteTurn(s, t, c)
    else if pc.PutFsync? then FsyncTurn(s, t)
    else if pc.PutRename? then RenameTurn(s, t)
    else if pc.ResolveOpen? then OpenTurn(k, s, t)
    else if pc.ResolveRead? then ReadTurn(k, s, t)
    else if pc.DeleteUnlink? then UnlinkTurn(s, t)
    else if pc.PutSync? || pc.DeleteSync? then SyncTurn(s, t)
    else CheckTurn(k, s, t)
  }

  /** How much of the history of `a` a crash keeps: it left candidate `pick[Entry(a)]`. */
  function Kept(b: Book, pick: map<Name, nat>, a: bytes): (n: nat)
  {
    Floor(b, a) + if Entry(a) in pick then pick[Entry(a)] else 0
  }

  function Front(h: history, n: nat): (f: history) { if n < |h| then h[..n + 1] else h }

  function Truncated(b: Book, pick: map<Name, nat>): (c: Book)
  {
    Book(map a | a in b.values :: Front(b.values[a], Kept(b, pick, a)),
         map a | a in b.values :: Kept(b, pick, a))
  }

  ghost predicate Step(k: Kind, s: State, s': State, l: Label)
  {
    match l
    case Call(t, op) => t !in s.pcs && s' == Give(s, t, Begin(k, op))
    case Return(t, reply) =>
      t in s.pcs && s.pcs[t].Answer? && s.pcs[t].reply == reply && s' == s.(pcs := s.pcs - {t})
    case Inner =>
      exists t, c | t in s.pcs ::
        !s.pcs[t].Answer? && Allowed(k, s, t, c) && StatWorks(s, t, c) && s' == Turn(k, s, t, c)
    case Crash =>
      && s'.pcs == map[] && s'.seals == s.seals
      && exists pick :: Crashes(s.disk, s'.disk, pick) && s'.book == Truncated(s.book, pick)
  }

  ghost predicate Run(k: Kind, states: seq<State>, labels: seq<Label>)
  {
    && |states| == |labels| + 1
    && forall i | 0 <= i < |labels| :: Step(k, states[i], states[i + 1], labels[i])
  }
}
