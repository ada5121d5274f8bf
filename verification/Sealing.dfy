/** HAV1 records over an ideal authenticated cipher (the interface of section 2 of
    RFC 5116): decryption succeeds on exactly the tuples that were sealed. */
module Sealing {
  import opened Bytes
  import VaultNames

  const MAX_SECRET: nat := 524288
  const OVERHEAD: nat := 32
  const MAGIC: bytes := [72, 65, 86, 49] // "HAV1"

  type key = k: bytes | |k| == 32 witness seq(32, _ => 0)

  /** One call of the cipher's encryption. */
  datatype Seal = Seal(key: key, nonce: bytes, aad: bytes, cipher: bytes, tag: bytes, plain: bytes)

  predicate Proper(x: Seal) { |x.nonce| == 12 && |x.tag| == 16 && |x.cipher| == |x.plain| }

  /** Everything sealed so far, under whatever keys; no nonce is used twice. */
  predicate Ledger(seals: set<Seal>)
  {
    && (forall x | x in seals :: Proper(x))
    && (forall x, y | x in seals && y in seals && x.nonce == y.nonce :: x == y)
  }

  /** The associated data that binds a record to its alias; none for an absurdly long alias. */
  function Aad(alias: bytes): (aad: Option<bytes>)
  {
    if |alias| >= U32_LIMIT then None else Some(MAGIC + ToBigEndian(|alias|, 4) + alias)
  }

  lemma AadInjective(a: bytes, b: bytes)
    requires Aad(a).Some? && Aad(a) == Aad(b)
    ensures a == b
  {
    assert Aad(a).value[8..] == a && Aad(b).value[8..] == b;
  }

  function Record(x: Seal): (record: bytes) { MAGIC + (x.nonce + (x.cipher + x.tag)) }

  /** Decryption: the plaintext of the matching seal, if there is one. */
  ghost function Decrypt(seals: set<Seal>, k: key, nonce: bytes, aad: bytes, cipher: bytes, tag: bytes): (p: Option<bytes>)
    ensures p.Some? <==> exists x | x in seals ::
      x.key == k && x.nonce == nonce && x.aad == aad && x.cipher == cipher && x.tag == tag
    ensures p.Some? ==> exists x | x in seals ::
      x.key == k && x.nonce == nonce && x.aad == aad && x.cipher == cipher && x.tag == tag && x.plain == p.value
  {
    if x :| x in seals && x.key == k && x.nonce == nonce && x.aad == aad && x.cipher == cipher && x.tag == tag
    then Some(x.plain) else None
  }

  /** What `resolve` makes of the bytes of an entry file. */
  ghost function Unseal(seals: set<Seal>, k: key, alias: bytes, record: bytes): (secret: Option<bytes>)
  {
    if !(OVERHEAD <= |record| <= MAX_SECRET + OVERHEAD) || record[..4] != MAGIC || Aad(alias).None? then None
    else
      var end := |record| - 16;
      Decrypt(seals, k, record[4..16], Aad(alias).value, record[16..end], record[end..])
  }

  lemma RecordParts(x: Seal)
    requires Proper(x)
    ensures var r := Record(x);
      && |r| == |x.plain| + OVERHEAD && r[..4] == MAGIC && r[4..16] == x.nonce
      && r[16..|r| - 16] == x.cipher && r[|r| - 16..] == x.tag
  {
    var r := Record(x);
    assert r[..4] == MAGIC;
    assert r[4..16] == x.nonce;
    assert r[16..|r| - 16] == x.cipher;
    assert r[|r| - 16..] == x.tag;
  }

  /** A sealed secret of any permitted length is read back exactly. */
  lemma UnsealRecord(seals: set<Seal>, x: Seal, alias: bytes)
    requires Ledger(seals) && x in seals && Aad(alias) == Some(x.aad) && |x.plain| <= MAX_SECRET
    ensures Unseal(seals, x.key, alias, Record(x)) == Some(x.plain)
  {
    hide Record;
    RecordParts(x);
  }

  /** Nothing is released but a secret that was sealed under this key for this alias, in these bytes. */
  lemma UnsealOnlySealed(seals: set<Seal>, k: key, alias: bytes, record: bytes) returns (x: Seal)
    requires Ledger(seals) && Unseal(seals, k, alias, record).Some?
    ensures x in seals && x.key == k && Aad(alias) == Some(x.aad)
    ensures record == Record(x) && Unseal(seals, k, alias, record) == Some(x.plain)
  {
    var end := |record| - 16;
    x :| x in seals && x.key == k && x.nonce == record[4..16] && x.aad == Aad(alias).value
         && x.cipher == record[16..end] && x.tag == record[end..]
         && x.plain == Unseal(seals, k, alias, record).value;
    assert record == record[..4] + (record[4..16] + (record[16..end] + record[end..]));
  }

  /** Hence a record moved to another alias's file, or opened with another key, is refused. */
  lemma SealBinds(seals: set<Seal>, x: Seal, k: key, alias: bytes, owner: bytes)
    requires Ledger(seals) && x in seals && Aad(owner) == Some(x.aad)
    requires k != x.key || alias != owner
    ensures Unseal(seals, k, alias, Record(x)).None?
  {
    if Unseal(seals, k, alias, Record(x)).Some? {
      var y := UnsealOnlySealed(seals, k, alias, Record(x));
      RecordParts(x);
      RecordParts(y);
      assert y.nonce == x.nonce;
      AadInjective(alias, owner);
    }
  }

  /** Later seals change no earlier reading. */
  lemma UnsealMonotone(seals: set<Seal>, more: set<Seal>, k: key, alias: bytes, record: bytes)
    requires Ledger(more) && seals <= more && Unseal(seals, k, alias, record).Some?
    ensures Unseal(more, k, alias, record) == Unseal(seals, k, alias, record)
  {
    var x := UnsealOnlySealed(seals, k, alias, record);
    var y := UnsealOnlySealed(more, k, alias, record);
    RecordParts(x);
    RecordParts(y);
  }

  /** The associated data is `HAV1`, the alias's length in four octets, and the alias; only an alias of
      4294967296 bytes or more has none. */
  lemma AadLayout(alias: bytes)
    ensures Aad(alias).None? <==> |alias| >= 4294967296
    ensures Aad(alias).Some? ==>
      var a := Aad(alias).value; a[..4] == [72, 65, 86, 49] && FromBigEndian(a[4..8]) == |alias| && a[8..] == alias
  {
    if Aad(alias).Some? {
      Widths();
      BigEndianRoundTrip(|alias|, 4);
      var a := Aad(alias).value;
      assert a[4..8] == ToBigEndian(|alias|, 4);
    }
  }
}
