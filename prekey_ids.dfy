/**
 * Allocation of pre-key ids (`Manager.generatePreKeys`, `generateSignedPreKey`):
 * batches of 100 one-time pre-keys numbered from a stored offset, and signed
 * pre-keys numbered by a stored counter, both modulo `Medium.MAX_VALUE` in
 * Java `int` arithmetic.
 */
module PreKeyIds {
  import opened JavaTypes
  import PreKeyStore

  /** `Medium.MAX_VALUE`: the largest 24-bit id. */
  const MEDIUM_MAX: int := 0xFF_FFFF
  const PREKEY_BATCH_SIZE: int := 100

  /** Java's `x % Medium.MAX_VALUE` on an `int`. */
  function IdRem(x: int32): (r: int32)
    ensures x >= 0 ==> 0 <= r < MEDIUM_MAX
  {
    JavaRem(x, MEDIUM_MAX)
  }

  /** `(preKeyIdOffset + i) % Medium.MAX_VALUE`: the id of the `i`th key of a batch. */
  function PreKeyId(offset: int32, i: nat): int32
    requires i < PREKEY_BATCH_SIZE
  {
    IdRem(AddInt32(offset, i))
  }

  function BatchIds(offset: int32): (ids: seq<int32>)
    ensures |ids| == PREKEY_BATCH_SIZE
  {
    seq(PREKEY_BATCH_SIZE, i requires 0 <= i < PREKEY_BATCH_SIZE => PreKeyId(offset, i))
  }

  /** `(preKeyIdOffset + PREKEY_BATCH_SIZE + 1) % Medium.MAX_VALUE`, added left to right. */
  function NextOffset(offset: int32): int32
  {
    IdRem(AddInt32(AddInt32(offset, PREKEY_BATCH_SIZE), 1))
  }

  /** `(nextSignedPreKeyId + 1) % Medium.MAX_VALUE`. */
  function NextSignedId(id: int32): int32
  {
    IdRem(AddInt32(id, 1))
  }

  /** The counters' range while the account file holds ids the code itself produced. */
  predicate InRange(x: int) { 0 <= x < MEDIUM_MAX }

  /** From an offset in range, a batch numbers its keys `offset`, `offset + 1`, ... modulo the maximum. */
  lemma BatchIdsFromOffset(offset: int32)
    requires InRange(offset)
    ensures forall i :: 0 <= i < PREKEY_BATCH_SIZE ==> BatchIds(offset)[i] == (offset + i) % MEDIUM_MAX
  {
  }

  /** From an offset in range, a batch's ids are in range and pairwise distinct, and so is the next offset. */
  lemma BatchIdsDistinct(offset: int32)
    requires InRange(offset)
    ensures forall i :: 0 <= i < PREKEY_BATCH_SIZE ==> InRange(BatchIds(offset)[i])
    ensures forall i, j :: 0 <= i < j < PREKEY_BATCH_SIZE ==> BatchIds(offset)[i] != BatchIds(offset)[j]
    ensures InRange(NextOffset(offset))
  {
    var ids := BatchIds(offset);
    forall i, j | 0 <= i < j < PREKEY_BATCH_SIZE
      ensures ids[i] != ids[j]
    {
      if offset + j < MEDIUM_MAX || offset + i >= MEDIUM_MAX {
        assert ids[j] - ids[i] == j - i;
      } else {
        assert ids[i] == offset + i && ids[j] == offset + j - MEDIUM_MAX;
      }
    }
  }

  /** Two consecutive batches share no id. */
  lemma ConsecutiveBatchesDisjoint(offset: int32)
    requires InRange(offset)
    ensures forall i, j :: 0 <= i < PREKEY_BATCH_SIZE && 0 <= j < PREKEY_BATCH_SIZE ==>
      BatchIds(offset)[i] != BatchIds(NextOffset(offset))[j]
  {
    var ids, next := BatchIds(offset), NextOffset(offset);
    assert next == (offset + PREKEY_BATCH_SIZE + 1) % MEDIUM_MAX;
    BatchIdsFromOffset(offset);
    BatchIdsFromOffset(next);
    forall i, j | 0 <= i < PREKEY_BATCH_SIZE && 0 <= j < PREKEY_BATCH_SIZE
      ensures ids[i] != BatchIds(next)[j]
    {
      SumsApart(offset, i, PREKEY_BATCH_SIZE + 1 + j);
    }
  }

  /** The id between two consecutive batches, `offset + 100`, is in neither. */
  lemma SkippedIdUnused(offset: int32)
    requires InRange(offset)
    ensures var skipped := (offset + PREKEY_BATCH_SIZE) % MEDIUM_MAX;
      skipped !in BatchIds(offset) && skipped !in BatchIds(NextOffset(offset))
  {
    var ids, next := BatchIds(offset), NextOffset(offset);
    assert next == (offset + PREKEY_BATCH_SIZE + 1) % MEDIUM_MAX;
    BatchIdsFromOffset(offset);
    BatchIdsFromOffset(next);
    var skipped := (offset + PREKEY_BATCH_SIZE) % MEDIUM_MAX;
    forall i | 0 <= i < PREKEY_BATCH_SIZE
      ensures ids[i] != skipped && BatchIds(next)[i] != skipped
    {
      SumsApart(offset, i, PREKEY_BATCH_SIZE);
      SumsApart(offset, PREKEY_BATCH_SIZE, PREKEY_BATCH_SIZE + 1 + i);
    }
  }

  /** Two offsets less than the modulus apart land on different residues. */
  lemma SumsApart(offset: int, a: nat, b: nat)
    requires InRange(offset) && a < b < 2 * PREKEY_BATCH_SIZE + 1
    ensures (offset + a) % MEDIUM_MAX != (offset + b) % MEDIUM_MAX
    ensures (offset + a) % MEDIUM_MAX != ((offset + PREKEY_BATCH_SIZE + 1) % MEDIUM_MAX + (b - PREKEY_BATCH_SIZE - 1)) % MEDIUM_MAX
  {
  }

  /** The signed pre-key counter counts up by one and wraps from the maximum minus one to 0. */
  lemma NextSignedIdCounts(id: int32)
    requires InRange(id)
    ensures InRange(NextSignedId(id))
    ensures id < MEDIUM_MAX - 1 ==> NextSignedId(id) == id + 1
    ensures id == MEDIUM_MAX - 1 ==> NextSignedId(id) == 0
  {
  }

  // ---------------------------------------------------------------------------
  // Generating the keys

  datatype KeyPair = KeyPair(publicKey: Bytes, privateKey: Bytes)
  datatype PreKeyRecord = PreKeyRecord(id: int32, keyPair: KeyPair)
  datatype SignedPreKeyRecord = SignedPreKeyRecord(id: int32, timestamp: int, keyPair: KeyPair, signature: Bytes)

  /** The records of a batch from `offset`, one per key pair. */
  function BatchRecords(offset: int32, keyPairs: seq<KeyPair>): (rs: seq<PreKeyRecord>)
    requires |keyPairs| == PREKEY_BATCH_SIZE
    ensures |rs| == PREKEY_BATCH_SIZE
    ensures forall i :: 0 <= i < PREKEY_BATCH_SIZE ==> rs[i].id == BatchIds(offset)[i] && rs[i].keyPair == keyPairs[i]
  {
    seq(PREKEY_BATCH_SIZE, i requires 0 <= i < PREKEY_BATCH_SIZE => PreKeyRecord(PreKeyId(offset, i), keyPairs[i]))
  }

  /** The pre-key map after storing `rs` in order. */
  function StoreAll(m: map<int32, Bytes>, rs: seq<PreKeyRecord>, serialize: PreKeyRecord -> Bytes): map<int32, Bytes>
  {
    if rs == [] then m
    else
      var last := rs[|rs| - 1];
      StoreAll(m, rs[..|rs| - 1], serialize)[last.id := serialize(last)]
  }

  /**
   * After storing records with distinct ids, each id holds its record and
   * every other id keeps what it held.
   */
  lemma {:induction false} StoreAllHolds(m: map<int32, Bytes>, rs: seq<PreKeyRecord>, serialize: PreKeyRecord -> Bytes)
    requires forall i, j :: 0 <= i < j < |rs| ==> rs[i].id != rs[j].id
    ensures forall i :: 0 <= i < |rs| ==> rs[i].id in StoreAll(m, rs, serialize) && StoreAll(m, rs, serialize)[rs[i].id] == serialize(rs[i])
    ensures forall id :: (forall i :: 0 <= i < |rs| ==> rs[i].id != id) ==>
      (id in StoreAll(m, rs, serialize) <==> id in m) && (id in m ==> StoreAll(m, rs, serialize)[id] == m[id])
  {
    if rs != [] {
      var init := rs[..|rs| - 1];
      StoreAllHolds(m, init, serialize);
      assert forall i :: 0 <= i < |init| ==> init[i] == rs[i];
    }
  }

  /** The key counters and pre-key stores of an account (`accountData`). */
  class KeyAccount {
    var preKeyIdOffset: int32
    var nextSignedPreKeyId: int32
    const preKeys: PreKeyStore.PreKeyStore
    var signedPreKeys: map<int32, SignedPreKeyRecord>

    constructor(offset: int32, nextSigned: int32, store: PreKeyStore.PreKeyStore)
      ensures preKeyIdOffset == offset && nextSignedPreKeyId == nextSigned && preKeys == store
      ensures signedPreKeys == map[]
    {
      preKeyIdOffset, nextSignedPreKeyId, preKeys := offset, nextSigned, store;
      signedPreKeys := map[];
    }

    /**
     * `generatePreKeys`: a batch of 100 keys numbered from the offset, each
     * stored as it is made, then the offset advanced past the batch and one
     * more id. The key pairs are the ones key generation returned.
     */
    method GeneratePreKeys(keyPairs: seq<KeyPair>, serialize: PreKeyRecord -> Bytes) returns (records: seq<PreKeyRecord>)
      requires |keyPairs| == PREKEY_BATCH_SIZE
      modifies this, preKeys
      ensures records == BatchRecords(old(preKeyIdOffset), keyPairs)
      ensures preKeys.store == StoreAll(old(preKeys.store), records, serialize)
      ensures preKeyIdOffset == NextOffset(old(preKeyIdOffset))
      ensures nextSignedPreKeyId == old(nextSignedPreKeyId) && signedPreKeys == old(signedPreKeys)
    {
      records := [];
      var i := 0;
      while i < PREKEY_BATCH_SIZE
        invariant 0 <= i <= PREKEY_BATCH_SIZE
        invariant preKeyIdOffset == old(preKeyIdOffset)
        invariant nextSignedPreKeyId == old(nextSignedPreKeyId) && signedPreKeys == old(signedPreKeys)
        invariant records == BatchRecords(preKeyIdOffset, keyPairs)[..i]
        invariant preKeys.store == StoreAll(old(preKeys.store), records, serialize)
      {
        var preKeyId := IdRem(AddInt32(preKeyIdOffset, i));
        var record := PreKeyRecord(preKeyId, keyPairs[i]);
        preKeys.StorePreKey(preKeyId, serialize(record));
        records := records + [record];
        assert records[..|records| - 1] == BatchRecords(preKeyIdOffset, keyPairs)[..i];
        i := i + 1;
      }
      preKeyIdOffset := IdRem(AddInt32(AddInt32(preKeyIdOffset, PREKEY_BATCH_SIZE), 1));
    }

    /**
     * `generateSignedPreKey`: a record under the current counter, signed with
     * the identity key by `sign`, stored, and the counter advanced.
     */
    method GenerateSignedPreKey(identityPrivateKey: Bytes, keyPair: KeyPair, now: int,
                                sign: (Bytes, Bytes) -> Bytes) returns (record: SignedPreKeyRecord)
      modifies this
      ensures record == SignedPreKeyRecord(old(nextSignedPreKeyId), now, keyPair, sign(identityPrivateKey, keyPair.publicKey))
      ensures signedPreKeys == old(signedPreKeys)[record.id := record]
      ensures nextSignedPreKeyId == NextSignedId(old(nextSignedPreKeyId))
      ensures preKeyIdOffset == old(preKeyIdOffset)
    {
      var signature := sign(identityPrivateKey, keyPair.publicKey);
      record := SignedPreKeyRecord(nextSignedPreKeyId, now, keyPair, signature);
      signedPreKeys := signedPreKeys[nextSignedPreKeyId := record];
      nextSignedPreKeyId := IdRem(AddInt32(nextSignedPreKeyId, 1));
    }
  }

  /** From an offset in range, every key of a generated batch is stored under its own id. */
  lemma GeneratedBatchStored(offset: int32, keyPairs: seq<KeyPair>, m: map<int32, Bytes>, serialize: PreKeyRecord -> Bytes)
    requires InRange(offset) && |keyPairs| == PREKEY_BATCH_SIZE
    ensures var rs := BatchRecords(offset, keyPairs);
      forall i :: 0 <= i < PREKEY_BATCH_SIZE ==> rs[i].id in StoreAll(m, rs, serialize) && StoreAll(m, rs, serialize)[rs[i].id] == serialize(rs[i])
  {
    BatchIdsDistinct(offset);
    StoreAllHolds(m, BatchRecords(offset, keyPairs), serialize);
  }
}
