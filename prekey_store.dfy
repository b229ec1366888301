/**
 * The in-memory one-time pre-key store of an account (`PreKeyStore`): serialised
 * pre-key records by key id, their migration into the database table, and the
 * JSON form the account file keeps them in (an array of `{id, record}` objects,
 * the record in Base64).
 */
module PreKeyStore {
  import opened Wrappers
  import opened JavaTypes
  import Base64

  /** A pre-key record is kept as its serialised bytes. */
  type Record = Bytes

  /** `InvalidKeyIdException`, and the `AssertionError` raised when stored bytes do not parse. */
  datatype LoadError = InvalidKeyId | CorruptRecord

  /** One element of the JSON array: a key id and the Base64 text of its record. */
  datatype Entry = Entry(id: int32, record: string)

  /** The JSON node the deserializer is handed: an array of entries, or anything else. */
  datatype JsonNode = JArray(items: seq<Entry>) | JOther

  /**
   * The map the deserializer builds from the array entries, in order: an entry
   * whose record is not valid Base64 is skipped, and a later entry for the same
   * id replaces an earlier one.
   */
  function FromEntries(es: seq<Entry>): (m: map<int32, Record>)
    ensures forall id :: id in m ==> exists i :: 0 <= i < |es| && es[i].id == id
  {
    if es == [] then map[]
    else
      var m := FromEntries(es[..|es| - 1]);
      var last := es[|es| - 1];
      match Base64.Decode(last.record)
      case Some(bytes) => m[last.id := bytes]
      case None => m
  }

  /** What the deserializer yields for a node: the entries of an array, nothing for any other node. */
  function FromJson(node: JsonNode): (m: map<int32, Record>)
    ensures node.JOther? ==> m == map[]
  {
    match node
    case JArray(items) => FromEntries(items)
    case JOther => map[]
  }

  /** `es` lists the map `m` in some order: one entry per key, its record in Base64. */
  predicate ListsExactly(es: seq<Entry>, m: map<int32, Record>)
  {
    && |es| == |m|
    && (forall i :: 0 <= i < |es| ==> es[i].id in m && es[i].record == Base64.Encode(m[es[i].id]))
    && (forall i, j :: 0 <= i < j < |es| ==> es[i].id != es[j].id)
  }

  /** Reading back what the serializer wrote gives the same id-to-bytes map, whatever order it wrote in. */
  lemma {:induction false} FromEntriesListed(es: seq<Entry>, m: map<int32, Record>)
    requires ListsExactly(es, m)
    ensures FromEntries(es) == m
  {
    if es != [] {
      var init, last := es[..|es| - 1], es[|es| - 1];
      var m' := m - {last.id};
      ListsInit(es, m);
      FromEntriesListed(init, m');
      Base64.DecodeEncode(m[last.id]);
      assert FromEntries(es) == m'[last.id := m[last.id]];
      assert m == m'[last.id := m[last.id]];
    }
  }

  /** Without its last entry, a listing lists the map without that entry's id. */
  lemma ListsInit(es: seq<Entry>, m: map<int32, Record>)
    requires ListsExactly(es, m) && es != []
    ensures ListsExactly(es[..|es| - 1], m - {es[|es| - 1].id})
  {
    var init, last := es[..|es| - 1], es[|es| - 1];
    assert forall i :: 0 <= i < |init| ==> init[i] == es[i];
    assert |m - {last.id}| == |m| - 1;
  }

  /** An entry whose record is not valid Base64 changes nothing: the entries around it are all kept. */
  lemma {:induction false} FromEntriesSkips(before: seq<Entry>, bad: Entry, after: seq<Entry>)
    requires Base64.Decode(bad.record).None?
    ensures FromEntries(before + [bad] + after) == FromEntries(before + after)
  {
    if after == [] {
      assert (before + [bad] + after)[..|before| + 1 - 1] == before;
      assert before + after == before;
    } else {
      var init, last := after[..|after| - 1], after[|after| - 1];
      FromEntriesSkips(before, bad, init);
      assert (before + [bad] + after)[..|before + [bad] + after| - 1] == before + [bad] + init;
      assert (before + after)[..|before + after| - 1] == before + init;
    }
  }

  /** The records still in the map while `pending` ids are left to migrate: those pending, and those that failed. */
  function Unmigrated(m: map<int32, Record>, pending: set<int32>, parses: Record -> bool): map<int32, Record>
  {
    map id | id in m && (id in pending || !parses(m[id])) :: m[id]
  }

  /** The records already written to the table. */
  function Migrated(m: map<int32, Record>, pending: set<int32>, parses: Record -> bool): map<int32, Record>
  {
    map id | id in m && id !in pending && parses(m[id]) :: m[id]
  }

  /** One pending id done: a record that parses moves from what stays to what is written; one that does not stays. */
  lemma MigrationStep(m: map<int32, Record>, pending: set<int32>, id: int32, parses: Record -> bool)
    requires id in pending && id in m
    ensures parses(m[id]) ==> Unmigrated(m, pending - {id}, parses) == Unmigrated(m, pending, parses) - {id}
    ensures parses(m[id]) ==> Migrated(m, pending - {id}, parses) == Migrated(m, pending, parses)[id := m[id]]
    ensures !parses(m[id]) ==> Unmigrated(m, pending - {id}, parses) == Unmigrated(m, pending, parses)
    ensures !parses(m[id]) ==> Migrated(m, pending - {id}, parses) == Migrated(m, pending, parses)
  {
  }

  /** Migration loses no record and writes none twice: what stays and what moves split the map. */
  lemma MigrationSplits(m: map<int32, Record>, parses: Record -> bool)
    ensures Unmigrated(m, {}, parses).Keys !! Migrated(m, {}, parses).Keys
    ensures Unmigrated(m, {}, parses) + Migrated(m, {}, parses) == m
  {
  }

  /** The database table (`PreKeysTable`) of the account's pre-keys. */
  class PreKeysTable {
    var rows: map<int32, Record>

    constructor(existing: map<int32, Record>)
      ensures rows == existing
    {
      rows := existing;
    }

    method StorePreKey(id: int32, record: Record)
      modifies this
      ensures rows == old(rows)[id := record]
    {
      rows := rows[id := record];
    }
  }

  class PreKeyStore {
    var store: map<int32, Record>

    constructor()
      ensures store == map[]
    {
      store := map[];
    }

    /**
     * `loadPreKey`: the record stored under `id`; no such id is an
     * `InvalidKeyIdException`, stored bytes that do not parse (`parses` is the
     * `PreKeyRecord` constructor) an `AssertionError`.
     */
    method LoadPreKey(id: int32, parses: Record -> bool) returns (r: Result<Record, LoadError>)
      ensures r == Err(InvalidKeyId) <==> id !in store
      ensures r == Err(CorruptRecord) <==> id in store && !parses(store[id])
      ensures r.Ok? <==> id in store && parses(store[id])
      ensures r.Ok? ==> r.value == store[id]
    {
      if id !in store {
        return Err(InvalidKeyId);
      }
      if !parses(store[id]) {
        return Err(CorruptRecord);
      }
      return Ok(store[id]);
    }

    /** `storePreKey`: the record's bytes under `id`, replacing any earlier record; other ids untouched. */
    method StorePreKey(id: int32, record: Record)
      modifies this
      ensures store == old(store)[id := record]
    {
      store := store[id := record];
    }

    method ContainsPreKey(id: int32) returns (b: bool)
      ensures b <==> id in store
    {
      b := id in store;
    }

    /** `removePreKey`: `id` is gone and every other id keeps its record. */
    method RemovePreKey(id: int32)
      modifies this
      ensures store == old(store) - {id}
    {
      store := store - {id};
    }

    /**
     * `migrateToDB`: each record that parses is written to the table and only
     * then removed from the map; a record that fails to parse stays in the map
     * and is not written.
     */
    method MigrateToDB(table: PreKeysTable, parses: Record -> bool)
      modifies this, table
      ensures store == Unmigrated(old(store), {}, parses)
      ensures table.rows == old(table.rows) + Migrated(old(store), {}, parses)
    {
      ghost var before, rowsBefore := store, table.rows;
      var pending := store.Keys;
      while pending != {}
        invariant pending <= before.Keys
        invariant store == Unmigrated(before, pending, parses)
        invariant table.rows == rowsBefore + Migrated(before, pending, parses)
        decreases pending
      {
        var id :| id in pending;
        var record := store[id];
        MigrationStep(before, pending, id, parses);
        if parses(record) {
          table.StorePreKey(id, record);
          store := store - {id};
        }
        pending := pending - {id};
      }
    }

    /** The serializer: one `{id, record}` object per stored id, in the map's (unspecified) order. */
    method Serialize() returns (node: JsonNode)
      ensures node.JArray? && ListsExactly(node.items, store)
    {
      var items: seq<Entry> := [];
      var pending := store.Keys;
      while pending != {}
        invariant pending <= store.Keys
        invariant |items| + |pending| == |store|
        invariant forall i :: 0 <= i < |items| ==> items[i].id in store && items[i].id !in pending
                                                   && items[i].record == Base64.Encode(store[items[i].id])
        invariant forall i, j :: 0 <= i < j < |items| ==> items[i].id != items[j].id
        decreases pending
      {
        var id :| id in pending;
        items := items + [Entry(id, Base64.Encode(store[id]))];
        pending := pending - {id};
      }
      assert |store.Keys| == |store|;
      node := JArray(items);
    }
  }

  /** The loop of the deserializer: the entries of an array node put into a fresh map one by one. */
  method DeserializeEntries(node: JsonNode) returns (preKeyMap: map<int32, Record>)
    ensures preKeyMap == FromJson(node)
  {
    preKeyMap := map[];
    if node.JArray? {
      var items := node.items;
      var i := 0;
      while i < |items|
        invariant 0 <= i <= |items|
        invariant preKeyMap == FromEntries(items[..i])
      {
        assert items[..i + 1][..i] == items[..i];
        match Base64.Decode(items[i].record) {
          case Some(bytes) => preKeyMap := preKeyMap[items[i].id := bytes];
          case None =>
        }
        i := i + 1;
      }
      assert items[..|items|] == items;
    }
  }

  /** The deserializer: a fresh store holding exactly what the node's entries decode to. */
  method Deserialize(node: JsonNode) returns (keyStore: PreKeyStore)
    ensures fresh(keyStore) && keyStore.store == FromJson(node)
  {
    var preKeyMap := DeserializeEntries(node);
    keyStore := new PreKeyStore();
    keyStore.store := keyStore.store + preKeyMap;
  }

  /** A store written out and read back holds the same records under the same ids. */
  method SerializeRoundTrip(keyStore: PreKeyStore) returns (copy: PreKeyStore)
    ensures fresh(copy) && copy.store == keyStore.store
  {
    var node := keyStore.Serialize();
    FromEntriesListed(node.items, keyStore.store);
    copy := Deserialize(node);
  }
}
