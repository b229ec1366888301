# signald core, modelled in Dafny

signald is a daemon that runs Signal accounts on behalf of local clients. This project models the logic at the heart of one account's `Manager` and two of its stores:

- the decoder of cached envelope files (`loadEnvelope`): a versioned binary record read with `DataInputStream`;
- the inbound path:
  - `decryptMessage` with its demotion of untrusted identities;
  - `handleMessage` and `handleSignalServiceDataMessage`, which reconcile legacy (v1) groups, contact timers, sessions and profile keys, and collect follow-up jobs;
  - the groups and contacts snapshots a linked device sends in a sync message;
  - `retryFailedReceivedMessages`, which walks the file cache and drains the message queue table;
  - the store-before-handling / delete-after-handling bookkeeping of `receiveMessages`;
- the outbound path: `send`, `sendMessage` with its group, self-only and individual fan-outs, `sendGroupMessage`, `sendGroupV2Message`, `sendGroupInfoRequest`, `getGroupForSending`, `getAccessFor` and `handleEndSession`;
- `trustIdentity`, the pre-key id counters of `generatePreKeys` and `generateSignedPreKey`, and `getQueryMap`;
- `PreKeyStore` (`loadPreKey`, `storePreKey`, `containsPreKey`, `removePreKey`, `migrateToDB`, and its JSON serializer and deserializer);
- `GroupStore` (`updateGroup`, `getGroup`, `getGroups`, and its JSON serializer and deserializer);
- the protocol compatibility checker `checkDiff` of `tools/protocol-validator/diff.go`.

The stores and the account's state are classes whose methods update their fields in place. Each such method is proved against a pure specification function of the old state, and the promised properties are lemmas about that function. The cipher, the message sender, key generation, signing, URL decoding, the record parsers and the field checks of `diff.go` are function-typed parameters.

Modules:

- `Wrappers`, `JavaTypes`, `SignalTypes`: Option/Result, Java `int` arithmetic, addresses and UUID text.
- `Base64`: a strict RFC 4648 codec with its round trip.
- `EnvelopeCodec`: `loadEnvelope`.
- `GroupStore`, `PreKeyStore`, `PreKeyIds`, `QueryMap`.
- `Account`: the account's stores as one class.
- `ManagerSend`, `ManagerReceive`, `ManagerSync`, `ManagerTrust`, `ManagerQueue`: the manager.
- `ProtocolDiff`: `checkDiff`.

## Model

Paths are relative to the repository root. `Manager.java`, `PreKeyStore.java` and `GroupStore.java` sit under `src/main/java/io/finn/signald/` (the stores under its `storage/`).

| member | source | states |
|---|---|---|
| Base64.DecodeEncode | src/main/java/io/finn/signald/storage/PreKeyStore.java:93-112 | decoding the Base64 text the serializer writes gives back exactly the record bytes |
| Base64.EncodeInjective | src/main/java/io/finn/signald/storage/GroupStore.java:45-51 | distinct ids have distinct Base64 keys, so keying the map by Base64 text is keying it by id |
| EnvelopeCodec.LoadUnknownVersion | src/main/java/io/finn/signald/Manager.java:1321-1324 | a file whose version is above 4 yields no envelope, whatever follows the version |
| EnvelopeCodec.ParseEncode | src/main/java/io/finn/signald/Manager.java:1321-1363 | a file written in its version's layout reads back as the envelope it stands for and is consumed entirely: source UUID from version 3, relay only in version 1, server-received timestamp and GUID from version 2, server-delivered timestamp from version 4 |
| EnvelopeCodec.LoadEncode | src/main/java/io/finn/signald/Manager.java:1317-1365 | `loadEnvelope` of such a file is that envelope |
| EnvelopeCodec.LoadTruncated | src/main/java/io/finn/signald/Manager.java:1319-1361 | a file cut short anywhere fails with an end-of-file `IOException` |
| EnvelopeCodec.MakeEnvelope | src/main/java/io/finn/signald/Manager.java:1349-1363 | the sender is absent exactly when there is no parseable UUID and the phone number is empty; an empty server GUID becomes absent |
| EnvelopeCodec.ReadWrittenBlob | src/main/java/io/finn/signald/Manager.java:1337-1348 | a length-prefixed blob reads back as itself, and a length of zero as an absent blob |
| EnvelopeCodec.Utf8RoundTrip | src/main/java/io/finn/signald/Manager.java:1326 | `readUTF`'s modified UTF-8 decodes every encoded Java string back to itself |
| EnvelopeCodec.BigEndianRoundTrip | src/main/java/io/finn/signald/Manager.java:1321 | the big-endian reading of `readInt`/`readLong` inverts the writer's byte order |
| EnvelopeCodec.SignedUnsigned | src/main/java/io/finn/signald/Manager.java:1336 | two's complement reading inverts the writer for every value of the width |
| EnvelopeCodec.DataInput.ReadInt | src/main/java/io/finn/signald/Manager.java:1321 | reads four bytes through the stream exactly as the reader function does, or fails at end of file |
| EnvelopeCodec.DataInput.ReadLong | src/main/java/io/finn/signald/Manager.java:1336 | reads eight bytes through the stream exactly as the reader function does |
| EnvelopeCodec.DataInput.ReadUtf | src/main/java/io/finn/signald/Manager.java:1326 | reads a 16-bit length and that many bytes of modified UTF-8, as the reader function does |
| EnvelopeCodec.DataInput.ReadBlob | src/main/java/io/finn/signald/Manager.java:1338-1342 | reads an `int` length and, when positive, that many bytes, as the reader function does |
| EnvelopeCodec.LoadEnvelope | src/main/java/io/finn/signald/Manager.java:1317-1365 | the field-by-field stream reading gives what `Load` specifies, so the lemmas above hold for it |
| GroupStore.FindById | src/main/java/io/finn/signald/storage/GroupStore.java:49-51 | in a store keyed by id, `getGroup` finds the group with that id, and null exactly when none has it |
| GroupStore.FindAfterUpdate | src/main/java/io/finn/signald/storage/GroupStore.java:45-51 | after `updateGroup(g)`, `getGroup(g.groupId)` is `g` and every other id finds what it found before |
| GroupStore.GroupStore.UpdateGroup | src/main/java/io/finn/signald/storage/GroupStore.java:45-47 | the group is put under the Base64 text of its id, replacing an earlier group with that id |
| GroupStore.GroupStore.GetGroup | src/main/java/io/finn/signald/storage/GroupStore.java:49-51 | the group with that id, or null exactly when no stored group has it |
| GroupStore.GroupStore.GetGroups | src/main/java/io/finn/signald/storage/GroupStore.java:53-55 | a fresh list holding each stored group exactly once, and nothing else |
| GroupStore.GroupStore.Serialize | src/main/java/io/finn/signald/storage/GroupStore.java:57-64 | every stored group is written under `groups`, and reading that back gives the same map |
| GroupStore.FromGroupsFinds | src/main/java/io/finn/signald/storage/GroupStore.java:74-82 | after deserializing, an id finds a group exactly when some listed group has that id |
| GroupStore.FromGroupsFindsLast | src/main/java/io/finn/signald/storage/GroupStore.java:74-82 | when two listed groups share an id, the later one wins |
| GroupStore.FromGroupsListed | src/main/java/io/finn/signald/storage/GroupStore.java:57-85 | deserializing the serializer's list, in any order, restores the same id-to-group map |
| GroupStore.WithLegacyAvatar | src/main/java/io/finn/signald/storage/GroupStore.java:77-80 | the groups appended to the legacy-avatar list are exactly the listed groups with a non-zero avatar id |
| GroupStore.FromJson | src/main/java/io/finn/signald/storage/GroupStore.java:71-73 | a node without `groups` gives an empty store |
| GroupStore.Deserialize | src/main/java/io/finn/signald/storage/GroupStore.java:66-85 | a fresh store holding what the node lists, and the legacy-avatar groups appended to the shared list |
| PreKeyStore.PreKeyStore.LoadPreKey | src/main/java/io/finn/signald/storage/PreKeyStore.java:42-52 | `InvalidKeyIdException` exactly when the id is absent; an `AssertionError` exactly when the stored bytes do not parse; otherwise the stored record |
| PreKeyStore.PreKeyStore.StorePreKey | src/main/java/io/finn/signald/storage/PreKeyStore.java:70-72 | the record's bytes under the id, replacing an earlier record; other ids untouched |
| PreKeyStore.PreKeyStore.ContainsPreKey | src/main/java/io/finn/signald/storage/PreKeyStore.java:75-77 | true exactly when the id is stored |
| PreKeyStore.PreKeyStore.RemovePreKey | src/main/java/io/finn/signald/storage/PreKeyStore.java:80-82 | the id is gone and every other id keeps its record |
| PreKeyStore.PreKeyStore.MigrateToDB | src/main/java/io/finn/signald/storage/PreKeyStore.java:54-67 | the records that parse are written to the table and removed from the map; the ones that fail stay and are not written |
| PreKeyStore.MigrationStep | src/main/java/io/finn/signald/storage/PreKeyStore.java:58-64 | one record migrated: one that parses moves from the map to the table, one that does not stays and is not written |
| PreKeyStore.MigrationSplits | src/main/java/io/finn/signald/storage/PreKeyStore.java:54-67 | migration loses no record and writes none twice: what stays and what moves partition the map |
| PreKeyStore.PreKeyStore.Serialize | src/main/java/io/finn/signald/storage/PreKeyStore.java:105-117 | one `{id, record}` object per stored id, the record in Base64 |
| PreKeyStore.FromJson | src/main/java/io/finn/signald/storage/PreKeyStore.java:89 | a node that is not an array gives an empty store |
| PreKeyStore.FromEntriesListed | src/main/java/io/finn/signald/storage/PreKeyStore.java:84-117 | reading back what the serializer wrote, in any order, gives the same id-to-bytes map |
| PreKeyStore.FromEntriesSkips | src/main/java/io/finn/signald/storage/PreKeyStore.java:92-96 | an entry whose record is not valid Base64 is skipped and every other entry is kept |
| PreKeyStore.Deserialize | src/main/java/io/finn/signald/storage/PreKeyStore.java:84-103 | a fresh store holding exactly what the node's entries decode to |
| PreKeyStore.SerializeRoundTrip | src/main/java/io/finn/signald/storage/PreKeyStore.java:84-117 | a store written out and read back holds the same records under the same ids |
| PreKeyIds.BatchIdsFromOffset | src/main/java/io/finn/signald/Manager.java:351-352 | the keys of a batch are numbered `offset`, `offset + 1`, ... modulo `Medium.MAX_VALUE` |
| PreKeyIds.BatchIdsDistinct | src/main/java/io/finn/signald/Manager.java:351-360 | from an offset in range, a batch's ids are in range and pairwise distinct, and so is the next offset |
| PreKeyIds.ConsecutiveBatchesDisjoint | src/main/java/io/finn/signald/Manager.java:352-360 | two consecutive batches share no id |
| PreKeyIds.SkippedIdUnused | src/main/java/io/finn/signald/Manager.java:352-360 | the id skipped between two consecutive batches, `offset + 100`, is in neither |
| PreKeyIds.NextSignedIdCounts | src/main/java/io/finn/signald/Manager.java:373 | the signed pre-key counter counts up by one and wraps from the maximum minus one to 0 |
| PreKeyIds.StoreAllHolds | src/main/java/io/finn/signald/Manager.java:356 | storing records with distinct ids leaves each id holding its record and every other id as it was |
| PreKeyIds.KeyAccount.GeneratePreKeys | src/main/java/io/finn/signald/Manager.java:348-364 | 100 records numbered from the offset, each stored, and the offset advanced by 101 modulo the maximum |
| PreKeyIds.KeyAccount.GenerateSignedPreKey | src/main/java/io/finn/signald/Manager.java:366-380 | a record under the current counter, signed with the identity key, stored, and the counter advanced |
| PreKeyIds.GeneratedBatchStored | src/main/java/io/finn/signald/Manager.java:348-364 | from an offset in range, every key of a generated batch is stored under its own id |
| QueryMap.JavaSplitJoin | src/main/java/io/finn/signald/Manager.java:310 | `split` undoes joining non-empty pieces free of the separator |
| QueryMap.CollectStopsAtFailure | src/main/java/io/finn/signald/Manager.java:312-320 | a parameter that throws ends the map-building; the later parameters are not looked at |
| QueryMap.CollectParameters | src/main/java/io/finn/signald/Manager.java:312-320 | the loop reads the parameters in turn into the map; the first one that throws ends it with that error |
| QueryMap.GetQueryMap | src/main/java/io/finn/signald/Manager.java:309-322 | the loop builds the map of the decoded parameters, a later name replacing an earlier one |
| QueryMap.QueryMapOfQuery | src/main/java/io/finn/signald/Manager.java:309-322 | a query built from well-formed name and value pairs reads back as the map of the decoded pairs |
| QueryMap.EmptyValueFails | src/main/java/io/finn/signald/Manager.java:315 | a parameter with nothing after its `=` throws `ArrayIndexOutOfBoundsException` instead of giving an empty value |
| ManagerTrust.UntrustedIdentityDemoted | src/main/java/io/finn/signald/Manager.java:869-883 | an identity the cipher refuses is saved as UNTRUSTED and rethrown; no other row changes; every other outcome leaves the state alone |
| ManagerTrust.DecryptMessage | src/main/java/io/finn/signald/Manager.java:869-883 | the content or the failure, and the state, as `DecryptSpec` gives them |
| ManagerTrust.TrustOnlyKnownKeys | src/main/java/io/finn/signald/Manager.java:1489-1508 | true exactly when the fingerprint is a known key of the address; then that row gets the level; no row is added and no other row changes |
| ManagerTrust.TrustIdempotent | src/main/java/io/finn/signald/Manager.java:1489-1508 | granting the same trust twice is granting it once |
| ManagerTrust.TrustIdentity | src/main/java/io/finn/signald/Manager.java:1489-1508 | the loop over the known keys answers and saves as `TrustSpec`, and changes nothing but the identity table |
| ManagerSend.SaveAllMarks | src/main/java/io/finn/signald/Manager.java:843-845 | after the demotions, exactly the saved rows are UNTRUSTED and every other row is as it was |
| ManagerSend.IndividualResults | src/main/java/io/finn/signald/Manager.java:821-849 | one result per recipient, in input order; an identity fault becomes that recipient's `identityFailure` and later recipients are still sent to; only an `IOException` stops the loop |
| ManagerSend.IndividualDemotion | src/main/java/io/finn/signald/Manager.java:842-847 | the rows demoted are exactly those named by an identity fault with a non-null key, among recipients sent to before any `IOException`; every other row is unchanged |
| ManagerSend.PrefixDemotion | src/main/java/io/finn/signald/Manager.java:842-847 | the saves of the first `n` recipients add or demote exactly the rows their identity faults name |
| ManagerSend.GroupDemotion | src/main/java/io/finn/signald/Manager.java:794-801 | the group send's own results are returned, and every identity-failure result with a key demotes that row, and only those |
| ManagerSend.SelfOnlySend | src/main/java/io/finn/signald/Manager.java:806-820 | a message for this account alone is only a sent transcript: an empty list on success, one identity failure on an identity fault, no contact timer applied |
| ManagerSend.EndSessionTearsDown | src/main/java/io/finn/signald/Manager.java:851-857 | when the built message ends the session, no recipient keeps a session, whether the send succeeded or not; otherwise sessions are untouched |
| ManagerSend.SendMessage | src/main/java/io/finn/signald/Manager.java:760-858 | a null recipient list sends nothing; otherwise the results and new state are those of `SendSpec` |
| ManagerSend.SendIndividually | src/main/java/io/finn/signald/Manager.java:821-849 | the per-recipient loop gives the results and demotions `Dispatch` specifies |
| ManagerSend.SendToGroup | src/main/java/io/finn/signald/Manager.java:783-805 | one group send, then the demotions `Dispatch` specifies |
| ManagerSend.SendTranscriptToSelf | src/main/java/io/finn/signald/Manager.java:806-820 | the self-only transcript with the outcome `Dispatch` specifies |
| ManagerSend.HandleEndSession | src/main/java/io/finn/signald/Manager.java:887 | no session with the address remains and nothing else changes |
| ManagerSend.GroupForSending | src/main/java/io/finn/signald/Manager.java:466-477 | `GroupNotFoundException` exactly when no group has the id; `NotAGroupMemberException` exactly when this account is not a member; otherwise the stored group with that id |
| ManagerSend.GetGroupForSending | src/main/java/io/finn/signald/Manager.java:466-477 | as `GroupForSending` |
| ManagerSend.MembersExceptSelf | src/main/java/io/finn/signald/Manager.java:526-533 | every member but this account, each once |
| ManagerSend.SendGroupMessage | src/main/java/io/finn/signald/Manager.java:513-536 | a null id fails; an unknown group or a non-member fails unchanged; otherwise a DELIVER message, with the group's timer when set, goes to every member except this account |
| ManagerSend.WithoutSelf | src/main/java/io/finn/signald/Manager.java:503-507 | the recipients are those of the list other than this account |
| ManagerSend.WithoutSelfOrder | src/main/java/io/finn/signald/Manager.java:503-507 | dropping this account keeps the others in their order |
| ManagerSend.SendGroupV2MessageTo | src/main/java/io/finn/signald/Manager.java:498-511 | the v2 group context and every recipient except this account, through `sendMessage` |
| ManagerSend.SendGroupV2Message | src/main/java/io/finn/signald/Manager.java:489-496 | the group's timer when set and non-zero, then every member except this account |
| ManagerSend.SendGroupInfoRequest | src/main/java/io/finn/signald/Manager.java:631-644 | null for a null id; otherwise a REQUEST_INFO message to the one recipient |
| ManagerSend.RequestInfoEffect | src/main/java/io/finn/signald/Manager.java:631-644 | a REQUEST_INFO goes by the group path only: no session ends and only the identity table can change |
| ManagerSend.Send | src/main/java/io/finn/signald/Manager.java:889-912 | `InvalidRecipientException` exactly when both or neither of address and group id are given; an address goes to `sendMessage`; a 44-character id (after the migration lookup of a 24-character one) to its v2 group, any other to the legacy group it decodes to, with `GroupForSending`'s error or the group message `SendSpec` specifies for some ordering of the members other than this account, and a malformed Base64 id fails |
| ManagerSend.GetAccessFor | src/main/java/io/finn/signald/Manager.java:1556-1567 | one absent unidentified-access entry per recipient, in order |
| ManagerReceive.ExpirationUpdateOfUnknownGroup | src/main/java/io/finn/signald/Manager.java:932-940 | a data message fails exactly when it is an expiration update for an unknown legacy group (the null dereference), and then changes nothing |
| ManagerReceive.UpdateMergesGroup | src/main/java/io/finn/signald/Manager.java:943-970 | UPDATE stores the group under its id, creating it when unknown; a present name replaces the old; the message's members are added and none removed |
| ManagerReceive.UpdateKeepsOtherGroups | src/main/java/io/finn/signald/Manager.java:930-970 | UPDATE keeps the store keyed by group id and leaves every group with another id as it was |
| ManagerReceive.UnknownGroupRequestsInfo | src/main/java/io/finn/signald/Manager.java:971-986 | DELIVER or QUIT for an unknown group creates no group and sends a REQUEST_INFO to the source alone |
| ManagerReceive.QuitRemovesSource | src/main/java/io/finn/signald/Manager.java:987-990 | QUIT for a known group removes exactly the source from its members and keeps the rest of it |
| ManagerReceive.RequestInfoSchedulesUpdate | src/main/java/io/finn/signald/Manager.java:992-996 | REQUEST_INFO schedules one legacy group update for the source when the group is known, and nothing otherwise |
| ManagerReceive.DataMessageJobs | src/main/java/io/finn/signald/Manager.java:916-1031 | the only job a data message schedules is a legacy group update for a known group and the source |
| ManagerReceive.NonGroupSetsContactTimer | src/main/java/io/finn/signald/Manager.java:999-1003 | without a group context the peer's contact timer becomes the message's: the destination's for a sync, the source's otherwise |
| ManagerReceive.ProfileKeyAndEndSession | src/main/java/io/finn/signald/Manager.java:1005-1029 | the source's profile key is stored exactly when the message carries one of 32 bytes; the sessions afterwards are those before less the peer's when the message ends the session, and exactly those before otherwise |
| ManagerReceive.GroupPartKeepsProfileKeys | src/main/java/io/finn/signald/Manager.java:920-1003 | the group or contact part leaves profile keys alone |
| ManagerReceive.GroupPartKeepsSessions | src/main/java/io/finn/signald/Manager.java:920-1003 | the group or contact part leaves sessions alone, since a group info request does not end a session |
| ManagerReceive.HandleLegacyGroup | src/main/java/io/finn/signald/Manager.java:942-997 | the switch on the group type gives the jobs and state `LegacyGroupStep` specifies |
| ManagerReceive.HandleGroupPart | src/main/java/io/finn/signald/Manager.java:920-1003 | the group or contact part as `GroupPart` specifies |
| ManagerReceive.HandleDataMessage | src/main/java/io/finn/signald/Manager.java:916-1031 | the jobs and state `HandleDataSpec` specifies |
| ManagerReceive.NullContentIgnored | src/main/java/io/finn/signald/Manager.java:1198-1200 | null content changes nothing and schedules nothing |
| ManagerReceive.ReceiptComesFirst | src/main/java/io/finn/signald/Manager.java:1204-1208 | a data message that asks for a receipt schedules the delivery receipt first, to the envelope's source for a sealed sender that names one, else to the content's sender |
| ManagerReceive.DataPartJobs | src/main/java/io/finn/signald/Manager.java:1204-1211 | the data part schedules no prekey refresh and no sync |
| ManagerReceive.SyncPartJobs | src/main/java/io/finn/signald/Manager.java:1217-1231 | the sync part schedules no prekey refresh |
| ManagerReceive.PreKeyMessageRefreshes | src/main/java/io/finn/signald/Manager.java:1213-1215 | a handled envelope schedules a prekey refresh exactly when it is a prekey message |
| ManagerReceive.SyncRequestJobs | src/main/java/io/finn/signald/Manager.java:1223-1231 | the contact and group syncs are scheduled exactly when the sync request asks for them |
| ManagerReceive.VerifiedSyncSavesIdentity | src/main/java/io/finn/signald/Manager.java:1299-1304 | a verified-state sync leaves the identity saved at the trust level of its state |
| ManagerReceive.HandleErrorIsNullGroup | src/main/java/io/finn/signald/Manager.java:1195-1305 | the only error of `handleMessage` is an expiration update for an unknown legacy group, in the data message or in a sent transcript |
| ManagerReceive.ExpirationErrorOnly | src/main/java/io/finn/signald/Manager.java:932-940 | a data message that is not an expiration update in a legacy group's context never fails |
| ManagerReceive.HandleSyncPart | src/main/java/io/finn/signald/Manager.java:1217-1305 | the sync part as `SyncPart` specifies |
| ManagerReceive.ApplySnapshotsAndVerified | src/main/java/io/finn/signald/Manager.java:1232-1304 | the groups snapshot, then the contacts snapshot, then the verified state, as `SnapshotsAndVerified` specifies, keeping the group store keyed by id |
| ManagerSync.IngestGroupsSync | src/main/java/io/finn/signald/Manager.java:1232-1249 | each group read is stored with `updateGroup`, in order, and the store stays keyed by id |
| ManagerSync.IngestGroupsKeyed | src/main/java/io/finn/signald/Manager.java:1241-1242 | storing the snapshot's groups keeps the store keyed by id |
| ManagerSync.IngestGroupsUntouched | src/main/java/io/finn/signald/Manager.java:1241-1242 | an id that no group of the snapshot has finds what it found before |
| ManagerSync.IngestGroupsLast | src/main/java/io/finn/signald/Manager.java:1241-1242 | an id of the snapshot finds the last group read with that id |
| ManagerSync.IngestContactsSync | src/main/java/io/finn/signald/Manager.java:1264-1287 | a stream that cannot be opened changes nothing; a complete list first clears the contacts; then each entry updates its contact and stores its profile key |
| ManagerSync.IngestContactsFrame | src/main/java/io/finn/signald/Manager.java:1275-1285 | the contact entries change contacts and profile keys only |
| ManagerSync.IngestContactsNamed | src/main/java/io/finn/signald/Manager.java:1275-1278 | after the entries an address is a contact exactly when it was one or some entry names it |
| ManagerSync.IngestContactsUntimed | src/main/java/io/finn/signald/Manager.java:1276-1278 | an address none of whose entries carries a timer keeps its timer |
| ManagerSync.IngestContactsLastTimer | src/main/java/io/finn/signald/Manager.java:1276-1278 | an address's timer is that of its last entry carrying one |
| ManagerSync.IngestContactsUnkeyed | src/main/java/io/finn/signald/Manager.java:1282-1284 | an address none of whose entries carries a profile key keeps its stored key, or still has none |
| ManagerSync.IngestContactsLastKey | src/main/java/io/finn/signald/Manager.java:1282-1284 | an address's profile key is that of its last entry carrying one |
| ManagerSync.ContactsSyncEffect | src/main/java/io/finn/signald/Manager.java:1264-1287 | an attachment that cannot be opened changes nothing; a complete list leaves exactly the contacts its entries name, a timer of 0 for those without one; an incomplete list adds to the contacts and others keep their timers; timers and profile keys come from the last entry carrying one |
| Account.AccountData.ClearContacts | src/main/java/io/finn/signald/Manager.java:1271-1273 | no contact remains and nothing else changes |
| ManagerReceive.HandleMessage | src/main/java/io/finn/signald/Manager.java:1195-1315 | the jobs and state `HandleMessageSpec` specifies |
| ManagerQueue.ProcessOutcomes | src/main/java/io/finn/signald/Manager.java:1096-1111 | a receipt is never decrypted and changes nothing; the handler gets the content only when decrypted and an exception exactly when decryption failed; only decrypted content can make handling fail |
| ManagerQueue.Process | src/main/java/io/finn/signald/Manager.java:1096-1111 | one envelope decrypted, handled and turned into the handler's arguments as `ProcessSpec` specifies |
| ManagerQueue.CacheWalkKeepsLaterVersions | src/main/java/io/finn/signald/Manager.java:1043-1081 | a completed walk over the cache leaves exactly the files of an unknown version: unreadable files and handled files are deleted |
| ManagerQueue.CacheWalkErrorKeepsRest | src/main/java/io/finn/signald/Manager.java:1043-1081 | a walk that fails keeps the file whose handling failed and every file after it |
| ManagerQueue.WalkCache | src/main/java/io/finn/signald/Manager.java:1038-1084 | the loop over the files gives the deliveries, state and kept files `CacheWalk` specifies |
| ManagerQueue.WithoutOldest | src/main/java/io/finn/signald/Manager.java:1086-1114 | deleting the oldest row of a valid queue leaves the rest in order |
| ManagerQueue.WithoutNewest | src/main/java/io/finn/signald/Manager.java:1147-1180 | deleting the row just stored leaves the queue as it was |
| ManagerQueue.DrainOutcome | src/main/java/io/finn/signald/Manager.java:1086-1115 | a completed drain empties the queue and hands over one delivery per row, oldest first; a failed drain has deleted every row up to and including the failing one and no later one |
| ManagerQueue.DrainQueue | src/main/java/io/finn/signald/Manager.java:1086-1115 | the `while (true)` loop with its delete in `finally` does what `Drain` specifies |
| ManagerQueue.RetryFailedReceivedMessages | src/main/java/io/finn/signald/Manager.java:1033-1116 | nothing when the cache directory is missing; otherwise the cache walk, then the drain |
| ManagerQueue.StoredUntilHandled | src/main/java/io/finn/signald/Manager.java:1144-1181 | an envelope is stored before it is handled and deleted after; if its handling fails the stored row stays |
| ManagerQueue.PipeLoopQueue | src/main/java/io/finn/signald/Manager.java:1136-1184 | a read loop that completes leaves the queue's rows as they were; one that fails leaves them plus at most one new row, newer than every old one, holding an envelope that arrived, was stored, and whose handling fails |
| ManagerQueue.ReadPipe | src/main/java/io/finn/signald/Manager.java:1136-1184 | the read loop gives what `PipeLoop` specifies |
| ManagerQueue.ReceiveLeavesQueueEmpty | src/main/java/io/finn/signald/Manager.java:1124-1184 | after a normal return the queue table is empty when the cache directory exists, and keeps its rows when it does not |
| ManagerQueue.ReceiveMessages | src/main/java/io/finn/signald/Manager.java:1124-1184 | the retry, then the read loop, as `ReceiveSpec` specifies |
| ProtocolDiff.CheckFailureReported | tools/protocol-validator/diff.go:59-67 | a field check's failure is reported exactly when some field new to the local protocol drew it |
| ProtocolDiff.ChangedTypeReported | tools/protocol-validator/diff.go:69-72 | "changed types" for a field is among the failures exactly when the field is in both protocols with different type names (presence, not the number of times) |
| ProtocolDiff.ChangedListStateReported | tools/protocol-validator/diff.go:73-76 | "changed list state" is reported exactly when a field is in both protocols with different list flags |
| ProtocolDiff.AdditionMember | tools/protocol-validator/diff.go:38-88 | a failure of the additions pass is exactly a failure of one local field; doc, example and deprecation changes add none |
| ProtocolDiff.FieldFailureKinds | tools/protocol-validator/diff.go:59-84 | a field's failures are the changed-type and changed-list-state reports of a kept field, or the check reports of a new one |
| ProtocolDiff.RemovedVersionReported | tools/protocol-validator/diff.go:104-108 | a version is reported removed exactly when it is published and missing locally |
| ProtocolDiff.RemovedTypeReported | tools/protocol-validator/diff.go:109-113 | a type is reported removed exactly when it is published and missing locally |
| ProtocolDiff.RemovedFieldReported | tools/protocol-validator/diff.go:114-119 | a field is reported removed exactly when it is in a published type whose local counterpart lacks it, a missing local type counting as empty |
| ProtocolDiff.UnchangedProtocolPasses | tools/protocol-validator/diff.go:12-123 | compared with itself, a protocol gives no failure, no warning and no panic |
| ProtocolDiff.CheckAdditions | tools/protocol-validator/diff.go:38-88 | the nested loops collect exactly the additions' failures and warnings |
| ProtocolDiff.CheckRemovals | tools/protocol-validator/diff.go:104-121 | the nested loops collect exactly the removal failures, or panic where line 115 dereferences nil |
| ProtocolDiff.CheckDiff | tools/protocol-validator/diff.go:12-123 | panics exactly when a published type with fields is missing locally; otherwise the failures are the additions' and the removals', and the warnings the field checks' |
| ProtocolDiff.RemovedTypeWithFieldsPanics | tools/protocol-validator/diff.go:115 | an empty local protocol against one published type with one field panics |
| ProtocolDiff.CheckDiffFixed | tools/protocol-validator/diff.go:12-123 | with a missing local type read as empty, the check never panics and reports the same failures |

## Left out

- Cryptography, the network and key generation are function-typed parameters: the cipher (`decrypt`), the message sender (`Transport`), `Curve.generateKeyPair`, `Curve.calculateSignature`, `URLDecoder.decode`, and the `PreKeyRecord` parser.
- `ManagerSend.Dispatch`: on the group and self-only paths, an identity failure without a key saves nothing. The source calls `saveIdentity` there with whatever key it has; what the identity store does with a null key is not part of this model.
- `System.currentTimeMillis` is a parameter (`now`). `accountData.save` and `saveIfNeeded` are not modelled because they only persist state.
- Jobs (`SendDeliveryReceiptJob`, `RefreshPreKeysJob`, sync jobs, `SendLegacyGroupUpdateJob`) are returned in order rather than run. Their own effects, and the catch-all around each `job.run()`, are not modelled.
- Attachments and group and contact avatars are file and network I/O, so they are not modelled.
- The groups and contacts sync attachments (`Manager.java:1232-1298`) are modelled by their effect on the stores. The download, the temporary file and the stream decoding are a parameter: the entries read before the stream ended or failed, and whether the contacts stream could be opened at all. `new GroupInfo(g)` is taken as done on the groups read, because `GroupInfo.java` is not part of this model.
- `ManagerSync.IngestContact`: `ContactInfo.update` is taken to replace the timer with the entry's timer when the entry carries one and to keep it otherwise. An avatar download that fails after a contact's update ends the loop before that contact's profile key is stored. The model stores the profile key of every entry it is given. Such a run is therefore given only the entries before the failing one, and the model loses the failing contact's timer update.
- The blocked-list sync attachment is a TODO in the source and changes nothing.
- `GroupsV2Manager.handleIncomingDataMessage` changes nothing modelled here, so a v2 group context only affects the jobs and the state through the rest of the handler.
- `ContactStore`, the axolotl identity and session store, the profile credential store, `GroupInfo.java`, `TrustLevel` and `MessageQueueTable` are not part of this model. They appear as maps and sets in `Account.AccountState`:
  - a contact not yet known has timer 0;
  - `nextEnvelope` gives the oldest row and row ids increase;
  - `TrustLevel.fromVerifiedState` is the parameter `trustOf`.
- `SignalTypes.ParseUuidOrNull` stands for `UuidUtil.parseOrNull`, which is not part of this model. It is taken to give a UUID exactly for the canonical 8-4-4-4-12 hexadecimal form, in either case, and null otherwise. `EnvelopeCodec.MakeEnvelope`'s "parseable UUID" means that form.
- The address resolver is the identity, and `SignalServiceAddress.matches` is equality of addresses.
- `ManagerReceive.SyncPart`: a sent transcript without a destination is not modelled; the destination is always present.
- `VerificationFailedException` is never produced by the modelled handler, so its catch blocks do nothing here.
- `ManagerTrust.TrustIdentity`: the verified-state sync message sent afterwards, and its caught errors, are network I/O. A null identity list is treated like an empty one.
- The message pipe is a script of events: an envelope that the store callback did or did not store, a timeout, or an unsupported version. The blocking read, its timeout and the pipe's shutdown are not modelled, and the end of the script ends the loop.
- The message cache directory is a flat list of files, with a flag for whether the directory exists. Sub-directories, non-file entries and the deletion of emptied directories are not modelled.
- `Base64` is strict RFC 4648 with padding; the library decoder's tolerance of whitespace and other variants is not modelled.
- `ManagerSend.Send`: the 24- and 44-character tests count the elements of the id text. Java counts UTF-16 code units, and the two agree for the Base64 text these ids are.
- The HTTP fetch, JSON decoding and coloured printing of `diff.go` are not modelled, nor are the bodies of `fieldChecks`, which are parameters. Failures and warnings are multisets because Go map iteration order is random.

## Findings

| source | as written | input that shows it | evidently intended | confidence | as-written member | corrected member |
|---|---|---|---|---|---|---|
| tools/protocol-validator/diff.go:115 | the removals pass reads `protocol.Types[version][typeName].Fields` even when the local type is missing, which dereferences a nil pointer | a local protocol without version `v1` against a published `v1.T` that has a field `f` | report "removed type" and every field of the missing type as removed, as for a type that is present but lacks the field | not executed | ProtocolDiff.RemovedTypeWithFieldsPanics | ProtocolDiff.RemovedFieldReported |
