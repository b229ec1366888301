/**
 * The account the manager works on (`accountData`): its own address, the
 * legacy group store, the v2 groups, the contact, identity, session and
 * profile-key stores, and the messages that flow in and out of it.
 */
module Account {
  import opened Wrappers
  import opened JavaTypes
  import opened SignalTypes
  import GroupStore
  import Base64
  import EnvelopeCodec

  // ---------------------------------------------------------------------------
  // Identities

  /** An identity key in its serialized form. */
  type IdentityKey = Bytes

  /** `TrustLevel`. */
  datatype TrustLevel = Untrusted | TrustedUnverified | TrustedVerified

  /** The identity table: the trust level of each (address, key) row. */
  type IdentityTable = map<(Address, IdentityKey), TrustLevel>

  /** The state of a verified-sync message, mapped to a trust level by `TrustLevel.fromVerifiedState`. */
  datatype VerifiedState = Default | Verified | Unverified

  // ---------------------------------------------------------------------------
  // Messages

  /** An envelope, as the pipe or the cache hands it over. */
  type Envelope = EnvelopeCodec.Envelope

  /** `SignalServiceGroup.Type`. */
  datatype GroupType = Unknown | Update | Deliver | Quit | RequestInfo

  /** A legacy (v1) group context: id, type, and the optional name and member list of an UPDATE. */
  datatype GroupV1 = GroupV1(groupId: Bytes, kind: GroupType, name: Option<JString>, members: Option<seq<Address>>)

  /** A message's group context: a legacy group, or a v2 group named by its master key. */
  datatype GroupContext = V1(v1: GroupV1) | V2(masterKey: Bytes)

  /**
   * A data message, and equally the builder that makes one: the group
   * context, the disappearing-message timer, the expiration-update and
   * end-session flags, and the sender's profile key.
   */
  datatype DataMessage = DataMessage(
    group: Option<GroupContext>,
    expiresInSeconds: int32,
    isExpirationUpdate: bool,
    isEndSession: bool,
    profileKey: Option<Bytes>)

  /** A sent-transcript sync: the message this account sent from another device, and to whom. */
  datatype SentTranscript = SentTranscript(destination: Address, message: DataMessage)

  /** A sync request for the contact list and/or the group list. */
  datatype SyncRequest = SyncRequest(contacts: bool, groups: bool)

  /** A verified-state sync for one identity. */
  datatype VerifiedMessage = VerifiedMessage(destination: Address, identityKey: IdentityKey, state: VerifiedState)

  /** One entry of a contacts sync attachment (`DeviceContact`): the address, a timer and a profile key when present. */
  datatype DeviceContact = DeviceContact(address: Address, expirationTimer: Option<int32>, profileKey: Option<Bytes>)

  /**
   * A contacts sync attachment: whether it is the complete list, whether its
   * stream could be opened, and the entries read before the stream ended or
   * failed.
   */
  datatype ContactsAttachment = ContactsAttachment(complete: bool, retrieved: bool, entries: seq<DeviceContact>)

  /**
   * A sync message. `groups` holds the groups read from a groups attachment
   * before its stream ended or failed, each already converted to a stored
   * group (`new GroupInfo(g)`).
   */
  datatype SyncMessage = SyncMessage(
    sent: Option<SentTranscript>,
    request: Option<SyncRequest>,
    groups: Option<seq<GroupStore.GroupInfo>>,
    contacts: Option<ContactsAttachment>,
    verified: Option<VerifiedMessage>)

  /** Decrypted content (`SignalServiceContent`). */
  datatype Content = Content(
    sender: Address,
    timestamp: int,
    needsReceipt: bool,
    dataMessage: Option<DataMessage>,
    syncMessage: Option<SyncMessage>)

  /** The follow-up jobs the inbound path schedules. */
  datatype Job =
    | SendDeliveryReceipt(recipient: Address, timestamp: int)
    | SendLegacyGroupUpdate(groupId: Bytes, recipient: Address)
    | RefreshPreKeys
    | SendContactsSync
    | SendGroupSync

  // ---------------------------------------------------------------------------
  // The account state

  /**
   * A v2 group as the sender needs it: the master key that names it, its
   * disappearing-message timer (null when unset) and its members.
   */
  datatype GroupV2 = GroupV2(masterKey: Bytes, timer: Option<int32>, members: seq<Address>)

  /** Everything the manager reads and writes, as one value. */
  datatype AccountState = AccountState(
    groups: GroupStore.GroupMap,
    groupsV2: map<string, GroupV2>,
    contacts: map<Address, int32>,
    identities: IdentityTable,
    sessions: set<Address>,
    profileKeys: map<Address, Bytes>)
  {
    predicate Valid() { GroupStore.KeyedById(groups) }
  }

  /** The expiration timer of a contact; a contact not yet known has none (0). */
  function ExpirationOf(contacts: map<Address, int32>, a: Address): int32
  {
    if a in contacts then contacts[a] else 0
  }

  /** `updateGroup` on the map of the legacy group store. */
  function StoreGroup(groups: GroupStore.GroupMap, g: GroupStore.GroupInfo): GroupStore.GroupMap
  {
    groups[Base64Key(g.groupId) := g]
  }

  function Base64Key(groupId: Bytes): string
  {
    Base64.Encode(groupId)
  }

  /** The account's stores, updated in place. */
  class AccountData {
    const address: Address
    const groupStore: GroupStore.GroupStore
    var groupsV2: map<string, GroupV2>
    var contacts: map<Address, int32>
    var identities: IdentityTable
    var sessions: set<Address>
    var profileKeys: map<Address, Bytes>

    ghost predicate Valid()
      reads this, groupStore
    {
      groupStore.Valid()
    }

    function State(): AccountState
      reads this, groupStore
    {
      AccountState(groupStore.groups, groupsV2, contacts, identities, sessions, profileKeys)
    }

    constructor(self: Address, store: GroupStore.GroupStore)
      ensures address == self && groupStore == store
      ensures groupsV2 == map[] && contacts == map[] && identities == map[]
      ensures sessions == {} && profileKeys == map[]
    {
      address, groupStore := self, store;
      groupsV2, contacts, identities, sessions, profileKeys := map[], map[], map[], {}, map[];
    }

    /** `axolotlStore.saveIdentity`: the row for (address, key) at `level`. */
    method SaveIdentity(a: Address, key: IdentityKey, level: TrustLevel)
      modifies this
      ensures State() == old(State()).(identities := old(identities)[(a, key) := level])
    {
      identities := identities[(a, key) := level];
    }

    /** `axolotlStore.deleteAllSessions`: no session with `a` remains. */
    method DeleteAllSessions(a: Address)
      modifies this
      ensures State() == old(State()).(sessions := old(sessions) - {a})
    {
      sessions := sessions - {a};
    }

    /** `getContact`, a new expiration timer, `updateContact`. */
    method SetContactExpiration(a: Address, seconds: int32)
      modifies this
      ensures State() == old(State()).(contacts := old(contacts)[a := seconds])
    {
      contacts := contacts[a := seconds];
    }

    /** `contactStore.clear()`: no contact remains. */
    method ClearContacts()
      modifies this
      ensures State() == old(State()).(contacts := map[])
    {
      contacts := map[];
    }

    /** `profileCredentialStore.storeProfileKey`. */
    method StoreProfileKey(a: Address, key: Bytes)
      modifies this
      ensures State() == old(State()).(profileKeys := old(profileKeys)[a := key])
    {
      profileKeys := profileKeys[a := key];
    }

    /** `groupStore.updateGroup`. */
    method UpdateGroup(g: GroupStore.GroupInfo)
      requires Valid()
      modifies groupStore
      ensures Valid() && State() == old(State()).(groups := StoreGroup(old(groupStore.groups), g))
    {
      groupStore.UpdateGroup(g);
    }
  }
}
