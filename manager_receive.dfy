/**
 * Inbound dispatch (`Manager.handleSignalServiceDataMessage` and
 * `handleMessage`): legacy group reconciliation driven by the UPDATE,
 * DELIVER, QUIT and REQUEST_INFO types, contact timers, session ends,
 * profile keys, verified-state syncs, and the list of follow-up jobs.
 */
module ManagerReceive {
  import opened Wrappers
  import opened JavaTypes
  import opened SignalTypes
  import opened Account
  import opened ManagerSend
  import ManagerSync
  import GroupStore
  import EnvelopeCodec

  /** The `NullPointerException` of an expiration update for a legacy group this account does not know. */
  datatype HandleError = NullGroup

  /** The only profile-key length that is stored. */
  const PROFILE_KEY_LENGTH: int := 32

  /** `new GroupInfo(groupId)`: no name, no members, no avatar, no timer. */
  function NewGroup(groupId: Bytes): GroupStore.GroupInfo
  {
    GroupStore.GroupInfo(groupId, None, {}, 0, 0)
  }

  /** An UPDATE applied to the known group, or to a new one: a present name replaces the old, present members are added. */
  function Updated(found: Option<GroupStore.GroupInfo>, v1: GroupV1): GroupStore.GroupInfo
  {
    var base := if found.Some? then found.value else NewGroup(v1.groupId);
    var named := if v1.name.Some? then base.(name := v1.name) else base;
    if v1.members.Some? then named.(members := named.members + Elems(v1.members.value)) else named
  }

  /** The collaborators of the inbound path: own address, own profile key, the transport for replies. */
  datatype Inbound = Inbound(self: Address, ownProfileKey: Option<Bytes>, transport: Transport)

  /** The state after `sendGroupInfoRequest(groupId, source)`, whose `IOException` is caught. */
  function AfterInfoRequest(ctx: Inbound, st: AccountState, groupId: Bytes, source: Address): AccountState
  {
    SendSpec(ctx.self, st, RequestInfoMessage(groupId), Some([source]), ctx.ownProfileKey, ctx.transport).1
  }

  /** The switch on the legacy group type, given the group as it stands after any expiration update. */
  function LegacyGroupStep(ctx: Inbound, st: AccountState, found: Option<GroupStore.GroupInfo>, v1: GroupV1, source: Address)
    : (seq<Job>, AccountState)
  {
    match v1.kind
    case Update => ([], st.(groups := StoreGroup(st.groups, Updated(found, v1))))
    case Deliver => if found.None? then ([], AfterInfoRequest(ctx, st, v1.groupId, source)) else ([], st)
    case Quit =>
      if found.None? then ([], AfterInfoRequest(ctx, st, v1.groupId, source))
      else ([], st.(groups := StoreGroup(st.groups, found.value.(members := found.value.members - {source}))))
    case RequestInfo => if found.Some? then ([SendLegacyGroupUpdate(v1.groupId, source)], st) else ([], st)
    case Unknown => ([], st)
  }

  /** The peer a data message is about: the destination of a sync, the source otherwise. */
  function Peer(isSync: bool, source: Address, destination: Address): Address
  {
    if isSync then destination else source
  }

  /** The end of the handler: the session ended when asked, the profile key stored when it has 32 bytes. */
  function Finish(st: AccountState, message: DataMessage, isSync: bool, source: Address, destination: Address): AccountState
  {
    var ended := if message.isEndSession then st.(sessions := st.sessions - {Peer(isSync, source, destination)}) else st;
    if message.profileKey.Some? && |message.profileKey.value| == PROFILE_KEY_LENGTH
    then ended.(profileKeys := ended.profileKeys[source := message.profileKey.value])
    else ended
  }

  /** The group or contact part of a data message: the jobs, and the state before the session and profile-key steps. */
  function GroupPart(ctx: Inbound, st: AccountState, message: DataMessage, isSync: bool, source: Address, destination: Address)
    : (Result<seq<Job>, HandleError>, AccountState)
  {
    match message.group
    case None => (Ok([]), st.(contacts := st.contacts[Peer(isSync, source, destination) := message.expiresInSeconds]))
    case Some(V2(_)) => (Ok([]), st)
    case Some(V1(v1)) =>
      var found := GroupStore.Find(st.groups, v1.groupId);
      if message.isExpirationUpdate && found.None? then (Err(NullGroup), st)
      else
        var g := if message.isExpirationUpdate then Some(found.value.(messageExpirationTime := message.expiresInSeconds)) else found;
        var timed := if message.isExpirationUpdate then st.(groups := StoreGroup(st.groups, g.value)) else st;
        var step := LegacyGroupStep(ctx, timed, g, v1, source);
        (Ok(step.0), step.1)
  }

  /** `handleSignalServiceDataMessage`: the jobs, and the account state after one data message. */
  function HandleDataSpec(ctx: Inbound, st: AccountState, message: DataMessage, isSync: bool, source: Address, destination: Address)
    : (Result<seq<Job>, HandleError>, AccountState)
  {
    var part := GroupPart(ctx, st, message, isSync, source, destination);
    if part.0.Err? then part else (part.0, Finish(part.1, message, isSync, source, destination))
  }

  /** The group part leaves profile keys alone. */
  lemma GroupPartKeepsProfileKeys(ctx: Inbound, st: AccountState, message: DataMessage, isSync: bool,
                                  source: Address, destination: Address)
    ensures GroupPart(ctx, st, message, isSync, source, destination).1.profileKeys == st.profileKeys
  {
  }

  /** The group part leaves sessions alone: a group info request does not end a session. */
  lemma GroupPartKeepsSessions(ctx: Inbound, st: AccountState, message: DataMessage, isSync: bool,
                               source: Address, destination: Address)
    ensures GroupPart(ctx, st, message, isSync, source, destination).1.sessions == st.sessions
  {
    if message.group.Some? && message.group.value.V1? {
      var v1 := message.group.value.v1;
      var found := GroupStore.Find(st.groups, v1.groupId);
      if !(message.isExpirationUpdate && found.None?) {
        var g := if message.isExpirationUpdate then Some(found.value.(messageExpirationTime := message.expiresInSeconds)) else found;
        var timed := if message.isExpirationUpdate then st.(groups := StoreGroup(st.groups, g.value)) else st;
        EndSessionTearsDown(ctx.self, timed, RequestInfoMessage(v1.groupId), [source], ctx.ownProfileKey, ctx.transport);
      }
    }
  }

  // ---------------------------------------------------------------------------
  // Properties of one data message

  /** The only error is an expiration update for an unknown legacy group, and it changes nothing. */
  lemma ExpirationUpdateOfUnknownGroup(ctx: Inbound, st: AccountState, message: DataMessage, isSync: bool,
                                      source: Address, destination: Address)
    ensures var (r, after) := HandleDataSpec(ctx, st, message, isSync, source, destination);
      && (r.Err? <==> message.group.Some? && message.group.value.V1? && message.isExpirationUpdate
                      && GroupStore.Find(st.groups, message.group.value.v1.groupId).None?)
      && (r.Err? ==> after == st)
  {
  }

  /**
   * An UPDATE stores the group under its id, creating it when unknown: a
   * present name replaces the old one, the message's members are added and
   * none is removed.
   */
  lemma UpdateMergesGroup(ctx: Inbound, st: AccountState, message: DataMessage, v1: GroupV1, isSync: bool,
                          source: Address, destination: Address)
    requires st.Valid() && message.group == Some(V1(v1)) && v1.kind == Update
    requires !(message.isExpirationUpdate && GroupStore.Find(st.groups, v1.groupId).None?)
    ensures var (r, after) := HandleDataSpec(ctx, st, message, isSync, source, destination);
      var prior := GroupStore.Find(st.groups, v1.groupId);
      var g := GroupStore.Find(after.groups, v1.groupId);
      && r == Ok([])
      && g.Some? && g.value.groupId == v1.groupId
      && g.value.name == (if v1.name.Some? then v1.name else if prior.Some? then prior.value.name else None)
      && (prior.Some? ==> prior.value.members <= g.value.members)
      && g.value.members == (if prior.Some? then prior.value.members else {})
                             + (if v1.members.Some? then Elems(v1.members.value) else {})
  {
    var prior := GroupStore.Find(st.groups, v1.groupId);
    GroupStore.FindById(st.groups, v1.groupId);
    var g := if message.isExpirationUpdate then Some(prior.value.(messageExpirationTime := message.expiresInSeconds)) else prior;
    var timed := if message.isExpirationUpdate then StoreGroup(st.groups, g.value) else st.groups;
    UpdateStores(ctx, st, message, v1, isSync, source, destination);
    assert Updated(g, v1).groupId == v1.groupId;
    GroupStore.FindAfterUpdate(timed, Updated(g, v1), v1.groupId);
  }

  /** An UPDATE keeps the store keyed by group id and leaves groups with other ids untouched. */
  lemma UpdateKeepsOtherGroups(ctx: Inbound, st: AccountState, message: DataMessage, v1: GroupV1, isSync: bool,
                               source: Address, destination: Address, other: Bytes)
    requires st.Valid() && message.group == Some(V1(v1)) && v1.kind == Update
    requires !(message.isExpirationUpdate && GroupStore.Find(st.groups, v1.groupId).None?)
    ensures var after := HandleDataSpec(ctx, st, message, isSync, source, destination).1;
      && after.Valid()
      && (other != v1.groupId ==> GroupStore.Find(after.groups, other) == GroupStore.Find(st.groups, other))
  {
    var prior := GroupStore.Find(st.groups, v1.groupId);
    GroupStore.FindById(st.groups, v1.groupId);
    var g := if message.isExpirationUpdate then Some(prior.value.(messageExpirationTime := message.expiresInSeconds)) else prior;
    var timed := if message.isExpirationUpdate then StoreGroup(st.groups, g.value) else st.groups;
    UpdateStores(ctx, st, message, v1, isSync, source, destination);
    assert Updated(g, v1).groupId == v1.groupId;
    if message.isExpirationUpdate {
      GroupStore.FindAfterUpdate(st.groups, g.value, other);
    }
    GroupStore.FindAfterUpdate(timed, Updated(g, v1), other);
  }

  /** The groups after an UPDATE: the expiration timer stored first when asked, then the updated group. */
  lemma UpdateStores(ctx: Inbound, st: AccountState, message: DataMessage, v1: GroupV1, isSync: bool,
                     source: Address, destination: Address)
    requires message.group == Some(V1(v1)) && v1.kind == Update
    requires !(message.isExpirationUpdate && GroupStore.Find(st.groups, v1.groupId).None?)
    ensures var prior := GroupStore.Find(st.groups, v1.groupId);
      var g := if message.isExpirationUpdate then Some(prior.value.(messageExpirationTime := message.expiresInSeconds)) else prior;
      var timed := if message.isExpirationUpdate then StoreGroup(st.groups, g.value) else st.groups;
      var res := HandleDataSpec(ctx, st, message, isSync, source, destination);
      res.0 == Ok([]) && res.1.groups == StoreGroup(timed, Updated(g, v1))
  {
  }

  /**
   * DELIVER or QUIT for an unknown legacy group creates no group and sends
   * a REQUEST_INFO for it to the source alone.
   */
  lemma UnknownGroupRequestsInfo(ctx: Inbound, st: AccountState, message: DataMessage, v1: GroupV1, isSync: bool,
                                 source: Address, destination: Address)
    requires message.group == Some(V1(v1)) && (v1.kind == Deliver || v1.kind == Quit)
    requires !message.isExpirationUpdate && GroupStore.Find(st.groups, v1.groupId).None?
    ensures var (r, after) := HandleDataSpec(ctx, st, message, isSync, source, destination);
      && r == Ok([])
      && after.groups == st.groups
      && after == Finish(AfterInfoRequest(ctx, st, v1.groupId, source), message, isSync, source, destination)
  {
  }

  /** QUIT for a known legacy group removes exactly the source from its members and keeps the rest of it. */
  lemma QuitRemovesSource(ctx: Inbound, st: AccountState, message: DataMessage, v1: GroupV1, isSync: bool,
                          source: Address, destination: Address)
    requires st.Valid() && message.group == Some(V1(v1)) && v1.kind == Quit
    requires GroupStore.Find(st.groups, v1.groupId).Some?
    ensures var (r, after) := HandleDataSpec(ctx, st, message, isSync, source, destination);
      var prior := GroupStore.Find(st.groups, v1.groupId).value;
      var g := GroupStore.Find(after.groups, v1.groupId);
      && r == Ok([])
      && g.Some?
      && g.value.members == prior.members - {source}
      && g.value.name == prior.name && g.value.avatarId == prior.avatarId
      && g.value.messageExpirationTime == (if message.isExpirationUpdate then message.expiresInSeconds else prior.messageExpirationTime)
  {
    var prior := GroupStore.Find(st.groups, v1.groupId);
    GroupStore.FindById(st.groups, v1.groupId);
    var g := if message.isExpirationUpdate then prior.value.(messageExpirationTime := message.expiresInSeconds) else prior.value;
    var timed := if message.isExpirationUpdate then StoreGroup(st.groups, g) else st.groups;
    var res := HandleDataSpec(ctx, st, message, isSync, source, destination);
    assert res.0 == Ok([]) && res.1.groups == StoreGroup(timed, g.(members := g.members - {source}));
    GroupStore.FindAfterUpdate(timed, g.(members := g.members - {source}), v1.groupId);
  }

  /** REQUEST_INFO schedules one legacy group update for the source when the group is known, and nothing otherwise. */
  lemma RequestInfoSchedulesUpdate(ctx: Inbound, st: AccountState, message: DataMessage, v1: GroupV1, isSync: bool,
                                   source: Address, destination: Address)
    requires message.group == Some(V1(v1)) && v1.kind == RequestInfo
    requires !(message.isExpirationUpdate && GroupStore.Find(st.groups, v1.groupId).None?)
    ensures var r := HandleDataSpec(ctx, st, message, isSync, source, destination).0;
      && (GroupStore.Find(st.groups, v1.groupId).Some? ==> r == Ok([SendLegacyGroupUpdate(v1.groupId, source)]))
      && (GroupStore.Find(st.groups, v1.groupId).None? ==> r == Ok([]))
  {
  }

  /** The only job a data message schedules is a legacy group update, for a known group and the source. */
  lemma DataMessageJobs(ctx: Inbound, st: AccountState, message: DataMessage, isSync: bool,
                        source: Address, destination: Address)
    ensures var r := HandleDataSpec(ctx, st, message, isSync, source, destination).0;
      r.Ok? ==> forall j :: j in r.value ==>
        && message.group.Some? && message.group.value.V1? && message.group.value.v1.kind == RequestInfo
        && j == SendLegacyGroupUpdate(message.group.value.v1.groupId, source)
        && GroupStore.Find(st.groups, message.group.value.v1.groupId).Some?
  {
  }

  /**
   * A data message without a group context sets the peer's contact timer
   * to the message's: the destination's for a sync, the source's otherwise.
   */
  lemma NonGroupSetsContactTimer(ctx: Inbound, st: AccountState, message: DataMessage, isSync: bool,
                                 source: Address, destination: Address)
    requires message.group.None?
    ensures var (r, after) := HandleDataSpec(ctx, st, message, isSync, source, destination);
      && r == Ok([])
      && after.contacts == st.contacts[(if isSync then destination else source) := message.expiresInSeconds]
      && after.groups == st.groups && after.identities == st.identities
  {
  }

  /**
   * A handled message stores the source's profile key exactly when it
   * carries one of 32 bytes, and ends the peer's sessions exactly when it
   * ends the session.
   */
  lemma ProfileKeyAndEndSession(ctx: Inbound, st: AccountState, message: DataMessage, isSync: bool,
                                source: Address, destination: Address)
    ensures var (r, after) := HandleDataSpec(ctx, st, message, isSync, source, destination);
      var stored := message.profileKey.Some? && |message.profileKey.value| == PROFILE_KEY_LENGTH;
      r.Ok? ==>
        && (stored ==> after.profileKeys == st.profileKeys[source := message.profileKey.value])
        && (!stored ==> after.profileKeys == st.profileKeys)
        && after.sessions == (if message.isEndSession then st.sessions - {Peer(isSync, source, destination)} else st.sessions)
  {
    GroupPartKeepsProfileKeys(ctx, st, message, isSync, source, destination);
    GroupPartKeepsSessions(ctx, st, message, isSync, source, destination);
  }

  // ---------------------------------------------------------------------------
  // `handleSignalServiceDataMessage` itself

  /** The switch on the legacy group type. */
  method HandleLegacyGroup(account: AccountData, v1: GroupV1, group: Option<GroupStore.GroupInfo>, source: Address,
                           ownProfileKey: Option<Bytes>, transport: Transport)
    returns (jobs: seq<Job>)
    requires account.Valid()
    modifies account, account.groupStore
    ensures account.Valid()
    ensures (jobs, account.State()) == LegacyGroupStep(Inbound(account.address, ownProfileKey, transport), old(account.State()), group, v1, source)
  {
    jobs := [];
    match v1.kind {
      case Update =>
        var g := if group.None? then NewGroup(v1.groupId) else group.value;
        if v1.name.Some? {
          g := g.(name := v1.name);
        }
        if v1.members.Some? {
          g := g.(members := g.members + Elems(v1.members.value));
        }
        account.UpdateGroup(g);
      case Deliver =>
        if group.None? {
          var _ := SendGroupInfoRequest(account, Some(v1.groupId), source, ownProfileKey, transport);
        }
      case Quit =>
        if group.None? {
          var _ := SendGroupInfoRequest(account, Some(v1.groupId), source, ownProfileKey, transport);
        } else {
          var g := group.value.(members := group.value.members - {source});
          account.UpdateGroup(g);
        }
      case RequestInfo =>
        if group.Some? {
          jobs := [SendLegacyGroupUpdate(v1.groupId, source)];
        }
      case Unknown =>
    }
  }

  /** The group context or, without one, the peer's contact timer. */
  method HandleGroupPart(account: AccountData, message: DataMessage, isSync: bool, source: Address, destination: Address,
                         ownProfileKey: Option<Bytes>, transport: Transport)
    returns (r: Result<seq<Job>, HandleError>)
    requires account.Valid()
    modifies account, account.groupStore
    ensures account.Valid()
    ensures (r, account.State()) == GroupPart(Inbound(account.address, ownProfileKey, transport), old(account.State()), message, isSync, source, destination)
  {
    match message.group {
      case None =>
        account.SetContactExpiration(if isSync then destination else source, message.expiresInSeconds);
        r := Ok([]);
      case Some(V2(_)) =>
        // groupsV2Manager.handleIncomingDataMessage: outside this model
        r := Ok([]);
      case Some(V1(v1)) =>
        var group := account.groupStore.GetGroup(v1.groupId);
        if message.isExpirationUpdate {
          if group.None? {
            return Err(NullGroup);
          }
          group := Some(group.value.(messageExpirationTime := message.expiresInSeconds));
          account.UpdateGroup(group.value);
        }
        var jobs := HandleLegacyGroup(account, v1, group, source, ownProfileKey, transport);
        r := Ok(jobs);
    }
  }

  /**
   * `handleSignalServiceDataMessage`: the group or contact part, then the
   * end of the session with the peer when asked, then the sender's profile
   * key when it has exactly 32 bytes. Attachments are not fetched here.
   */
  method HandleDataMessage(account: AccountData, message: DataMessage, isSync: bool, source: Address, destination: Address,
                           ownProfileKey: Option<Bytes>, transport: Transport)
    returns (r: Result<seq<Job>, HandleError>)
    requires account.Valid()
    modifies account, account.groupStore
    ensures account.Valid()
    ensures (r, account.State()) == HandleDataSpec(Inbound(account.address, ownProfileKey, transport), old(account.State()), message, isSync, source, destination)
  {
    r := HandleGroupPart(account, message, isSync, source, destination, ownProfileKey, transport);
    if r.Err? {
      return;
    }
    if message.isEndSession {
      HandleEndSession(account, if isSync then destination else source);
    }
    if message.profileKey.Some? && |message.profileKey.value| == PROFILE_KEY_LENGTH {
      account.StoreProfileKey(source, message.profileKey.value);
    }
  }

  // ---------------------------------------------------------------------------
  // `handleMessage`

  /** The sender the envelope names, or the sender sealed inside the content. */
  function SourceOf(envelope: Envelope, content: Content): Address
  {
    if envelope.source.Some? then envelope.source.value else content.sender
  }

  /** Who a delivery receipt goes to: the envelope's source for a sealed-sender envelope that names one, the content's sender otherwise. */
  function ReceiptSender(envelope: Envelope, content: Content): Address
  {
    if envelope.IsUnidentifiedSender() && envelope.source.Some? then envelope.source.value else content.sender
  }

  /** The data-message part: a delivery receipt when asked for, then the data message's own jobs. */
  function DataPart(ctx: Inbound, st: AccountState, envelope: Envelope, content: Content)
    : (Result<seq<Job>, HandleError>, AccountState)
  {
    if content.dataMessage.None? then (Ok([]), st)
    else
      var receipt := if content.needsReceipt then [SendDeliveryReceipt(ReceiptSender(envelope, content), content.timestamp)] else [];
      var handled := HandleDataSpec(ctx, st, content.dataMessage.value, false, SourceOf(envelope, content), ctx.self);
      if handled.0.Err? then handled else (Ok(receipt + handled.0.value), handled.1)
  }

  /** The jobs a sync request asks for: the contact list, then the group list. */
  function RequestJobs(request: Option<SyncRequest>): seq<Job>
  {
    if request.None? then []
    else (if request.value.contacts then [SendContactsSync] else []) + (if request.value.groups then [SendGroupSync] else [])
  }

  /**
   * The sync-message part: a sent transcript handled as a data message
   * about its destination, the jobs a request asks for, the groups and the
   * contacts snapshots, and a verified state saved as the identity's trust
   * level.
   */
  function SyncPart(ctx: Inbound, trustOf: VerifiedState -> TrustLevel, st: AccountState, envelope: Envelope, content: Content)
    : (Result<seq<Job>, HandleError>, AccountState)
  {
    if content.syncMessage.None? then (Ok([]), st)
    else
      var sync := content.syncMessage.value;
      var sent :=
        if sync.sent.Some?
        then HandleDataSpec(ctx, st, sync.sent.value.message, true, SourceOf(envelope, content), sync.sent.value.destination)
        else (Ok([]), st);
      if sent.0.Err? then sent
      else
        (Ok(sent.0.value + RequestJobs(sync.request)), SnapshotsAndVerified(trustOf, sent.1, sync))
  }

  /** The state steps after the transcript: the groups snapshot, the contacts snapshot, the verified state. */
  function SnapshotsAndVerified(trustOf: VerifiedState -> TrustLevel, st: AccountState, sync: SyncMessage): AccountState
  {
    var grouped := if sync.groups.Some? then st.(groups := ManagerSync.IngestGroups(st.groups, sync.groups.value)) else st;
    var contacted := if sync.contacts.Some? then ManagerSync.ContactsSync(grouped, sync.contacts.value) else grouped;
    if sync.verified.Some?
    then contacted.(identities := contacted.identities[(sync.verified.value.destination, sync.verified.value.identityKey) := trustOf(sync.verified.value.state)])
    else contacted
  }

  /** `handleMessage`: the jobs to run, and the account state after one decrypted envelope. */
  function HandleMessageSpec(ctx: Inbound, trustOf: VerifiedState -> TrustLevel, st: AccountState, envelope: Envelope, content: Option<Content>)
    : (Result<seq<Job>, HandleError>, AccountState)
  {
    if content.None? then (Ok([]), st)
    else
      var data := DataPart(ctx, st, envelope, content.value);
      if data.0.Err? then data
      else
        var refresh := if envelope.IsPreKeySignalMessage() then [RefreshPreKeys] else [];
        var sync := SyncPart(ctx, trustOf, data.1, envelope, content.value);
        if sync.0.Err? then sync else (Ok(data.0.value + refresh + sync.0.value), sync.1)
  }

  /** Content that could not be decrypted changes nothing and schedules nothing. */
  lemma NullContentIgnored(ctx: Inbound, trustOf: VerifiedState -> TrustLevel, st: AccountState, envelope: Envelope)
    ensures HandleMessageSpec(ctx, trustOf, st, envelope, None) == (Ok([]), st)
  {
  }

  /** A data message that asks for a receipt schedules the delivery receipt first, to the right sender. */
  lemma ReceiptComesFirst(ctx: Inbound, trustOf: VerifiedState -> TrustLevel, st: AccountState, envelope: Envelope, content: Content)
    requires content.dataMessage.Some? && content.needsReceipt
    ensures var r := HandleMessageSpec(ctx, trustOf, st, envelope, Some(content)).0;
      r.Ok? ==>
        && |r.value| > 0
        && r.value[0] == SendDeliveryReceipt(
             if envelope.kind == EnvelopeCodec.UNIDENTIFIED_SENDER && envelope.source.Some? then envelope.source.value else content.sender,
             content.timestamp)
  {
    var data := DataPart(ctx, st, envelope, content);
    if data.0.Ok? {
      var handled := HandleDataSpec(ctx, st, content.dataMessage.value, false, SourceOf(envelope, content), ctx.self);
      assert data.0.value == [SendDeliveryReceipt(ReceiptSender(envelope, content), content.timestamp)] + handled.0.value;
    }
  }

  /** No data message and no sync request schedules a prekey refresh. */
  lemma DataPartJobs(ctx: Inbound, st: AccountState, envelope: Envelope, content: Content)
    ensures var r := DataPart(ctx, st, envelope, content).0;
      r.Ok? ==> RefreshPreKeys !in r.value && SendContactsSync !in r.value && SendGroupSync !in r.value
  {
    if content.dataMessage.Some? {
      DataMessageJobs(ctx, st, content.dataMessage.value, false, SourceOf(envelope, content), ctx.self);
    }
  }

  lemma SyncPartJobs(ctx: Inbound, trustOf: VerifiedState -> TrustLevel, st: AccountState, envelope: Envelope, content: Content)
    ensures var r := SyncPart(ctx, trustOf, st, envelope, content).0;
      && (r.Ok? ==> RefreshPreKeys !in r.value)
      && (r.Ok? ==> (SendContactsSync in r.value <==> content.syncMessage.Some? && content.syncMessage.value.request.Some? && content.syncMessage.value.request.value.contacts))
      && (r.Ok? ==> (SendGroupSync in r.value <==> content.syncMessage.Some? && content.syncMessage.value.request.Some? && content.syncMessage.value.request.value.groups))
  {
    if content.syncMessage.Some? {
      var sync := content.syncMessage.value;
      if sync.sent.Some? {
        DataMessageJobs(ctx, st, sync.sent.value.message, true, SourceOf(envelope, content), sync.sent.value.destination);
      }
    }
  }

  /** A handled envelope schedules a prekey refresh exactly when it is a prekey message. */
  lemma PreKeyMessageRefreshes(ctx: Inbound, trustOf: VerifiedState -> TrustLevel, st: AccountState, envelope: Envelope, content: Content)
    ensures var r := HandleMessageSpec(ctx, trustOf, st, envelope, Some(content)).0;
      r.Ok? ==> (RefreshPreKeys in r.value <==> envelope.kind == EnvelopeCodec.PREKEY_BUNDLE)
  {
    var data := DataPart(ctx, st, envelope, content);
    DataPartJobs(ctx, st, envelope, content);
    if data.0.Ok? {
      SyncPartJobs(ctx, trustOf, data.1, envelope, content);
    }
  }

  /** A handled envelope schedules the contact and group syncs exactly when its sync request asks for them. */
  lemma SyncRequestJobs(ctx: Inbound, trustOf: VerifiedState -> TrustLevel, st: AccountState, envelope: Envelope, content: Content)
    ensures var r := HandleMessageSpec(ctx, trustOf, st, envelope, Some(content)).0;
      var request := if content.syncMessage.Some? then content.syncMessage.value.request else None;
      && (r.Ok? ==> (SendContactsSync in r.value <==> request.Some? && request.value.contacts))
      && (r.Ok? ==> (SendGroupSync in r.value <==> request.Some? && request.value.groups))
  {
    var data := DataPart(ctx, st, envelope, content);
    DataPartJobs(ctx, st, envelope, content);
    if data.0.Ok? {
      SyncPartJobs(ctx, trustOf, data.1, envelope, content);
    }
  }

  /** A verified-state sync leaves the identity saved at the trust level of its state. */
  lemma VerifiedSyncSavesIdentity(ctx: Inbound, trustOf: VerifiedState -> TrustLevel, st: AccountState, envelope: Envelope,
                                  content: Content, verified: VerifiedMessage)
    requires content.syncMessage.Some? && content.syncMessage.value.verified == Some(verified)
    ensures var (r, after) := HandleMessageSpec(ctx, trustOf, st, envelope, Some(content));
      r.Ok? ==> (verified.destination, verified.identityKey) in after.identities
                && after.identities[(verified.destination, verified.identityKey)] == trustOf(verified.state)
  {
  }

  /** The only error is an expiration update for a legacy group, in the data message or in a sent transcript. */
  lemma HandleErrorIsNullGroup(ctx: Inbound, trustOf: VerifiedState -> TrustLevel, st: AccountState, envelope: Envelope, content: Content)
    ensures var r := HandleMessageSpec(ctx, trustOf, st, envelope, Some(content)).0;
      r.Err? ==>
        var sync := content.syncMessage;
        || (content.dataMessage.Some? && ExpiresLegacyGroup(content.dataMessage.value))
        || (sync.Some? && sync.value.sent.Some? && ExpiresLegacyGroup(sync.value.sent.value.message))
  {
    if content.dataMessage.Some? {
      ExpirationErrorOnly(ctx, st, content.dataMessage.value, false, SourceOf(envelope, content), ctx.self);
    }
    var data := DataPart(ctx, st, envelope, content);
    if data.0.Ok? && content.syncMessage.Some? && content.syncMessage.value.sent.Some? {
      var sent := content.syncMessage.value.sent.value;
      ExpirationErrorOnly(ctx, data.1, sent.message, true, SourceOf(envelope, content), sent.destination);
    }
  }

  /** An expiration update in a legacy group's context. */
  predicate ExpiresLegacyGroup(message: DataMessage)
  {
    message.isExpirationUpdate && message.group.Some? && message.group.value.V1?
  }

  lemma ExpirationErrorOnly(ctx: Inbound, st: AccountState, message: DataMessage, isSync: bool, source: Address, destination: Address)
    ensures HandleDataSpec(ctx, st, message, isSync, source, destination).0.Err? ==> ExpiresLegacyGroup(message)
  {
  }

  method HandleSyncPart(account: AccountData, trustOf: VerifiedState -> TrustLevel, envelope: Envelope, content: Content,
                        ownProfileKey: Option<Bytes>, transport: Transport)
    returns (r: Result<seq<Job>, HandleError>)
    requires account.Valid()
    modifies account, account.groupStore
    ensures account.Valid()
    ensures (r, account.State()) == SyncPart(Inbound(account.address, ownProfileKey, transport), trustOf, old(account.State()), envelope, content)
  {
    if content.syncMessage.None? {
      return Ok([]);
    }
    var sync := content.syncMessage.value;
    ghost var ctx := Inbound(account.address, ownProfileKey, transport);
    ghost var sent := if sync.sent.Some?
      then HandleDataSpec(ctx, old(account.State()), sync.sent.value.message, true, SourceOf(envelope, content), sync.sent.value.destination)
      else (Ok([]), old(account.State()));
    var jobs: seq<Job> := [];
    if sync.sent.Some? {
      r := HandleDataMessage(account, sync.sent.value.message, true, SourceOf(envelope, content), sync.sent.value.destination,
                             ownProfileKey, transport);
      if r.Err? {
        return;
      }
      jobs := r.value;
    }
    assert sent.0 == Ok(jobs) && sent.1 == account.State();
    if sync.request.Some? {
      if sync.request.value.contacts {
        jobs := jobs + [SendContactsSync];
      }
      if sync.request.value.groups {
        jobs := jobs + [SendGroupSync];
      }
    }
    assert jobs == sent.0.value + RequestJobs(sync.request);
    ApplySnapshotsAndVerified(account, trustOf, sync);
    r := Ok(jobs);
  }

  /** The groups and contacts attachments, then the verified state. */
  method ApplySnapshotsAndVerified(account: AccountData, trustOf: VerifiedState -> TrustLevel, sync: SyncMessage)
    requires account.Valid()
    modifies account, account.groupStore
    ensures account.Valid()
    ensures account.State() == SnapshotsAndVerified(trustOf, old(account.State()), sync)
  {
    if sync.groups.Some? {
      ManagerSync.IngestGroupsSync(account, sync.groups.value);
    }
    if sync.contacts.Some? {
      ManagerSync.IngestContactsSync(account, sync.contacts.value);
    }
    if sync.verified.Some? {
      var v := sync.verified.value;
      account.SaveIdentity(v.destination, v.identityKey, trustOf(v.state));
    }
  }

  /**
   * `handleMessage`: the data message, then the prekey refresh, then the
   * sync message; the collected jobs are returned rather than run, and an
   * error drops them.
   */
  method HandleMessage(account: AccountData, trustOf: VerifiedState -> TrustLevel, envelope: Envelope, content: Option<Content>,
                       ownProfileKey: Option<Bytes>, transport: Transport)
    returns (r: Result<seq<Job>, HandleError>)
    requires account.Valid()
    modifies account, account.groupStore
    ensures account.Valid()
    ensures (r, account.State()) == HandleMessageSpec(Inbound(account.address, ownProfileKey, transport), trustOf, old(account.State()), envelope, content)
  {
    if content.None? {
      return Ok([]);
    }
    var c := content.value;
    ghost var ctx := Inbound(account.address, ownProfileKey, transport);
    ghost var data := DataPart(ctx, old(account.State()), envelope, c);
    var jobs: seq<Job> := [];
    if c.dataMessage.Some? {
      if c.needsReceipt {
        jobs := [SendDeliveryReceipt(ReceiptSender(envelope, c), c.timestamp)];
      }
      r := HandleDataMessage(account, c.dataMessage.value, false, SourceOf(envelope, c), account.address, ownProfileKey, transport);
      if r.Err? {
        return;
      }
      jobs := jobs + r.value;
    }
    assert data == (Ok(jobs), account.State());
    var refresh := if envelope.IsPreKeySignalMessage() then [RefreshPreKeys] else [];
    jobs := jobs + refresh;
    r := HandleSyncPart(account, trustOf, envelope, c, ownProfileKey, transport);
    if r.Ok? {
      r := Ok(jobs + r.value);
    }
  }
}
