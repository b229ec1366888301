/**
 * Outbound routing and fan-out (`Manager.send`, `sendGroupMessage`,
 * `sendGroupV2Message`, `getGroupForSending`, `sendMessage`,
 * `sendGroupInfoRequest`, `getAccessFor`): which recipients a message goes
 * to, with which expiration timer, what each recipient's result is, which
 * identities are demoted to UNTRUSTED, and which sessions are torn down.
 * The service's sender is a `Transport` of oracles.
 */
module ManagerSend {
  import opened Wrappers
  import opened JavaTypes
  import opened SignalTypes
  import opened Account
  import GroupStore
  import Base64

  // ---------------------------------------------------------------------------
  // The transport

  /** `SendMessageResult`, one per recipient. */
  datatype SendResult =
    | Success(address: Address)
    | NetworkFailure(address: Address)
    | UnregisteredFailure(address: Address)
    | IdentityFailure(address: Address, key: Option<IdentityKey>)

  /**
   * What one send to one address does: returns a result, throws
   * `UntrustedIdentityException` (naming an address and a key that may be
   * null), or throws `IOException`.
   */
  datatype SendOutcome =
    | Returned(result: SendResult)
    | UntrustedIdentity(identifier: Address, key: Option<IdentityKey>)
    | IoFailure

  /** What one group send does: a result list, an `UntrustedIdentityException`, or an `IOException`. */
  datatype GroupOutcome =
    | GroupReturned(results: seq<SendResult>)
    | GroupUntrusted(identifier: Address, key: IdentityKey)
    | GroupIoFailure

  /**
   * `SignalServiceMessageSender`: a data message to one address, a data
   * message to a list of addresses, and a sent-transcript sync message to
   * this account's own devices.
   */
  datatype Transport = Transport(
    sendData: (Address, DataMessage) -> SendOutcome,
    sendGroup: (seq<Address>, DataMessage) -> GroupOutcome,
    sendTranscript: DataMessage -> SendOutcome)

  /** The exceptions that leave the send path. */
  datatype SendError =
    | IoError             // IOException
    | GroupNotFound       // GroupNotFoundException
    | NotAGroupMember     // NotAGroupMemberException
    | InvalidRecipient    // InvalidRecipientException
    | NullGroupId         // AssertionError on a null group id
    | MalformedGroupId    // IOException from Base64.decode

  // ---------------------------------------------------------------------------
  // Identity demotion

  /** The identity rows to mark UNTRUSTED, in the order the saves happen. */
  type SaveList = seq<(Address, IdentityKey)>

  /** `saveIdentity(address, key, UNTRUSTED)` for every pair, in order. */
  function SaveAll(ids: IdentityTable, saves: SaveList): IdentityTable
    decreases |saves|
  {
    if saves == [] then ids else SaveAll(ids, saves[..|saves| - 1])[saves[|saves| - 1] := Untrusted]
  }

  /** After the saves, exactly the saved rows are added or demoted to UNTRUSTED; every other row is as it was. */
  lemma {:induction false} SaveAllMarks(ids: IdentityTable, saves: SaveList)
    ensures forall p :: p in SaveAll(ids, saves) <==> p in ids || p in saves
    ensures forall p :: p in saves ==> SaveAll(ids, saves)[p] == Untrusted
    ensures forall p :: p in ids && p !in saves ==> SaveAll(ids, saves)[p] == ids[p]
    decreases |saves|
  {
    if saves != [] {
      var init := saves[..|saves| - 1];
      SaveAllMarks(ids, init);
      assert forall p :: p in saves <==> p in init || p == saves[|saves| - 1];
    }
  }

  lemma SaveAllSnoc(ids: IdentityTable, saves: SaveList, p: (Address, IdentityKey))
    ensures SaveAll(ids, saves + [p]) == SaveAll(ids, saves)[p := Untrusted]
  {
    assert (saves + [p])[..|saves|] == saves;
  }

  /** The save an identity fault with a key asks for. */
  function SavesOf(o: SendOutcome): SaveList
  {
    if o.UntrustedIdentity? && o.key.Some? then [(o.identifier, o.key.value)] else []
  }

  /** The saves the group path makes: one per identity-failure result that carries a key. */
  function ResultSaves(results: seq<SendResult>): (saves: SaveList)
    ensures forall p :: p in saves <==> exists i :: 0 <= i < |results| && KeyedFailure(results[i], p)
    decreases |results|
  {
    if results == [] then []
    else
      var r := results[|results| - 1];
      var init := ResultSaves(results[..|results| - 1]);
      assert forall i :: 0 <= i < |results| - 1 ==> results[..|results| - 1][i] == results[i];
      init + (if r.IdentityFailure? && r.key.Some? then [(r.address, r.key.value)] else [])
  }

  /** `r` is an identity failure for `p`'s address carrying `p`'s key. */
  predicate KeyedFailure(r: SendResult, p: (Address, IdentityKey))
  {
    r.IdentityFailure? && r.key == Some(p.1) && r.address == p.0
  }

  // ---------------------------------------------------------------------------
  // The individual fan-out

  /** What the individual path sends with: own address, contacts, the built message, the transport. */
  datatype Sending = Sending(self: Address, contacts: map<Address, int32>, message: DataMessage, transport: Transport)

  /** The message rebuilt for one recipient: the contact's own expiration timer. */
  function MessageFor(s: Sending, a: Address): DataMessage
  {
    s.message.(expiresInSeconds := ExpirationOf(s.contacts, a))
  }

  /** One recipient's send: a transcript when it is this account, a data message otherwise. */
  function OutcomeFor(s: Sending, a: Address): SendOutcome
  {
    if a == s.self then s.transport.sendTranscript(MessageFor(s, a)) else s.transport.sendData(a, MessageFor(s, a))
  }

  /** The result recorded for one recipient whose send did not throw `IOException`. */
  function ResultFor(s: Sending, a: Address): SendResult
    requires !OutcomeFor(s, a).IoFailure?
  {
    match OutcomeFor(s, a)
    case Returned(r) => if a == s.self then Success(a) else r
    case UntrustedIdentity(_, key) => IdentityFailure(a, key)
  }

  /** The position of the first recipient whose send throws `IOException`, or the length when none does. */
  function FirstIoFailure(s: Sending, rs: seq<Address>): (n: nat)
    ensures n <= |rs|
    ensures forall i :: 0 <= i < n ==> !OutcomeFor(s, rs[i]).IoFailure?
    ensures n < |rs| ==> OutcomeFor(s, rs[n]).IoFailure?
  {
    if rs == [] || OutcomeFor(s, rs[0]).IoFailure? then 0 else 1 + FirstIoFailure(s, rs[1..])
  }

  /** One result per recipient, in order. */
  function Results(s: Sending, rs: seq<Address>): seq<SendResult>
    requires forall i :: 0 <= i < |rs| ==> !OutcomeFor(s, rs[i]).IoFailure?
  {
    seq(|rs|, i requires 0 <= i < |rs| => ResultFor(s, rs[i]))
  }

  /** The saves of the individual path, in recipient order. */
  function Saves(s: Sending, rs: seq<Address>): SaveList
    decreases |rs|
  {
    if rs == [] then [] else Saves(s, rs[..|rs| - 1]) + SavesOf(OutcomeFor(s, rs[|rs| - 1]))
  }

  /** Recipient `a`'s send demotes the identity row `p`. */
  predicate DemotesTo(s: Sending, a: Address, p: (Address, IdentityKey))
  {
    var o := OutcomeFor(s, a);
    o.UntrustedIdentity? && o.key == Some(p.1) && o.identifier == p.0
  }

  lemma {:induction false} SavesDemote(s: Sending, rs: seq<Address>)
    ensures forall p :: p in Saves(s, rs) <==> exists i :: 0 <= i < |rs| && DemotesTo(s, rs[i], p)
    decreases |rs|
  {
    if rs != [] {
      var init := rs[..|rs| - 1];
      SavesDemote(s, init);
      assert forall i :: 0 <= i < |init| ==> init[i] == rs[i];
    }
  }

  // ---------------------------------------------------------------------------
  // `sendMessage` as a function of the account state

  /** The result of a send and the identity table after it. */
  datatype SendEffect = SendEffect(result: Result<seq<SendResult>, SendError>, identities: IdentityTable)

  /** The builder with this account's profile key, when one is available. */
  function WithProfileKey(builder: DataMessage, ownProfileKey: Option<Bytes>): DataMessage
  {
    if ownProfileKey.Some? then builder.(profileKey := ownProfileKey) else builder
  }

  /**
   * The three paths of `sendMessage` for resolved recipients `rs`: a group
   * message goes to the whole list at once; a message for this account
   * alone becomes a sent transcript; anything else goes to each recipient
   * in turn with that contact's timer.
   */
  function Dispatch(self: Address, st: AccountState, message: DataMessage, rs: seq<Address>, t: Transport): (e: SendEffect)
    ensures e.result.Err? ==> e.result.error == IoError
  {
    if message.group.Some? then
      match t.sendGroup(rs, message)
      case GroupReturned(results) => SendEffect(Ok(results), SaveAll(st.identities, ResultSaves(results)))
      case GroupUntrusted(id, key) => SendEffect(Ok([]), SaveAll(st.identities, [(id, key)]))
      case GroupIoFailure => SendEffect(Err(IoError), st.identities)
    else if |rs| == 1 && self in rs then
      var o := t.sendTranscript(message);
      match o
      case Returned(_) => SendEffect(Ok([]), st.identities)
      case UntrustedIdentity(_, key) => SendEffect(Ok([IdentityFailure(self, key)]), SaveAll(st.identities, SavesOf(o)))
      case IoFailure => SendEffect(Err(IoError), st.identities)
    else
      var s := Sending(self, st.contacts, message, t);
      var n := FirstIoFailure(s, rs);
      SendEffect(if n < |rs| then Err(IoError) else Ok(Results(s, rs)), SaveAll(st.identities, Saves(s, rs[..n])))
  }

  /** The sessions left after the `finally` block: none with any recipient when the message ends the session. */
  function SessionsAfter(sessions: set<Address>, message: DataMessage, rs: seq<Address>): set<Address>
  {
    if message.isEndSession then sessions - Elems(rs) else sessions
  }

  /** `sendMessage`: the results, and the account state after the send. */
  function SendSpec(self: Address, st: AccountState, builder: DataMessage, recipients: Option<seq<Address>>,
                    ownProfileKey: Option<Bytes>, t: Transport): (Result<seq<SendResult>, SendError>, AccountState)
  {
    if recipients.None? then (Ok([]), st)
    else
      var message := WithProfileKey(builder, ownProfileKey);
      var e := Dispatch(self, st, message, recipients.value, t);
      (e.result, st.(identities := e.identities, sessions := SessionsAfter(st.sessions, message, recipients.value)))
  }

  // ---------------------------------------------------------------------------
  // Properties of `sendMessage`

  /**
   * The individual path gives exactly one result per recipient, in input
   * order: an identity fault becomes that recipient's `identityFailure` and
   * the later recipients are still sent to; only an `IOException` stops it.
   */
  lemma IndividualResults(self: Address, st: AccountState, message: DataMessage, rs: seq<Address>, t: Transport)
    requires message.group.None? && !(|rs| == 1 && self in rs)
    ensures var s := Sending(self, st.contacts, message, t);
      var e := Dispatch(self, st, message, rs, t);
      && (e.result.Err? <==> exists i :: 0 <= i < |rs| && OutcomeFor(s, rs[i]).IoFailure?)
      && (e.result.Ok? ==>
            && |e.result.value| == |rs|
            && forall i :: 0 <= i < |rs| ==>
                 match OutcomeFor(s, rs[i])
                 case UntrustedIdentity(_, key) => e.result.value[i] == IdentityFailure(rs[i], key)
                 case Returned(r) => e.result.value[i] == (if rs[i] == self then Success(self) else r)
                 case IoFailure => false)
  {
    var s := Sending(self, st.contacts, message, t);
    var n := FirstIoFailure(s, rs);
    if n < |rs| {
      assert OutcomeFor(s, rs[n]).IoFailure?;
    }
  }

  /**
   * On the individual path, the identity rows marked UNTRUSTED are exactly
   * those named by an identity fault that carried a key, among the
   * recipients sent to before any `IOException`; the other rows keep their level.
   */
  /**
   * `after` is `before` with exactly the rows named by the identity faults of
   * the first `n` recipients added or demoted to UNTRUSTED; every other row is unchanged.
   */
  ghost predicate DemotedBy(before: IdentityTable, after: IdentityTable, s: Sending, rs: seq<Address>, n: nat)
    requires n <= |rs|
  {
    && (forall p :: p in after <==> p in before || exists i :: 0 <= i < n && DemotesTo(s, rs[i], p))
    && (forall p :: p in after ==>
          after[p] == if exists i :: 0 <= i < n && DemotesTo(s, rs[i], p) then Untrusted else before[p])
  }

  lemma IndividualDemotion(self: Address, st: AccountState, message: DataMessage, rs: seq<Address>, t: Transport)
    requires message.group.None? && !(|rs| == 1 && self in rs)
    ensures var s := Sending(self, st.contacts, message, t);
      DemotedBy(st.identities, Dispatch(self, st, message, rs, t).identities, s, rs, FirstIoFailure(s, rs))
  {
    var s := Sending(self, st.contacts, message, t);
    var n := FirstIoFailure(s, rs);
    assert Dispatch(self, st, message, rs, t).identities == SaveAll(st.identities, Saves(s, rs[..n]));
    PrefixDemotion(st.identities, s, rs, n);
  }

  /** The saves of the first `n` recipients demote exactly the rows those recipients' faults name. */
  lemma PrefixDemotion(ids: IdentityTable, s: Sending, rs: seq<Address>, n: nat)
    requires n <= |rs|
    ensures DemotedBy(ids, SaveAll(ids, Saves(s, rs[..n])), s, rs, n)
  {
    SavesDemote(s, rs[..n]);
    SaveAllMarks(ids, Saves(s, rs[..n]));
    assert forall i :: 0 <= i < n ==> rs[..n][i] == rs[i];
  }

  /** On the group path, every identity-failure result carrying a key demotes that row, and only those. */
  lemma GroupDemotion(self: Address, st: AccountState, message: DataMessage, rs: seq<Address>, t: Transport)
    requires message.group.Some? && t.sendGroup(rs, message).GroupReturned?
    ensures var results := t.sendGroup(rs, message).results;
      var e := Dispatch(self, st, message, rs, t);
      && e.result == Ok(results)
      && (forall p :: p in e.identities <==> p in st.identities || exists i :: 0 <= i < |results| && KeyedFailure(results[i], p))
      && (forall p :: p in e.identities ==>
            e.identities[p] == if exists i :: 0 <= i < |results| && KeyedFailure(results[i], p) then Untrusted else st.identities[p])
  {
    SaveAllMarks(st.identities, ResultSaves(t.sendGroup(rs, message).results));
  }

  /**
   * A message for this account alone is only a sent transcript: it returns
   * an empty list when the transcript goes through, one identity failure
   * for this account when it meets an identity fault, and no per-contact
   * timer is applied.
   */
  lemma SelfOnlySend(self: Address, st: AccountState, message: DataMessage, t: Transport)
    requires message.group.None?
    ensures var e := Dispatch(self, st, message, [self], t);
      match t.sendTranscript(message)
      case Returned(_) => e.result == Ok([]) && e.identities == st.identities
      case UntrustedIdentity(id, key) =>
        && e.result == Ok([IdentityFailure(self, key)])
        && e.identities == if key.Some? then st.identities[(id, key.value) := Untrusted] else st.identities
      case IoFailure => e.result == Err(IoError) && e.identities == st.identities
  {
    var o := t.sendTranscript(message);
    if o.UntrustedIdentity? && o.key.Some? {
      SaveAllSnoc(st.identities, [], (o.identifier, o.key.value));
    }
  }

  /**
   * When the built message ends the session, no recipient keeps a session,
   * whether the send succeeded or failed; otherwise the sessions are untouched.
   */
  lemma EndSessionTearsDown(self: Address, st: AccountState, builder: DataMessage, rs: seq<Address>,
                            ownProfileKey: Option<Bytes>, t: Transport)
    ensures var after := SendSpec(self, st, builder, Some(rs), ownProfileKey, t).1.sessions;
      && (builder.isEndSession ==> forall a :: a in rs ==> a !in after)
      && (builder.isEndSession ==> forall a :: a in st.sessions && a !in rs ==> a in after)
      && (!builder.isEndSession ==> after == st.sessions)
  {
  }

  // ---------------------------------------------------------------------------
  // `sendMessage` itself

  /** The identity table after one recipient's send: its identity fault's key, if any, saved as UNTRUSTED. */
  function Demote(ids: IdentityTable, o: SendOutcome): IdentityTable
  {
    if o.UntrustedIdentity? && o.key.Some? then ids[(o.identifier, o.key.value) := Untrusted] else ids
  }

  lemma SavesStep(ids: IdentityTable, s: Sending, rs: seq<Address>, i: nat)
    requires i < |rs|
    ensures SaveAll(ids, Saves(s, rs[..i + 1])) == Demote(SaveAll(ids, Saves(s, rs[..i])), OutcomeFor(s, rs[i]))
  {
    assert rs[..i + 1][..i] == rs[..i];
    var o := OutcomeFor(s, rs[i]);
    if o.UntrustedIdentity? && o.key.Some? {
      SaveAllSnoc(ids, Saves(s, rs[..i]), (o.identifier, o.key.value));
    } else {
      assert Saves(s, rs[..i]) + SavesOf(o) == Saves(s, rs[..i]);
    }
  }

  lemma ResultsStep(s: Sending, rs: seq<Address>, i: nat)
    requires i < |rs| && forall j :: 0 <= j <= i ==> !OutcomeFor(s, rs[j]).IoFailure?
    ensures Results(s, rs[..i + 1]) == Results(s, rs[..i]) + [ResultFor(s, rs[i])]
  {
  }

  /** One recipient of the individual path: the message with the contact's timer, as a transcript or a data message. */
  method SendToOne(account: AccountData, message: DataMessage, a: Address, transport: Transport)
    returns (outcome: SendOutcome, result: SendResult)
    modifies account
    ensures var s := Sending(account.address, old(account.contacts), message, transport);
      && outcome == OutcomeFor(s, a)
      && (!outcome.IoFailure? ==> result == ResultFor(s, a))
      && account.State() == old(account.State()).(identities := Demote(old(account.identities), outcome))
  {
    var m := message.(expiresInSeconds := ExpirationOf(account.contacts, a));
    if a == account.address {
      outcome := transport.sendTranscript(m);
    } else {
      outcome := transport.sendData(a, m);
    }
    result := NetworkFailure(a);
    match outcome {
      case Returned(res) =>
        result := if a == account.address then Success(a) else res;
      case UntrustedIdentity(id, key) =>
        if key.Some? {
          account.SaveIdentity(id, key.value, Untrusted);
        }
        result := IdentityFailure(a, key);
      case IoFailure =>
    }
  }

  /** The individual path: each recipient in turn, until one throws `IOException`. */
  method SendIndividually(account: AccountData, message: DataMessage, rs: seq<Address>, transport: Transport)
    returns (r: Result<seq<SendResult>, SendError>)
    modifies account
    ensures var s := Sending(account.address, old(account.contacts), message, transport);
      var n := FirstIoFailure(s, rs);
      && r == (if n < |rs| then Err(IoError) else Ok(Results(s, rs)))
      && account.State() == old(account.State()).(identities := SaveAll(old(account.identities), Saves(s, rs[..n])))
  {
    ghost var s := Sending(account.address, account.contacts, message, transport);
    ghost var n := FirstIoFailure(s, rs);
    ghost var ids := account.identities;
    var results := [];
    var failed := false;
    var i := 0;
    while i < |rs| && !failed
      invariant 0 <= i <= n
      invariant failed ==> i == n < |rs|
      invariant !failed ==> results == Results(s, rs[..i])
      invariant account.State() == old(account.State()).(identities := SaveAll(ids, Saves(s, rs[..i])))
      decreases |rs| - i, if failed then 0 else 1
    {
      var outcome, result := SendToOne(account, message, rs[i], transport);
      if outcome.IoFailure? {
        failed := true;
      } else {
        SavesStep(ids, s, rs, i);
        ResultsStep(s, rs, i);
        results := results + [result];
        i := i + 1;
      }
    }
    if failed {
      r := Err(IoError);
    } else {
      assert rs[..i] == rs;
      r := Ok(results);
    }
  }

  /** The group path: one send to the whole list, then UNTRUSTED for every identity failure. */
  method SendToGroup(account: AccountData, message: DataMessage, rs: seq<Address>, transport: Transport)
    returns (r: Result<seq<SendResult>, SendError>)
    requires message.group.Some?
    modifies account
    ensures var e := Dispatch(account.address, old(account.State()), message, rs, transport);
      r == e.result && account.State() == old(account.State()).(identities := e.identities)
  {
    match transport.sendGroup(rs, message) {
      case GroupReturned(results) =>
        var i := 0;
        while i < |results|
          invariant 0 <= i <= |results|
          invariant account.State() == old(account.State()).(identities := SaveAll(old(account.identities), ResultSaves(results[..i])))
        {
          assert results[..i + 1][..i] == results[..i];
          if results[i].IdentityFailure? && results[i].key.Some? {
            SaveAllSnoc(old(account.identities), ResultSaves(results[..i]), (results[i].address, results[i].key.value));
            account.SaveIdentity(results[i].address, results[i].key.value, Untrusted);
          } else {
            assert ResultSaves(results[..i + 1]) == ResultSaves(results[..i]) + [];
            assert ResultSaves(results[..i]) + [] == ResultSaves(results[..i]);
          }
          i := i + 1;
        }
        assert results[..i] == results;
        r := Ok(results);
      case GroupUntrusted(id, key) =>
        SaveAllSnoc(account.identities, [], (id, key));
        account.SaveIdentity(id, key, Untrusted);
        r := Ok([]);
      case GroupIoFailure =>
        r := Err(IoError);
    }
  }

  /** The self-only path: a sent transcript to this account's other devices. */
  method SendTranscriptToSelf(account: AccountData, message: DataMessage, transport: Transport)
    returns (r: Result<seq<SendResult>, SendError>)
    requires message.group.None?
    modifies account
    ensures var e := Dispatch(account.address, old(account.State()), message, [account.address], transport);
      r == e.result && account.State() == old(account.State()).(identities := e.identities)
  {
    var outcome := transport.sendTranscript(message);
    match outcome {
      case Returned(_) =>
        r := Ok([]);
      case UntrustedIdentity(id, key) =>
        if key.Some? {
          SaveAllSnoc(account.identities, [], (id, key.value));
          account.SaveIdentity(id, key.value, Untrusted);
        }
        r := Ok([IdentityFailure(account.address, key)]);
      case IoFailure =>
        r := Err(IoError);
    }
  }

  /** `handleEndSession`: every session with `a` deleted. */
  method HandleEndSession(account: AccountData, a: Address)
    modifies account
    ensures account.State() == old(account.State()).(sessions := old(account.sessions) - {a})
  {
    account.DeleteAllSessions(a);
  }

  /**
   * `sendMessage`: a null recipient list sends nothing; otherwise the
   * message, with this account's profile key when there is one, goes down
   * the group, self-only or individual path, and the `finally` block ends
   * the session with every recipient when the message says so.
   */
  method SendMessage(account: AccountData, builder: DataMessage, recipients: Option<seq<Address>>,
                     ownProfileKey: Option<Bytes>, transport: Transport)
    returns (r: Result<seq<SendResult>, SendError>)
    modifies account
    ensures (r, account.State()) == SendSpec(account.address, old(account.State()), builder, recipients, ownProfileKey, transport)
  {
    if recipients.None? {
      return Ok([]);
    }
    var rs := recipients.value;
    var message := builder;
    if ownProfileKey.Some? {
      message := message.(profileKey := ownProfileKey);
    }
    if message.group.Some? {
      r := SendToGroup(account, message, rs, transport);
    } else if |rs| == 1 && account.address in rs {
      assert rs == [account.address];
      r := SendTranscriptToSelf(account, message, transport);
    } else {
      r := SendIndividually(account, message, rs, transport);
    }
    ghost var sent := account.State();
    if message.isEndSession {
      var i := 0;
      while i < |rs|
        invariant 0 <= i <= |rs|
        invariant account.State() == sent.(sessions := sent.sessions - Elems(rs[..i]))
      {
        assert rs[..i + 1] == rs[..i] + [rs[i]];
        ElemsSnoc(rs[..i], rs[i]);
        HandleEndSession(account, rs[i]);
        i := i + 1;
      }
      assert rs[..i] == rs;
    }
  }

  // ---------------------------------------------------------------------------
  // Group sends

  /** `getGroupForSending` as a function: the stored group when this account is a member of it. */
  function GroupForSending(self: Address, groups: GroupStore.GroupMap, groupId: Bytes): (r: Result<GroupStore.GroupInfo, SendError>)
    requires GroupStore.KeyedById(groups)
    ensures r == Err(GroupNotFound) <==> GroupStore.Find(groups, groupId).None?
    ensures r == Err(NotAGroupMember) <==> GroupStore.Find(groups, groupId).Some? && self !in GroupStore.Find(groups, groupId).value.members
    ensures r.Ok? ==> r.value.groupId == groupId && self in r.value.members && r.value in groups.Values
  {
    GroupStore.FindById(groups, groupId);
    match GroupStore.Find(groups, groupId)
    case None => Err(GroupNotFound)
    case Some(g) => if self in g.members then Ok(g) else Err(NotAGroupMember)
  }

  /** `getGroupForSending`: a null group is `GroupNotFoundException`, a group without this account `NotAGroupMemberException`. */
  method GetGroupForSending(account: AccountData, groupId: Bytes) returns (r: Result<GroupStore.GroupInfo, SendError>)
    requires account.Valid()
    ensures r == GroupForSending(account.address, account.groupStore.groups, groupId)
  {
    var g := account.groupStore.GetGroup(groupId);
    if g.None? {
      return Err(GroupNotFound);
    }
    if account.address !in g.value.members {
      return Err(NotAGroupMember);
    }
    return Ok(g.value);
  }

  /** The builder of a legacy group message: a DELIVER context, and the group's timer when it has one. */
  function LegacyGroupMessage(builder: DataMessage, groupId: Bytes, g: GroupStore.GroupInfo): DataMessage
  {
    var withGroup := builder.(group := Some(V1(GroupV1(groupId, Deliver, None, None))));
    if g.messageExpirationTime != 0 then withGroup.(expiresInSeconds := g.messageExpirationTime) else withGroup
  }

  /** The addresses of a list, as a set. */
  function Elems(rs: seq<Address>): set<Address>
  {
    set a | a in rs
  }

  lemma ElemsSnoc(rs: seq<Address>, a: Address)
    ensures Elems(rs + [a]) == Elems(rs) + {a}
  {
  }

  /** No address occurs twice. */
  predicate Distinct(rs: seq<Address>)
  {
    forall i, j :: 0 <= i < j < |rs| ==> rs[i] != rs[j]
  }

  /** Every member of a legacy group except this account, each once, in the set's (unspecified) order. */
  method MembersExceptSelf(members: set<Address>, self: Address) returns (rs: seq<Address>)
    ensures Elems(rs) == members - {self}
    ensures Distinct(rs)
  {
    rs := [];
    var pending := members;
    while pending != {}
      invariant pending <= members
      invariant Elems(rs) == members - pending - {self}
      invariant forall a :: a in rs ==> a !in pending
      invariant Distinct(rs)
      decreases pending
    {
      var a :| a in pending;
      if a != self {
        ElemsSnoc(rs, a);
        rs := rs + [a];
      }
      pending := pending - {a};
    }
  }

  /**
   * `sendGroupMessage`: a null id is an `AssertionError`; otherwise a
   * DELIVER message to every member of the stored group except this
   * account, with the group's timer when it is set.
   */
  method SendGroupMessage(account: AccountData, builder: DataMessage, groupId: Option<Bytes>,
                          ownProfileKey: Option<Bytes>, transport: Transport)
    returns (r: Result<seq<SendResult>, SendError>, ghost recipients: seq<Address>)
    requires account.Valid()
    modifies account
    ensures account.Valid()
    ensures groupId.None? ==> r == Err(NullGroupId) && account.State() == old(account.State())
    ensures groupId.Some? && GroupForSending(account.address, old(account.groupStore.groups), groupId.value).Err? ==>
      r == GroupForSending(account.address, old(account.groupStore.groups), groupId.value).PropagateFailure()
      && account.State() == old(account.State())
    ensures groupId.Some? && GroupForSending(account.address, old(account.groupStore.groups), groupId.value).Ok? ==>
      var g := GroupForSending(account.address, old(account.groupStore.groups), groupId.value).value;
      && Elems(recipients) == g.members - {account.address}
      && Distinct(recipients)
      && (r, account.State()) == SendSpec(account.address, old(account.State()), LegacyGroupMessage(builder, groupId.value, g),
                                          Some(recipients), ownProfileKey, transport)
  {
    recipients := [];
    if groupId.None? {
      return Err(NullGroupId), recipients;
    }
    var message := builder.(group := Some(V1(GroupV1(groupId.value, Deliver, None, None))));
    var found := GetGroupForSending(account, groupId.value);
    if found.Err? {
      return found.PropagateFailure(), recipients;
    }
    var g := found.value;
    if g.messageExpirationTime != 0 {
      message := message.(expiresInSeconds := g.messageExpirationTime);
    }
    var membersSend := MembersExceptSelf(g.members, account.address);
    recipients := membersSend;
    r := SendMessage(account, message, Some(membersSend), ownProfileKey, transport);
  }

  /** The list without this account, order kept. */
  function WithoutSelf(rs: seq<Address>, self: Address): (out: seq<Address>)
    ensures forall a :: a in out <==> a in rs && a != self
    ensures |out| <= |rs|
    decreases |rs|
  {
    if rs == [] then []
    else
      var init := WithoutSelf(rs[..|rs| - 1], self);
      assert forall a :: a in rs <==> a in rs[..|rs| - 1] || a == rs[|rs| - 1];
      if rs[|rs| - 1] != self then init + [rs[|rs| - 1]] else init
  }

  /** Dropping this account keeps the other recipients in their order: the result is a subsequence of the list. */
  lemma {:induction false} WithoutSelfOrder(rs: seq<Address>, self: Address, i: nat, j: nat)
    requires i < j < |WithoutSelf(rs, self)|
    ensures exists k, l :: 0 <= k < l < |rs| && rs[k] == WithoutSelf(rs, self)[i] && rs[l] == WithoutSelf(rs, self)[j]
    decreases |rs|
  {
    var init := rs[..|rs| - 1];
    var w := WithoutSelf(init, self);
    if j < |w| {
      WithoutSelfOrder(init, self, i, j);
      var k, l :| 0 <= k < l < |init| && init[k] == w[i] && init[l] == w[j];
      assert rs[k] == init[k] && rs[l] == init[l];
    } else {
      assert w[i] in init;
      var k :| 0 <= k < |init| && init[k] == w[i];
      assert rs[k] == init[k];
      assert rs[|rs| - 1] == WithoutSelf(rs, self)[j];
    }
  }

  /** The v2 builder: the group's master key, and its timer when it is set and non-zero. */
  function V2GroupMessage(builder: DataMessage, g: GroupV2): DataMessage
  {
    var timed := if g.timer.Some? && g.timer.value != 0 then builder.(expiresInSeconds := g.timer.value) else builder;
    timed.(group := Some(V2(g.masterKey)))
  }

  /** `sendGroupV2Message` with a recipient list: the v2 context, and every recipient except this account, in order. */
  method SendGroupV2MessageTo(account: AccountData, builder: DataMessage, masterKey: Bytes, recipients: seq<Address>,
                              ownProfileKey: Option<Bytes>, transport: Transport)
    returns (r: Result<seq<SendResult>, SendError>)
    modifies account
    ensures (r, account.State()) == SendSpec(account.address, old(account.State()), builder.(group := Some(V2(masterKey))),
                                             Some(WithoutSelf(recipients, account.address)), ownProfileKey, transport)
  {
    var message := builder.(group := Some(V2(masterKey)));
    var membersSend := [];
    var i := 0;
    while i < |recipients|
      invariant 0 <= i <= |recipients|
      invariant membersSend == WithoutSelf(recipients[..i], account.address)
    {
      assert recipients[..i + 1][..i] == recipients[..i];
      if recipients[i] != account.address {
        membersSend := membersSend + [recipients[i]];
      }
      i := i + 1;
    }
    assert recipients[..i] == recipients;
    r := SendMessage(account, message, Some(membersSend), ownProfileKey, transport);
  }

  /** `sendGroupV2Message` for a stored v2 group: its timer when set and non-zero, then every member except this account. */
  method SendGroupV2Message(account: AccountData, builder: DataMessage, g: GroupV2,
                            ownProfileKey: Option<Bytes>, transport: Transport)
    returns (r: Result<seq<SendResult>, SendError>)
    modifies account
    ensures (r, account.State()) == SendSpec(account.address, old(account.State()), V2GroupMessage(builder, g),
                                             Some(WithoutSelf(g.members, account.address)), ownProfileKey, transport)
  {
    var message := builder;
    if g.timer.Some? && g.timer.value != 0 {
      message := message.(expiresInSeconds := g.timer.value);
    }
    r := SendGroupV2MessageTo(account, message, g.masterKey, g.members, ownProfileKey, transport);
  }

  /** A REQUEST_INFO message for a legacy group, from a fresh builder. */
  function RequestInfoMessage(groupId: Bytes): DataMessage
  {
    DataMessage(Some(V1(GroupV1(groupId, RequestInfo, None, None))), 0, false, false, None)
  }

  /** `sendGroupInfoRequest`: null for a null id, otherwise a REQUEST_INFO message to the one recipient. */
  method SendGroupInfoRequest(account: AccountData, groupId: Option<Bytes>, recipient: Address,
                              ownProfileKey: Option<Bytes>, transport: Transport)
    returns (r: Option<Result<seq<SendResult>, SendError>>)
    modifies account
    ensures groupId.None? ==> r.None? && account.State() == old(account.State())
    ensures groupId.Some? ==> r.Some? && (r.value, account.State()) == SendSpec(account.address, old(account.State()),
                                RequestInfoMessage(groupId.value), Some([recipient]), ownProfileKey, transport)
  {
    if groupId.None? {
      return None;
    }
    var sent := SendMessage(account, RequestInfoMessage(groupId.value), Some([recipient]), ownProfileKey, transport);
    r := Some(sent);
  }

  /**
   * A REQUEST_INFO reaches the one recipient through the group path only:
   * no session is ended and only the identity table can change.
   */
  lemma RequestInfoEffect(self: Address, st: AccountState, groupId: Bytes, recipient: Address,
                          ownProfileKey: Option<Bytes>, t: Transport)
    ensures var (r, after) := SendSpec(self, st, RequestInfoMessage(groupId), Some([recipient]), ownProfileKey, t);
      var message := WithProfileKey(RequestInfoMessage(groupId), ownProfileKey);
      && after == st.(identities := after.identities)
      && (t.sendGroup([recipient], message).GroupReturned? ==> r == Ok(t.sendGroup([recipient], message).results))
      && (t.sendGroup([recipient], message).GroupIoFailure? ==> r == Err(IoError) && after == st)
  {
  }

  // ---------------------------------------------------------------------------
  // `send` and `getAccessFor`

  /** Group ids of this length name a legacy group awaiting migration; of the other, a v2 group. */
  const LEGACY_ID_LENGTH: int := 24
  const V2_ID_LENGTH: int := 44

  /** The group id `send` routes by, after the migration lookup of a legacy id. */
  function RoutedGroupId(groupId: string, migratedGroupId: string -> string): string
  {
    if |groupId| == LEGACY_ID_LENGTH then migratedGroupId(groupId) else groupId
  }

  /**
   * `send`: exactly one of a recipient address and a group id. An id of 44
   * characters (after the migration lookup of a 24-character one) names a
   * v2 group, any other a Base64-encoded legacy group id.
   */
  method Send(account: AccountData, builder: DataMessage, recipientAddress: Option<Address>, recipientGroupId: Option<string>,
              migratedGroupId: string -> string, ownProfileKey: Option<Bytes>, transport: Transport)
    returns (r: Result<seq<SendResult>, SendError>)
    requires account.Valid()
    modifies account
    ensures account.Valid()
    ensures r == Err(InvalidRecipient) <==> recipientAddress.Some? == recipientGroupId.Some?
    ensures recipientAddress.Some? == recipientGroupId.Some? ==> account.State() == old(account.State())
    ensures recipientAddress.Some? && recipientGroupId.None? ==>
      (r, account.State()) == SendSpec(account.address, old(account.State()), builder, Some([recipientAddress.value]), ownProfileKey, transport)
    ensures recipientAddress.None? && recipientGroupId.Some? ==>
      var id := RoutedGroupId(recipientGroupId.value, migratedGroupId);
      && (|id| == V2_ID_LENGTH && id !in old(account.groupsV2) ==> r == Err(GroupNotFound) && account.State() == old(account.State()))
      && (|id| == V2_ID_LENGTH && id in old(account.groupsV2) ==>
            var g := old(account.groupsV2)[id];
            (r, account.State()) == SendSpec(account.address, old(account.State()), V2GroupMessage(builder, g),
                                             Some(WithoutSelf(g.members, account.address)), ownProfileKey, transport))
      && (|id| != V2_ID_LENGTH && Base64.Decode(id).None? ==> r == Err(MalformedGroupId) && account.State() == old(account.State()))
      && (|id| != V2_ID_LENGTH && Base64.Decode(id).Some? ==>
            var found := GroupForSending(account.address, old(account.groupStore.groups), Base64.Decode(id).value);
            && (found.Err? ==> r == found.PropagateFailure() && account.State() == old(account.State()))
            && (found.Ok? ==>
                  exists recipients: seq<Address> ::
                    && Elems(recipients) == found.value.members - {account.address}
                    && Distinct(recipients)
                    && (r, account.State()) == SendSpec(account.address, old(account.State()),
                                                        LegacyGroupMessage(builder, Base64.Decode(id).value, found.value),
                                                        Some(recipients), ownProfileKey, transport)))
  {
    if recipientGroupId.Some? && recipientAddress.None? {
      var id := recipientGroupId.value;
      if |id| == LEGACY_ID_LENGTH {
        id := migratedGroupId(id);
      }
      if |id| == V2_ID_LENGTH {
        if id !in account.groupsV2 {
          return Err(GroupNotFound);
        }
        r := SendGroupV2Message(account, builder, account.groupsV2[id], ownProfileKey, transport);
      } else {
        var groupId := Base64.Decode(id);
        if groupId.None? {
          return Err(MalformedGroupId);
        }
        ghost var recipients;
        r, recipients := SendGroupMessage(account, builder, groupId, ownProfileKey, transport);
      }
    } else if recipientAddress.Some? && recipientGroupId.None? {
      r := SendMessage(account, builder, Some([recipientAddress.value]), ownProfileKey, transport);
    } else {
      r := Err(InvalidRecipient);
    }
  }

  /** An unidentified-access pair; this account never has one to offer. */
  datatype UnidentifiedAccessPair = UnidentifiedAccessPair(targetKey: Bytes, selfKey: Bytes)

  /** `getAccessFor` of one recipient: absent. */
  function AccessFor(recipient: Address): (access: Option<UnidentifiedAccessPair>)
    ensures access.None?
  {
    None
  }

  /** `getAccessFor` of a list: one absent entry per recipient. */
  method GetAccessFor(recipients: seq<Address>) returns (access: seq<Option<UnidentifiedAccessPair>>)
    ensures |access| == |recipients|
    ensures forall i :: 0 <= i < |access| ==> access[i] == AccessFor(recipients[i])
  {
    access := [];
    for i := 0 to |recipients|
      invariant |access| == i
      invariant forall j :: 0 <= j < i ==> access[j].None?
    {
      access := access + [None];
    }
  }
}
