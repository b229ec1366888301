/**
 * The snapshots a linked device sends in a sync message (`Manager.handleMessage`):
 * the groups attachment, whose groups are stored one by one, and the
 * contacts attachment, whose entries update contact timers and profile
 * keys, replacing the whole contact list when it is complete.
 */
module ManagerSync {
  import opened Wrappers
  import opened JavaTypes
  import opened SignalTypes
  import opened Account
  import GroupStore

  // ---------------------------------------------------------------------------
  // The groups attachment

  /** The group map after `updateGroup` of each group read, in order. */
  function IngestGroups(groups: GroupStore.GroupMap, gs: seq<GroupStore.GroupInfo>): GroupStore.GroupMap
    decreases |gs|
  {
    if gs == [] then groups
    else StoreGroup(IngestGroups(groups, gs[..|gs| - 1]), gs[|gs| - 1])
  }

  /** The groups snapshot keeps the store keyed by id. */
  lemma {:induction false} IngestGroupsKeyed(groups: GroupStore.GroupMap, gs: seq<GroupStore.GroupInfo>)
    requires GroupStore.KeyedById(groups)
    ensures GroupStore.KeyedById(IngestGroups(groups, gs))
    decreases |gs|
  {
    if gs != [] {
      var prev := IngestGroups(groups, gs[..|gs| - 1]);
      IngestGroupsKeyed(groups, gs[..|gs| - 1]);
      GroupStore.FindAfterUpdate(prev, gs[|gs| - 1], gs[|gs| - 1].groupId);
    }
  }

  /** An id no group of the snapshot has finds what it found before. */
  lemma {:induction false} IngestGroupsUntouched(groups: GroupStore.GroupMap, gs: seq<GroupStore.GroupInfo>, groupId: Bytes)
    requires forall i :: 0 <= i < |gs| ==> gs[i].groupId != groupId
    ensures GroupStore.Find(IngestGroups(groups, gs), groupId) == GroupStore.Find(groups, groupId)
    decreases |gs|
  {
    if gs != [] {
      var init, g := gs[..|gs| - 1], gs[|gs| - 1];
      assert g.groupId != groupId;
      IngestGroupsUntouched(groups, init, groupId);
      GroupStore.FindAfterUpdate(IngestGroups(groups, init), g, groupId);
    }
  }

  /** An id the snapshot has finds the last group read with it. */
  lemma {:induction false} IngestGroupsLast(groups: GroupStore.GroupMap, gs: seq<GroupStore.GroupInfo>, i: int, groupId: Bytes)
    requires GroupStore.IsLastWithId(gs, i, groupId)
    ensures GroupStore.Find(IngestGroups(groups, gs), groupId) == Some(gs[i])
    decreases |gs|
  {
    var init, g := gs[..|gs| - 1], gs[|gs| - 1];
    GroupStore.FindAfterUpdate(IngestGroups(groups, init), g, groupId);
    if i < |gs| - 1 {
      assert GroupStore.IsLastWithId(init, i, groupId);
      IngestGroupsLast(groups, init, i, groupId);
    }
  }

  /** The groups attachment: each group read is stored with `updateGroup`. */
  method IngestGroupsSync(account: AccountData, gs: seq<GroupStore.GroupInfo>)
    requires account.Valid()
    modifies account.groupStore
    ensures account.Valid()
    ensures account.State() == old(account.State()).(groups := IngestGroups(old(account.groupStore.groups), gs))
  {
    for i := 0 to |gs|
      invariant account.Valid()
      invariant account.State() == old(account.State()).(groups := IngestGroups(old(account.groupStore.groups), gs[..i]))
    {
      assert gs[..i + 1][..i] == gs[..i];
      account.UpdateGroup(gs[i]);
    }
    assert gs[..|gs|] == gs;
  }

  // ---------------------------------------------------------------------------
  // The contacts attachment

  /**
   * One entry: `getContact`, `update` and `updateContact` keep the stored
   * timer (0 for a new contact) unless the entry carries one, and a profile
   * key the entry carries is stored.
   */
  function IngestContact(st: AccountState, c: DeviceContact): AccountState
  {
    var timer := if c.expirationTimer.Some? then c.expirationTimer.value else ExpirationOf(st.contacts, c.address);
    var updated := st.(contacts := st.contacts[c.address := timer]);
    if c.profileKey.Some? then updated.(profileKeys := updated.profileKeys[c.address := c.profileKey.value]) else updated
  }

  /** The entries, one after the other. */
  function IngestContacts(st: AccountState, cs: seq<DeviceContact>): AccountState
    decreases |cs|
  {
    if cs == [] then st else IngestContact(IngestContacts(st, cs[..|cs| - 1]), cs[|cs| - 1])
  }

  /** The contacts attachment: nothing when its stream cannot be opened; a complete list first clears the contacts. */
  function ContactsSync(st: AccountState, attachment: ContactsAttachment): AccountState
  {
    if !attachment.retrieved then st
    else IngestContacts(if attachment.complete then st.(contacts := map[]) else st, attachment.entries)
  }

  /** The profile key stored for `a`, if any. */
  function KeyOf(profileKeys: map<Address, Bytes>, a: Address): Option<Bytes>
  {
    if a in profileKeys then Some(profileKeys[a]) else None
  }

  /** `cs[i]` is the last entry for `a` that carries a timer. */
  predicate LastTimerFor(cs: seq<DeviceContact>, i: int, a: Address)
  {
    && 0 <= i < |cs| && cs[i].address == a && cs[i].expirationTimer.Some?
    && forall j :: i < j < |cs| && cs[j].address == a ==> cs[j].expirationTimer.None?
  }

  /** `cs[i]` is the last entry for `a` that carries a profile key. */
  predicate LastKeyFor(cs: seq<DeviceContact>, i: int, a: Address)
  {
    && 0 <= i < |cs| && cs[i].address == a && cs[i].profileKey.Some?
    && forall j :: i < j < |cs| && cs[j].address == a ==> cs[j].profileKey.None?
  }

  /** The entries change contacts and profile keys only. */
  lemma {:induction false} IngestContactsFrame(st: AccountState, cs: seq<DeviceContact>)
    ensures var after := IngestContacts(st, cs);
      after == st.(contacts := after.contacts, profileKeys := after.profileKeys)
    decreases |cs|
  {
    if cs != [] {
      IngestContactsFrame(st, cs[..|cs| - 1]);
    }
  }

  /** Some entry is for `a`. */
  predicate Names(cs: seq<DeviceContact>, a: Address)
  {
    exists c :: c in cs && c.address == a
  }

  lemma NamesSnoc(init: seq<DeviceContact>, c: DeviceContact, a: Address)
    ensures Names(init + [c], a) <==> Names(init, a) || c.address == a
  {
    assert c in init + [c];
    assert forall d :: d in init + [c] <==> d in init || d == c;
  }

  /** After the entries, `a` is a contact exactly when it was one or some entry names it. */
  lemma {:induction false} IngestContactsNamed(st: AccountState, cs: seq<DeviceContact>, a: Address)
    ensures a in IngestContacts(st, cs).contacts <==> a in st.contacts || Names(cs, a)
    decreases |cs|
  {
    if cs != [] {
      var init, c := cs[..|cs| - 1], cs[|cs| - 1];
      IngestContactsNamed(st, init, a);
      assert cs == init + [c];
      NamesSnoc(init, c, a);
    }
  }

  /** The timer of `a` is unchanged when no entry for it carries one. */
  lemma {:induction false} IngestContactsUntimed(st: AccountState, cs: seq<DeviceContact>, a: Address)
    requires forall i :: 0 <= i < |cs| && cs[i].address == a ==> cs[i].expirationTimer.None?
    ensures ExpirationOf(IngestContacts(st, cs).contacts, a) == ExpirationOf(st.contacts, a)
    decreases |cs|
  {
    if cs != [] {
      var init := cs[..|cs| - 1];
      assert forall i :: 0 <= i < |init| ==> init[i] == cs[i];
      IngestContactsUntimed(st, init, a);
    }
  }

  /** The timer of `a` is that of its last entry with a timer. */
  lemma {:induction false} IngestContactsLastTimer(st: AccountState, cs: seq<DeviceContact>, i: int, a: Address)
    requires LastTimerFor(cs, i, a)
    ensures ExpirationOf(IngestContacts(st, cs).contacts, a) == cs[i].expirationTimer.value
    decreases |cs|
  {
    var init := cs[..|cs| - 1];
    if i < |cs| - 1 {
      assert LastTimerFor(init, i, a);
      IngestContactsLastTimer(st, init, i, a);
    }
  }

  /** The profile key of `a` is unchanged when no entry for it carries one. */
  lemma {:induction false} IngestContactsUnkeyed(st: AccountState, cs: seq<DeviceContact>, a: Address)
    requires forall i :: 0 <= i < |cs| && cs[i].address == a ==> cs[i].profileKey.None?
    ensures KeyOf(IngestContacts(st, cs).profileKeys, a) == KeyOf(st.profileKeys, a)
    decreases |cs|
  {
    if cs != [] {
      var init := cs[..|cs| - 1];
      assert forall i :: 0 <= i < |init| ==> init[i] == cs[i];
      IngestContactsUnkeyed(st, init, a);
    }
  }

  /** The profile key of `a` is that of its last entry with a key. */
  lemma {:induction false} IngestContactsLastKey(st: AccountState, cs: seq<DeviceContact>, i: int, a: Address)
    requires LastKeyFor(cs, i, a)
    ensures KeyOf(IngestContacts(st, cs).profileKeys, a) == cs[i].profileKey
    decreases |cs|
  {
    var init := cs[..|cs| - 1];
    if i < |cs| - 1 {
      assert LastKeyFor(init, i, a);
      IngestContactsLastKey(st, init, i, a);
    }
  }

  /**
   * The contacts snapshot. An attachment that cannot be opened changes
   * nothing. A complete one leaves exactly the contacts its entries name,
   * each with the timer of its last entry with one, else 0; an incomplete
   * one adds its contacts to the others, which keep their timers. A
   * profile key is that of the last entry with one, or the stored one.
   */
  lemma ContactsSyncEffect(st: AccountState, attachment: ContactsAttachment, a: Address)
    ensures var after := ContactsSync(st, attachment);
      var cs := attachment.entries;
      var named := Names(cs, a);
      var untimed := forall i :: 0 <= i < |cs| && cs[i].address == a ==> cs[i].expirationTimer.None?;
      && (!attachment.retrieved ==> after == st)
      && (attachment.retrieved ==>
            && after == st.(contacts := after.contacts, profileKeys := after.profileKeys)
            && (attachment.complete ==> (a in after.contacts <==> named))
            && (attachment.complete && untimed ==> ExpirationOf(after.contacts, a) == 0)
            && (!attachment.complete ==> (a in after.contacts <==> a in st.contacts || named))
            && (!attachment.complete && untimed ==> ExpirationOf(after.contacts, a) == ExpirationOf(st.contacts, a))
            && (forall i :: LastTimerFor(cs, i, a) ==> ExpirationOf(after.contacts, a) == cs[i].expirationTimer.value)
            && ((forall i :: 0 <= i < |cs| && cs[i].address == a ==> cs[i].profileKey.None?) ==>
                  KeyOf(after.profileKeys, a) == KeyOf(st.profileKeys, a))
            && (forall i :: LastKeyFor(cs, i, a) ==> KeyOf(after.profileKeys, a) == cs[i].profileKey))
  {
    if attachment.retrieved {
      var start, cs := if attachment.complete then st.(contacts := map[]) else st, attachment.entries;
      IngestContactsFrame(start, cs);
      IngestContactsNamed(start, cs, a);
      if forall i :: 0 <= i < |cs| && cs[i].address == a ==> cs[i].expirationTimer.None? {
        IngestContactsUntimed(start, cs, a);
      }
      forall i | LastTimerFor(cs, i, a)
        ensures ExpirationOf(ContactsSync(st, attachment).contacts, a) == cs[i].expirationTimer.value
      {
        IngestContactsLastTimer(start, cs, i, a);
      }
      if forall i :: 0 <= i < |cs| && cs[i].address == a ==> cs[i].profileKey.None? {
        IngestContactsUnkeyed(start, cs, a);
      }
      forall i | LastKeyFor(cs, i, a)
        ensures KeyOf(ContactsSync(st, attachment).profileKeys, a) == cs[i].profileKey
      {
        IngestContactsLastKey(start, cs, i, a);
      }
    }
  }

  /** The contacts attachment: `contactStore.clear()` for a complete list, then each entry in turn. */
  method IngestContactsSync(account: AccountData, attachment: ContactsAttachment)
    modifies account
    ensures account.State() == ContactsSync(old(account.State()), attachment)
  {
    if !attachment.retrieved {
      return;
    }
    if attachment.complete {
      account.ClearContacts();
    }
    var cs := attachment.entries;
    ghost var start := account.State();
    for i := 0 to |cs|
      invariant account.State() == IngestContacts(start, cs[..i])
    {
      var c := cs[i];
      var timer := if c.expirationTimer.Some? then c.expirationTimer.value else ExpirationOf(account.contacts, c.address);
      account.SetContactExpiration(c.address, timer);
      if c.profileKey.Some? {
        account.StoreProfileKey(c.address, c.profileKey.value);
      }
      assert cs[..i + 1][..i] == cs[..i];
    }
    assert cs[..|cs|] == cs;
  }
}
