/**
 * The legacy (version 1) group store of an account (`GroupStore`): groups by
 * the Base64 text of their id, and the JSON form `{"groups": [...]}` the
 * account file keeps them in.
 */
module GroupStore {
  import opened Wrappers
  import opened JavaTypes
  import opened SignalTypes
  import Base64

  /** A legacy group (`GroupInfo`): id, optional name, members, legacy avatar id, expiration timer. */
  datatype GroupInfo = GroupInfo(
    groupId: Bytes,
    name: Option<JString>,
    members: set<Address>,
    avatarId: int,
    messageExpirationTime: int32)

  type GroupMap = map<string, GroupInfo>

  /** Every group is stored under the Base64 text of its own id. */
  predicate KeyedById(groups: GroupMap)
  {
    forall k :: k in groups ==> k == Base64.Encode(groups[k].groupId)
  }

  /** What `getGroup` looks up: the entry under the Base64 text of `groupId`, or null. */
  function Find(groups: GroupMap, groupId: Bytes): Option<GroupInfo>
  {
    var key := Base64.Encode(groupId);
    if key in groups then Some(groups[key]) else None
  }

  /** In a store keyed by id, a lookup finds the group with that id, and finds nothing when there is none. */
  lemma FindById(groups: GroupMap, groupId: Bytes)
    requires KeyedById(groups)
    ensures Find(groups, groupId).Some? ==> Find(groups, groupId).value.groupId == groupId
    ensures Find(groups, groupId).None? <==> forall k :: k in groups ==> groups[k].groupId != groupId
  {
    var f := Find(groups, groupId);
    if f.Some? {
      Base64.EncodeInjective(f.value.groupId, groupId);
    }
  }

  /** Storing `g` makes it what its id finds, and leaves what every other id finds unchanged. */
  lemma FindAfterUpdate(groups: GroupMap, g: GroupInfo, groupId: Bytes)
    ensures KeyedById(groups) ==> KeyedById(groups[Base64.Encode(g.groupId) := g])
    ensures Find(groups[Base64.Encode(g.groupId) := g], g.groupId) == Some(g)
    ensures groupId != g.groupId ==> Find(groups[Base64.Encode(g.groupId) := g], groupId) == Find(groups, groupId)
  {
    if groupId != g.groupId {
      Base64.EncodeInjective(groupId, g.groupId);
    }
  }

  /**
   * The map the deserializer builds from the array of groups, in order: each
   * group under the Base64 text of its id, a later group replacing an earlier
   * one with the same id.
   */
  function FromGroups(items: seq<GroupInfo>): (groups: GroupMap)
    ensures KeyedById(groups)
  {
    if items == [] then map[]
    else
      var g := items[|items| - 1];
      FromGroups(items[..|items| - 1])[Base64.Encode(g.groupId) := g]
  }

  /** The groups the deserializer appends to the legacy-avatar list: those whose avatar id is not 0, in order. */
  function WithLegacyAvatar(items: seq<GroupInfo>): (r: seq<GroupInfo>)
    ensures forall g :: g in r <==> g in items && g.avatarId != 0
  {
    if items == [] then []
    else
      var g := items[|items| - 1];
      WithLegacyAvatar(items[..|items| - 1]) + (if g.avatarId != 0 then [g] else [])
  }

  /** After reading `items`, an id finds a group exactly when some item has that id. */
  lemma {:induction false} FromGroupsFinds(items: seq<GroupInfo>, groupId: Bytes)
    ensures Find(FromGroups(items), groupId).Some? <==> exists i :: 0 <= i < |items| && items[i].groupId == groupId
  {
    if items != [] {
      var init, g := items[..|items| - 1], items[|items| - 1];
      FromGroupsFinds(init, groupId);
      FindAfterUpdate(FromGroups(init), g, groupId);
      assert forall i :: 0 <= i < |init| ==> init[i] == items[i];
      if g.groupId == groupId {
        assert items[|items| - 1].groupId == groupId;
      }
    }
  }

  /** `items[i]` has id `groupId` and no later item has it. */
  predicate IsLastWithId(items: seq<GroupInfo>, i: int, groupId: Bytes)
  {
    && 0 <= i < |items| && items[i].groupId == groupId
    && forall j :: i < j < |items| ==> items[j].groupId != groupId
  }

  /** What an id finds after reading `items` is the last item with that id: later entries win. */
  lemma {:induction false} FromGroupsFindsLast(items: seq<GroupInfo>, groupId: Bytes)
    requires Find(FromGroups(items), groupId).Some?
    ensures exists i :: IsLastWithId(items, i, groupId) && items[i] == Find(FromGroups(items), groupId).value
  {
    var init, g := items[..|items| - 1], items[|items| - 1];
    var before := FromGroups(init);
    assert FromGroups(items) == before[Base64.Encode(g.groupId) := g];
    var found := Find(FromGroups(items), groupId).value;
    FindAfterUpdate(before, g, groupId);
    if g.groupId == groupId {
      assert IsLastWithId(items, |items| - 1, groupId);
    } else {
      FromGroupsFindsLast(init, groupId);
      var i :| IsLastWithId(init, i, groupId) && init[i] == found;
      LastWithIdExtends(init, g, i, groupId);
      assert items == init + [g];
    }
  }

  lemma LastWithIdExtends(init: seq<GroupInfo>, g: GroupInfo, i: int, groupId: Bytes)
    requires IsLastWithId(init, i, groupId) && g.groupId != groupId
    ensures IsLastWithId(init + [g], i, groupId) && (init + [g])[i] == init[i]
  {
  }

  /** `vs` lists the values of `groups` in some order, one per stored id. */
  predicate ListsValues(vs: seq<GroupInfo>, groups: GroupMap)
  {
    && |vs| == |groups|
    && (forall i :: 0 <= i < |vs| ==> Base64.Encode(vs[i].groupId) in groups && groups[Base64.Encode(vs[i].groupId)] == vs[i])
    && (forall i, j :: 0 <= i < j < |vs| ==> vs[i].groupId != vs[j].groupId)
  }

  /** Reading back the serializer's list of groups restores the same map, whatever order it was written in. */
  lemma {:induction false} FromGroupsListed(vs: seq<GroupInfo>, groups: GroupMap)
    requires KeyedById(groups) && ListsValues(vs, groups)
    ensures FromGroups(vs) == groups
  {
    if vs != [] {
      var init, g := vs[..|vs| - 1], vs[|vs| - 1];
      var key := Base64.Encode(g.groupId);
      var rest := groups - {key};
      assert forall i :: 0 <= i < |init| ==> init[i] == vs[i];
      forall i | 0 <= i < |init|
        ensures Base64.Encode(init[i].groupId) != key
      {
        Base64.EncodeInjective(init[i].groupId, g.groupId);
      }
      assert ListsValues(init, rest) by {
        assert |rest| == |groups| - 1;
      }
      FromGroupsListed(init, rest);
      assert FromGroups(vs) == rest[key := g];
    }
  }

  /** The JSON object the store is written as: a `groups` array, or no such field. */
  datatype StoreNode = StoreNode(groups: Option<seq<GroupInfo>>)

  /** What the deserializer yields: nothing without a `groups` field, else the groups it lists. */
  function FromJson(node: StoreNode): (groups: GroupMap)
    ensures node.groups.None? ==> groups == map[]
  {
    match node.groups
    case None => map[]
    case Some(items) => FromGroups(items)
  }

  /** The static `groupsWithLegacyAvatarId` list, shared by every store read. */
  class LegacyAvatarRegistry {
    var groups: seq<GroupInfo>

    constructor()
      ensures groups == []
    {
      groups := [];
    }
  }

  class GroupStore {
    var groups: GroupMap

    ghost predicate Valid()
      reads this
    {
      KeyedById(groups)
    }

    constructor()
      ensures Valid() && groups == map[]
    {
      groups := map[];
    }

    /** `updateGroup`: `group` under its id, replacing any group with the same id; other ids untouched. */
    method UpdateGroup(group: GroupInfo)
      requires Valid()
      modifies this
      ensures Valid() && groups == old(groups)[Base64.Encode(group.groupId) := group]
    {
      FindAfterUpdate(groups, group, group.groupId);
      groups := groups[Base64.Encode(group.groupId) := group];
    }

    /** `getGroup`: the group with id `groupId`, or null when none is stored. */
    method GetGroup(groupId: Bytes) returns (g: Option<GroupInfo>)
      requires Valid()
      ensures g == Find(groups, groupId)
      ensures g.Some? ==> g.value.groupId == groupId && g.value in groups.Values
      ensures g.None? <==> forall k :: k in groups ==> groups[k].groupId != groupId
    {
      FindById(groups, groupId);
      var key := Base64.Encode(groupId);
      if key in groups {
        g := Some(groups[key]);
      } else {
        g := None;
      }
    }

    /** `getGroups`: a fresh list holding each stored group once, in the map's (unspecified) order. */
    method GetGroups() returns (vs: seq<GroupInfo>)
      requires Valid()
      ensures ListsValues(vs, groups)
      ensures forall g :: g in vs <==> g in groups.Values
    {
      vs := [];
      var pending := groups.Keys;
      while pending != {}
        invariant pending <= groups.Keys
        invariant |vs| + |pending| == |groups|
        invariant forall i :: 0 <= i < |vs| ==> Base64.Encode(vs[i].groupId) in groups - pending
                                                && groups[Base64.Encode(vs[i].groupId)] == vs[i]
        invariant forall k :: k in groups && k !in pending ==> groups[k] in vs
        invariant forall i, j :: 0 <= i < j < |vs| ==> vs[i].groupId != vs[j].groupId
        decreases pending
      {
        var key :| key in pending;
        var g := groups[key];
        forall i | 0 <= i < |vs|
          ensures vs[i].groupId != g.groupId
        {
          Base64.EncodeInjective(vs[i].groupId, g.groupId);
        }
        vs := vs + [g];
        pending := pending - {key};
      }
      assert |groups.Keys| == |groups|;
    }

    /** The serializer: every stored group under `groups`. */
    method Serialize() returns (node: StoreNode)
      requires Valid()
      ensures node.groups.Some? && ListsValues(node.groups.value, groups)
      ensures FromJson(node) == groups
    {
      var vs := GetGroups();
      FromGroupsListed(vs, groups);
      node := StoreNode(Some(vs));
    }
  }

  /** The loop of the deserializer over the `groups` array: the groups put by id, and the legacy-avatar ones. */
  method ReadGroups(items: seq<GroupInfo>) returns (groups: GroupMap, legacy: seq<GroupInfo>)
    ensures groups == FromGroups(items) && legacy == WithLegacyAvatar(items)
  {
    groups, legacy := map[], [];
    var i := 0;
    while i < |items|
      invariant 0 <= i <= |items|
      invariant groups == FromGroups(items[..i]) && legacy == WithLegacyAvatar(items[..i])
    {
      assert items[..i + 1][..i] == items[..i];
      var g := items[i];
      if g.avatarId != 0 {
        legacy := legacy + [g];
      }
      groups := groups[Base64.Encode(g.groupId) := g];
      i := i + 1;
    }
    assert items[..|items|] == items;
  }

  /**
   * The deserializer: a fresh store holding what the node lists, and every
   * listed group with a legacy avatar id appended to the shared registry.
   */
  method Deserialize(node: StoreNode, registry: LegacyAvatarRegistry) returns (store: GroupStore)
    modifies registry
    ensures fresh(store) && store.Valid() && store.groups == FromJson(node)
    ensures registry.groups == old(registry.groups) + (if node.groups.Some? then WithLegacyAvatar(node.groups.value) else [])
  {
    store := new GroupStore();
    if node.groups.None? {
      return;
    }
    var groups, legacy := ReadGroups(node.groups.value);
    registry.groups := registry.groups + legacy;
    store.groups := groups;
  }
}
