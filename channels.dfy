/** The channel registry: channel records keyed by id, who may see them, and the
    owner-only and self-service operations that change them. Each request is one
    chain of guards (404, 403, 400) followed by one mutation of one record. */
module Channels {
  import opened Common

  /** A stored channel. `name` and `description` are kept as they were sent, so an
      absent value stays absent (JavaScript `undefined`). */
  datatype Channel = Channel(
    id: ChannelId,
    name: Option<string>,
    description: Option<string>,
    owner: UserId,
    isPrivate: bool,
    members: seq<UserId>)

  /** The body of an update request; `None` is a field the request left out. */
  datatype ChannelPatch = ChannelPatch(
    name: Option<string>,
    description: Option<string>,
    isPrivate: Option<bool>)

  /** The channel collection. */
  type Store = map<ChannelId, Channel>

  /** JavaScript truthiness of an optional string: absent and "" are both falsy. */
  predicate Truthy(s: Option<string>) {
    s.Some? && s.value != ""
  }

  /** The record invariant: the owner is a member and nobody is listed twice. */
  predicate WellFormed(c: Channel) {
    c.owner in c.members && NoDuplicates(c.members)
  }

  /** Every stored record sits under its own id and is well formed. */
  predicate StoreInvariant(channels: Store) {
    forall k :: k in channels ==> channels[k].id == k && WellFormed(channels[k])
  }

  /** Who may see a channel, read its messages and post to it: anyone when it is
      public, only its members when it is private. */
  predicate VisibleTo(c: Channel, user: UserId) {
    !c.isPrivate || user in c.members
  }

  /** `members` with every entry equal to `user` filtered out. */
  function Without(members: seq<UserId>, user: UserId): seq<UserId> {
    Filter(members, m => m != user)
  }

  /** createChannel: the caller becomes the owner and the only member. */
  function NewChannel(id: ChannelId, caller: UserId, name: Option<string>,
                      description: Option<string>, isPrivate: bool): (c: Channel)
    ensures c.id == id && c.owner == caller && c.members == [caller]
    ensures c.name == name && c.description == description && c.isPrivate == isPrivate
    ensures WellFormed(c) && VisibleTo(c, caller)
  {
    Channel(id, name, description, caller, isPrivate, [caller])
  }

  /** getChannels: exactly the channels that are public or list the caller. */
  function ListVisible(channels: Store, caller: UserId): (r: Store)
    ensures forall k :: k in r <==> k in channels && (!channels[k].isPrivate || caller in channels[k].members)
    ensures forall k :: k in r ==> r[k] == channels[k]
  {
    map k | k in channels && VisibleTo(channels[k], caller) :: channels[k]
  }

  /** getChannelById: 404 when absent, 403 when private and the caller is not a
      member, otherwise the stored record unchanged. The message controller uses
      the same decision before posting or listing. */
  function GetById(channels: Store, id: ChannelId, caller: UserId): (r: Result<Channel>)
    ensures r == Err(NotFound) <==> id !in channels
    ensures r == Err(Forbidden) <==> id in channels && channels[id].isPrivate && caller !in channels[id].members
    ensures r.Ok? ==> id in channels && r.value == channels[id]
    ensures r.Ok? <==> id in ListVisible(channels, caller)
  {
    if id !in channels then Err(NotFound)
    else if !VisibleTo(channels[id], caller) then Err(Forbidden)
    else Ok(channels[id])
  }

  /** updateChannel: 404, then 403 unless the caller owns the channel; a name or
      description is replaced only by a truthy value, the flag only by a present
      one; owner and members are never touched. */
  function Updated(channels: Store, id: ChannelId, caller: UserId, patch: ChannelPatch): (r: Result<Channel>)
    ensures id !in channels ==> r == Err(NotFound)
    ensures id in channels && channels[id].owner != caller ==> r == Err(Forbidden)
    ensures id in channels && channels[id].owner == caller ==> r.Ok?
    ensures r.Ok? ==>
      var (was, now) := (channels[id], r.value);
      && now.id == was.id && now.owner == was.owner && now.members == was.members
      && (Truthy(patch.name) ==> now.name == patch.name)
      && (!Truthy(patch.name) ==> now.name == was.name)
      && (Truthy(patch.description) ==> now.description == patch.description)
      && (!Truthy(patch.description) ==> now.description == was.description)
      && (patch.isPrivate.Some? ==> now.isPrivate == patch.isPrivate.value)
      && (patch.isPrivate.None? ==> now.isPrivate == was.isPrivate)
      && (WellFormed(was) ==> WellFormed(now))
  {
    if id !in channels then Err(NotFound)
    else
      var c := channels[id];
      if c.owner != caller then Err(Forbidden)
      else Ok(c.(name := if Truthy(patch.name) then patch.name else c.name,
                 description := if Truthy(patch.description) then patch.description else c.description,
                 isPrivate := if patch.isPrivate.Some? then patch.isPrivate.value else c.isPrivate))
  }

  /** deleteChannel: 404, then 403 unless the caller owns the channel; on success
      the collection without that one record. */
  function Deleted(channels: Store, id: ChannelId, caller: UserId): (r: Result<Store>)
    ensures id !in channels ==> r == Err(NotFound)
    ensures id in channels && channels[id].owner != caller ==> r == Err(Forbidden)
    ensures id in channels && channels[id].owner == caller ==> r.Ok?
    ensures r.Ok? ==> r.value.Keys == channels.Keys - {id}
    ensures r.Ok? ==> forall k :: k in r.value ==> r.value[k] == channels[k]
    ensures r.Ok? && StoreInvariant(channels) ==> StoreInvariant(r.value)
  {
    if id !in channels then Err(NotFound)
    else if channels[id].owner != caller then Err(Forbidden)
    else Ok(channels - {id})
  }

  /** joinChannel: 404, then 403 for any private channel, then 400 when the caller
      is already a member; otherwise the caller is appended once. */
  function Joined(channels: Store, id: ChannelId, caller: UserId): (r: Result<Channel>)
    ensures id !in channels ==> r == Err(NotFound)
    ensures id in channels && channels[id].isPrivate ==> r == Err(Forbidden)
    ensures id in channels && !channels[id].isPrivate && caller in channels[id].members ==> r == Err(BadRequest)
    ensures id in channels && !channels[id].isPrivate && caller !in channels[id].members ==> r.Ok?
    ensures r.Ok? ==>
      var (was, now) := (channels[id], r.value);
      && now == was.(members := now.members)
      && |now.members| == |was.members| + 1
      && now.members[..|was.members|] == was.members
      && multiset(now.members) == multiset(was.members) + multiset{caller}
      && (WellFormed(was) ==> WellFormed(now))
  {
    if id !in channels then Err(NotFound)
    else
      var c := channels[id];
      if c.isPrivate then Err(Forbidden)
      else if caller in c.members then Err(BadRequest)
      else Ok(c.(members := c.members + [caller]))
  }

  /** leaveChannel: 404, then 400 for the owner, then 400 for a non-member;
      otherwise every entry of the caller is removed and every other member kept. */
  function Left(channels: Store, id: ChannelId, caller: UserId): (r: Result<Channel>)
    ensures id !in channels ==> r == Err(NotFound)
    ensures id in channels && channels[id].owner == caller ==> r == Err(BadRequest)
    ensures id in channels && channels[id].owner != caller && caller !in channels[id].members ==> r == Err(BadRequest)
    ensures id in channels && channels[id].owner != caller && caller in channels[id].members ==> r.Ok?
    ensures r.Ok? ==>
      var (was, now) := (channels[id], r.value);
      && now == was.(members := now.members)
      && caller !in now.members
      && multiset(now.members) == multiset(was.members)[caller := 0]
      && (WellFormed(was) ==> WellFormed(now))
  {
    if id !in channels then Err(NotFound)
    else
      var c := channels[id];
      if c.owner == caller then Err(BadRequest)
      else if caller !in c.members then Err(BadRequest)
      else
        var now := c.(members := Without(c.members, caller));
        assert WellFormed(c) ==> WellFormed(now) by {
          if WellFormed(c) { FilterKeepsNoDuplicates(c.members, m => m != caller); }
        }
        Ok(now)
  }

  /** A private channel is neither listed to nor readable by a non-member. */
  lemma PrivateChannelHidden(channels: Store, id: ChannelId, user: UserId)
    requires id in channels && channels[id].isPrivate && user !in channels[id].members
    ensures id !in ListVisible(channels, user)
    ensures GetById(channels, id, user) == Err(Forbidden)
    ensures Joined(channels, id, user) == Err(Forbidden)
  {
  }

  /** Joining twice never lists a member twice: the second join is refused with 400. */
  lemma SecondJoinRefused(channels: Store, id: ChannelId, user: UserId)
    requires Joined(channels, id, user).Ok?
    ensures Joined(channels[id := Joined(channels, id, user).value], id, user) == Err(BadRequest)
  {
  }

  /** After a successful join the caller is listed exactly once. */
  lemma JoinListsCallerOnce(channels: Store, id: ChannelId, user: UserId)
    requires StoreInvariant(channels) && Joined(channels, id, user).Ok?
    ensures multiset(Joined(channels, id, user).value.members)[user] == 1
  {
  }

  /** Leaving and joining again restores the same set of members. */
  lemma {:induction false} LeaveThenJoinRestoresMembers(channels: Store, id: ChannelId, user: UserId)
    requires StoreInvariant(channels) && Left(channels, id, user).Ok?
    requires !channels[id].isPrivate
    ensures
      var after := channels[id := Left(channels, id, user).value];
      Joined(after, id, user).Ok? &&
      multiset(Joined(after, id, user).value.members) == multiset(channels[id].members)
  {
    var was := channels[id];
    var left := Left(channels, id, user).value;
    var after := channels[id := left];
    MultiplicityOfMember(was.members, user);
    assert user !in left.members;
    var back := Joined(after, id, user).value;
    assert multiset(back.members) == multiset(left.members) + multiset{user};
    assert multiset(left.members) == multiset(was.members)[user := 0];
  }

  /** A member listed in a duplicate-free list appears exactly once. */
  lemma {:induction false} MultiplicityOfMember(s: seq<UserId>, x: UserId)
    requires NoDuplicates(s) && x in s
    ensures multiset(s)[x] == 1
  {
    var i :| 0 <= i < |s| && s[i] == x;
    assert s == s[..i] + [x] + s[i + 1..];
    assert x !in s[..i] by {
      forall k | 0 <= k < i ensures s[..i][k] != x { assert s[..i][k] == s[k]; }
    }
    var after := s[i + 1..];
    assert x !in after by {
      forall k | 0 <= k < |after| ensures after[k] != x { assert after[k] == s[i + 1 + k]; }
    }
  }

  /** The channel collection as the backend keeps it. */
  class ChannelStore {
    var channels: Store
    /** The id the next created channel receives; every stored id is below it. */
    var nextId: ChannelId

    ghost predicate Valid()
      reads this
    {
      StoreInvariant(channels) && forall k :: k in channels ==> k < nextId
    }

    constructor ()
      ensures Valid() && channels == map[]
    {
      channels := map[];
      nextId := 0;
    }

    /** createChannel. */
    method Create(caller: UserId, name: Option<string>, description: Option<string>, isPrivate: bool)
      returns (c: Channel)
      requires Valid()
      modifies this
      ensures Valid()
      ensures c == NewChannel(old(nextId), caller, name, description, isPrivate)
      ensures c.id !in old(channels)
      ensures channels == old(channels)[c.id := c]
      ensures nextId == old(nextId) + 1
    {
      c := Channel(nextId, name, description, caller, isPrivate, [caller]);
      channels := channels[c.id := c];
      nextId := nextId + 1;
    }

    /** updateChannel. */
    method Update(caller: UserId, id: ChannelId, patch: ChannelPatch) returns (r: Result<Channel>)
      requires Valid()
      modifies this
      ensures Valid()
      ensures r == Updated(old(channels), id, caller, patch)
      ensures channels == if r.Ok? then old(channels)[id := r.value] else old(channels)
      ensures nextId == old(nextId)
    {
      if id !in channels {
        return Err(NotFound);
      }
      var c := channels[id];
      if c.owner != caller {
        return Err(Forbidden);
      }
      if Truthy(patch.name) {
        c := c.(name := patch.name);
      }
      if Truthy(patch.description) {
        c := c.(description := patch.description);
      }
      if patch.isPrivate.Some? {
        c := c.(isPrivate := patch.isPrivate.value);
      }
      channels := channels[id := c];
      r := Ok(c);
    }

    /** deleteChannel. Messages of the channel are left in place. */
    method Delete(caller: UserId, id: ChannelId) returns (o: Outcome)
      requires Valid()
      modifies this
      ensures Valid()
      ensures o == OutcomeOf(Deleted(old(channels), id, caller))
      ensures channels == if o.Pass? then Deleted(old(channels), id, caller).value else old(channels)
      ensures nextId == old(nextId)
    {
      if id !in channels {
        return Fail(NotFound);
      }
      if channels[id].owner != caller {
        return Fail(Forbidden);
      }
      channels := channels - {id};
      o := Pass;
    }

    /** joinChannel. */
    method Join(caller: UserId, id: ChannelId) returns (o: Outcome)
      requires Valid()
      modifies this
      ensures Valid()
      ensures o == OutcomeOf(Joined(old(channels), id, caller))
      ensures channels == if o.Pass? then old(channels)[id := Joined(old(channels), id, caller).value] else old(channels)
      ensures nextId == old(nextId)
    {
      if id !in channels {
        return Fail(NotFound);
      }
      var c := channels[id];
      if c.isPrivate {
        return Fail(Forbidden);
      }
      if caller in c.members {
        return Fail(BadRequest);
      }
      channels := channels[id := c.(members := c.members + [caller])];
      o := Pass;
    }

    /** leaveChannel. */
    method Leave(caller: UserId, id: ChannelId) returns (o: Outcome)
      requires Valid()
      modifies this
      ensures Valid()
      ensures o == OutcomeOf(Left(old(channels), id, caller))
      ensures channels == if o.Pass? then old(channels)[id := Left(old(channels), id, caller).value] else old(channels)
      ensures nextId == old(nextId)
    {
      if id !in channels {
        return Fail(NotFound);
      }
      var c := channels[id];
      if c.owner == caller {
        return Fail(BadRequest);
      }
      if caller !in c.members {
        return Fail(BadRequest);
      }
      var now := c.(members := Without(c.members, caller));
      assert WellFormed(now) by { FilterKeepsNoDuplicates(c.members, m => m != caller); }
      channels := channels[id := now];
      o := Pass;
    }
  }
}
