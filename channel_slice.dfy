/** The client's channel state (the `channel` slice): the channel list, the open
    channel, and the loading and error flags, updated in place by synchronous
    reducers. */
module ChannelSlice {
  import opened Common
  import opened Channels

  /** The list after an update arrives: every entry with the updated channel's id
      is replaced by it, every other entry stays where it was. */
  function ReplaceById(list: seq<Channel>, c: Channel): (r: seq<Channel>)
    ensures |r| == |list|
    ensures forall i :: 0 <= i < |list| ==> r[i].id == list[i].id
    ensures forall i :: 0 <= i < |list| ==> r[i] == (if list[i].id == c.id then c else list[i])
  {
    seq(|list|, i requires 0 <= i < |list| => if list[i].id == c.id then c else list[i])
  }

  /** The list after a delete arrives: the entries with that id are dropped and
      the others keep their order. */
  function WithoutChannel(list: seq<Channel>, id: ChannelId): (r: seq<Channel>)
    ensures forall c :: c in r <==> c in list && c.id != id
    ensures forall c :: c in list && c.id != id ==> multiset(r)[c] == multiset(list)[c]
  {
    Filter(list, (c: Channel) => c.id != id)
  }

  /** The open channel after an update arrives: replaced when it has the same id. */
  function CurrentAfterUpdate(current: Option<Channel>, c: Channel): (r: Option<Channel>)
    ensures r.Some? <==> current.Some?
    ensures current.Some? && current.value.id == c.id ==> r == Some(c)
    ensures current.Some? && current.value.id != c.id ==> r == current
  {
    if current.Some? && current.value.id == c.id then Some(c) else current
  }

  /** The open channel after a delete arrives: closed when it has that id. */
  function CurrentAfterDelete(current: Option<Channel>, id: ChannelId): (r: Option<Channel>)
    ensures r == None <==> current == None || current.value.id == id
    ensures r != None ==> r == current
  {
    if current.Some? && current.value.id == id then None else current
  }

  /** The open channel, when there is one, is an entry of the list. */
  predicate CurrentListed(list: seq<Channel>, current: Option<Channel>) {
    current.Some? ==> current.value in list
  }

  /** Update and delete replies keep the open channel in step with the list. */
  lemma ReducersKeepCurrentListed(list: seq<Channel>, current: Option<Channel>, c: Channel, id: ChannelId)
    requires CurrentListed(list, current)
    ensures CurrentListed(ReplaceById(list, c), CurrentAfterUpdate(current, c))
    ensures CurrentListed(WithoutChannel(list, id), CurrentAfterDelete(current, id))
    ensures CurrentListed(list + [c], current)
  {
    if current.Some? {
      var i :| 0 <= i < |list| && list[i] == current.value;
      assert ReplaceById(list, c)[i] == CurrentAfterUpdate(current, c).value;
    }
  }

  /** A delete that follows an update of the same channel leaves the same list as
      the delete alone. */
  lemma {:induction false} DeleteAfterUpdate(list: seq<Channel>, c: Channel)
    ensures WithoutChannel(ReplaceById(list, c), c.id) == WithoutChannel(list, c.id)
  {
    var keep := (x: Channel) => x.id != c.id;
    if list != [] {
      var r := ReplaceById(list, c);
      assert r == [r[0]] + r[1..] && list == [list[0]] + list[1..];
      assert r[1..] == ReplaceById(list[1..], c);
      FilterConcat([r[0]], r[1..], keep);
      FilterConcat([list[0]], list[1..], keep);
      DeleteAfterUpdate(list[1..], c);
    }
  }

  class ChannelState {
    var channels: seq<Channel>
    var currentChannel: Option<Channel>
    var isLoading: bool
    var isError: bool
    var errorMessage: string

    /** The initial state. */
    constructor ()
      ensures channels == [] && currentChannel == None
      ensures !isLoading && !isError && errorMessage == ""
    {
      channels := [];
      currentChannel := None;
      isLoading := false;
      isError := false;
      errorMessage := "";
    }

    /** setCurrentChannel: opens the given channel, or none. */
    method SetCurrentChannel(c: Option<Channel>)
      modifies this
      ensures currentChannel == c
      ensures channels == old(channels) && isLoading == old(isLoading)
      ensures isError == old(isError) && errorMessage == old(errorMessage)
    {
      currentChannel := c;
    }

    /** clearCurrentChannel: no channel is open. */
    method ClearCurrentChannel()
      modifies this
      ensures currentChannel == None
      ensures channels == old(channels) && isLoading == old(isLoading)
      ensures isError == old(isError) && errorMessage == old(errorMessage)
    {
      currentChannel := None;
    }

    /** resetChannelError: clears the error and nothing else. */
    method ResetChannelError()
      modifies this
      ensures !isError && errorMessage == ""
      ensures channels == old(channels) && currentChannel == old(currentChannel)
      ensures isLoading == old(isLoading)
    {
      isError := false;
      errorMessage := "";
    }

    /** The pending case of every channel request: only the loading flag is set. */
    method Pending()
      modifies this
      ensures isLoading
      ensures channels == old(channels) && currentChannel == old(currentChannel)
      ensures isError == old(isError) && errorMessage == old(errorMessage)
    {
      isLoading := true;
    }

    /** The rejected case of every channel request: the error is recorded. */
    method Rejected(payload: string)
      modifies this
      ensures !isLoading && isError && errorMessage == payload
      ensures channels == old(channels) && currentChannel == old(currentChannel)
    {
      isLoading := false;
      isError := true;
      errorMessage := payload;
    }

    /** The fulfilled case of the list request: the reply replaces the list. */
    method ListFulfilled(list: seq<Channel>)
      modifies this
      ensures !isLoading && channels == list
      ensures currentChannel == old(currentChannel)
      ensures isError == old(isError) && errorMessage == old(errorMessage)
    {
      isLoading := false;
      channels := list;
    }

    /** The fulfilled case of the single-channel request: it becomes the open one. */
    method GetFulfilled(c: Channel)
      modifies this
      ensures !isLoading && currentChannel == Some(c)
      ensures channels == old(channels)
      ensures isError == old(isError) && errorMessage == old(errorMessage)
    {
      isLoading := false;
      currentChannel := Some(c);
    }

    /** The fulfilled case of a create: the new channel goes at the end. */
    method CreateFulfilled(c: Channel)
      modifies this
      ensures !isLoading && channels == old(channels) + [c]
      ensures currentChannel == old(currentChannel)
      ensures isError == old(isError) && errorMessage == old(errorMessage)
    {
      isLoading := false;
      channels := channels + [c];
    }

    /** The fulfilled case of an update: the entries and the open channel with the
        same id are replaced. */
    method UpdateFulfilled(c: Channel)
      modifies this
      ensures !isLoading
      ensures channels == ReplaceById(old(channels), c)
      ensures currentChannel == CurrentAfterUpdate(old(currentChannel), c)
      ensures isError == old(isError) && errorMessage == old(errorMessage)
    {
      isLoading := false;
      var i := 0;
      var updated := [];
      while i < |channels|
        invariant 0 <= i <= |channels|
        invariant |updated| == i
        invariant forall k :: 0 <= k < i ==> updated[k] == (if channels[k].id == c.id then c else channels[k])
      {
        updated := updated + [if channels[i].id == c.id then c else channels[i]];
        i := i + 1;
      }
      channels := updated;
      if currentChannel.Some? && currentChannel.value.id == c.id {
        currentChannel := Some(c);
      }
    }

    /** The fulfilled case of a delete: the entries with that id are dropped, and
        the open channel is closed when it is the deleted one. */
    method DeleteFulfilled(id: ChannelId)
      modifies this
      ensures !isLoading
      ensures channels == WithoutChannel(old(channels), id)
      ensures currentChannel == CurrentAfterDelete(old(currentChannel), id)
      ensures isError == old(isError) && errorMessage == old(errorMessage)
    {
      isLoading := false;
      channels := WithoutChannel(channels, id);
      if currentChannel.Some? && currentChannel.value.id == id {
        currentChannel := None;
      }
    }

    /** The fulfilled case of a join or a leave: only the loading flag is cleared;
        the list shows the change after the next list request. */
    method MembershipFulfilled()
      modifies this
      ensures !isLoading
      ensures channels == old(channels) && currentChannel == old(currentChannel)
      ensures isError == old(isError) && errorMessage == old(errorMessage)
    {
      isLoading := false;
    }
  }
}
