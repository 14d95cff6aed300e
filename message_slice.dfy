/** The client's message state (the `message` slice): the list shown for the open
    channel, its pagination, and the loading and error flags, updated in place by
    synchronous reducers. */
module MessageSlice {
  import opened Common
  import opened Messages

  datatype Pagination = Pagination(page: nat, pages: nat, total: nat)

  /** The list after a fetched page arrives: page 1 replaces the list, any other
      page goes in front of what is already shown. */
  function AfterFetch(current: seq<Message>, reply: PageReply): (r: seq<Message>)
    ensures reply.page == 1 ==> r == reply.messages
    ensures reply.page != 1 ==> |r| == |reply.messages| + |current|
    ensures reply.page != 1 ==> r[..|reply.messages|] == reply.messages && r[|reply.messages|..] == current
  {
    if reply.page == 1 then reply.messages else reply.messages + current
  }

  /** The list a client holds after fetching page 1 and then pages 2, ..., n of a
      channel whose history is `h`, starting from any list `start`. */
  function ScrolledBack(start: seq<Message>, h: seq<Message>, n: nat, limit: nat): seq<Message>
    requires n >= 1 && limit >= 1
  {
    if n == 1 then AfterFetch(start, Reply(h, 1, limit))
    else AfterFetch(ScrolledBack(start, h, n - 1, limit), Reply(h, n, limit))
  }

  /** Scrolling back through n pages shows the pages oldest first, as one list. */
  lemma {:induction false} ScrolledBackIsAllPages(start: seq<Message>, h: seq<Message>, n: nat, limit: nat)
    requires n >= 1 && limit >= 1
    ensures ScrolledBack(start, h, n, limit) == AllPages(h, n, limit)
  {
    if n > 1 {
      ScrolledBackIsAllPages(start, h, n - 1, limit);
    }
  }

  /** Fetching every page in turn (page 1 alone when the channel has none) leaves
      the client showing the channel's whole history in chronological order, with
      nothing missing and nothing twice. */
  lemma ScrollingBackRebuildsHistory(start: seq<Message>, h: seq<Message>, limit: nat)
    requires limit >= 1
    ensures var pages := PageCount(|h|, limit);
      ScrolledBack(start, h, if pages == 0 then 1 else pages, limit) == h
  {
    var pages := PageCount(|h|, limit);
    if pages == 0 {
      ScrolledBackIsAllPages(start, h, 1, limit);
      AllPagesIsSuffix(h, 1, limit);
    } else {
      ScrolledBackIsAllPages(start, h, pages, limit);
      AllPagesRebuildHistory(h, limit);
    }
  }

  class MessageState {
    var messages: seq<Message>
    var isLoading: bool
    var isError: bool
    var errorMessage: string
    var pagination: Pagination

    /** The initial state. */
    constructor ()
      ensures messages == [] && !isLoading && !isError && errorMessage == ""
      ensures pagination == Pagination(1, 1, 0)
    {
      messages := [];
      isLoading := false;
      isError := false;
      errorMessage := "";
      pagination := Pagination(1, 1, 0);
    }

    /** addMessage: a message relayed in real time goes at the end, with no check
        for a message already shown under the same id. */
    method AddMessage(m: Message)
      modifies this
      ensures messages == old(messages) + [m]
      ensures isLoading == old(isLoading) && isError == old(isError)
      ensures errorMessage == old(errorMessage) && pagination == old(pagination)
    {
      messages := messages + [m];
    }

    /** resetMessages: an empty list and the initial pagination. */
    method ResetMessages()
      modifies this
      ensures messages == [] && pagination == Pagination(1, 1, 0)
      ensures isLoading == old(isLoading) && isError == old(isError) && errorMessage == old(errorMessage)
    {
      messages := [];
      pagination := Pagination(1, 1, 0);
    }

    /** resetMessageError: clears the error and nothing else. */
    method ResetMessageError()
      modifies this
      ensures !isError && errorMessage == ""
      ensures messages == old(messages) && isLoading == old(isLoading) && pagination == old(pagination)
    {
      isError := false;
      errorMessage := "";
    }

    /** The pending case of a fetch or a create: only the loading flag is set. */
    method Pending()
      modifies this
      ensures isLoading
      ensures messages == old(messages) && isError == old(isError)
      ensures errorMessage == old(errorMessage) && pagination == old(pagination)
    {
      isLoading := true;
    }

    /** The fulfilled case of a fetch: the page replaces or precedes the list and
        the pagination is taken from the reply. */
    method FetchFulfilled(reply: PageReply)
      modifies this
      ensures !isLoading
      ensures messages == AfterFetch(old(messages), reply)
      ensures pagination == Pagination(reply.page, reply.pages, reply.total)
      ensures isError == old(isError) && errorMessage == old(errorMessage)
    {
      isLoading := false;
      if reply.page == 1 {
        messages := reply.messages;
      } else {
        messages := reply.messages + messages;
      }
      pagination := Pagination(reply.page, reply.pages, reply.total);
    }

    /** The rejected case of a fetch or a create: the error is recorded. */
    method Rejected(payload: string)
      modifies this
      ensures !isLoading && isError && errorMessage == payload
      ensures messages == old(messages) && pagination == old(pagination)
    {
      isLoading := false;
      isError := true;
      errorMessage := payload;
    }

    /** The fulfilled case of a create: the stored message goes at the end. */
    method CreateFulfilled(m: Message)
      modifies this
      ensures !isLoading
      ensures messages == old(messages) + [m]
      ensures isError == old(isError) && errorMessage == old(errorMessage) && pagination == old(pagination)
    {
      isLoading := false;
      messages := messages + [m];
    }

    /** The fulfilled case of a delete: every message with that id is dropped, the
        rest keep their order; the flags are not touched. */
    method DeleteFulfilled(id: MessageId)
      modifies this
      ensures messages == WithoutMessage(old(messages), id)
      ensures isLoading == old(isLoading) && isError == old(isError)
      ensures errorMessage == old(errorMessage) && pagination == old(pagination)
    {
      messages := WithoutMessage(messages, id);
    }
  }

  /** Dropping a deleted message from a list made of several parts drops it from
      each part and keeps the parts in order. */
  lemma DeleteKeepsOrder(front: seq<Message>, back: seq<Message>, id: MessageId)
    ensures WithoutMessage(front + back, id) == WithoutMessage(front, id) + WithoutMessage(back, id)
  {
    FilterConcat(front, back, (m: Message) => m.id != id);
  }
}
