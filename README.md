# Personal Chatroom: channels, messages and the client reducers in Dafny

This project models the core of a small chat application (an Express/Mongoose
backend with a React/Redux client) and proves properties of the model.

- **Channel registry** (`channels.dfy`, module `Channels`): channels keyed by
  id. Each has an owner, a private/public flag and a member list. The
  controller's seven operations are modelled: create, list the visible
  channels, get one, update, delete, join and leave. Each is a pure decision
  function (the chain of 404/403/400 guards and the record it produces). Next
  to each of the five mutating ones (all but list and get) is a method of the
  `ChannelStore` class that applies the decision to the stored map in place. The invariant every method keeps is that each
  channel's owner is a member and nobody is listed twice.
- **Message store** (`messages.dfy`, module `Messages`): messages are kept in
  insertion order. Ids come from a counter and creation times from a strictly
  increasing clock. The module models:
  - posting, with the same visibility rule as reading a channel;
  - the paginated listing: sort newest first, skip `(page - 1) * limit`, take
    `limit`, reverse back to chronological order, and `pages = ceil(total /
    limit)`;
  - the read marking that follows a listing;
  - deletion by the sender or by the channel's owner.

  The sort is proved to be the reversed history, because creation times are
  distinct. Pages are proved to be contiguous slices of the history. A later
  page is proved to hold only older messages, and the pages laid end to end
  rebuild the history exactly.
- **Client reducers** (`message_slice.dfy`, `channel_slice.dfy`): the Redux
  slices become classes whose fields are the slice state. Every reducer case is
  a method that says what its new state is, field by field. The list
  transformations are pure functions with their own properties:
  - prepending an older page;
  - replacing by id;
  - filtering by id;
  - closing the open channel.

  Fetching pages 1, 2, …, `pages` in turn is proved to leave the client holding
  the whole history in order. Update and delete replies are proved to keep the
  open channel among the listed channels.
- `common.dfy` (module `Common`) holds the ids, the failure statuses
  (400/403/404/500), `Result`/`Outcome`/`Option`, and JavaScript's `filter` with
  its lemmas.

The caller's identity is a parameter of every backend operation. The
authentication middleware that supplies it is not part of this model.

## Model

| member | source | states |
|---|---|---|
| Common.Filter | backend/controllers/channelController.js:179-181 | the kept elements are exactly those of the input satisfying the predicate, each as often as before; nothing is added, and a list whose every element passes is returned unchanged |
| Common.FilterConcat | frontend/src/redux/slices/messageSlice.js:131 | filtering distributes over concatenation, so the surviving elements keep their relative order |
| Common.FilterKeepsNoDuplicates | backend/controllers/channelController.js:179-181 | filtering a duplicate-free member list leaves it duplicate-free |
| Channels.NewChannel | backend/controllers/channelController.js:10-16 | a created channel has the caller as owner and as its only member, carries the given name, description and flag, is well formed and is visible to its creator |
| Channels.ListVisible | backend/controllers/channelController.js:34-39 | exactly the stored channels that are public or list the caller as a member, each unchanged |
| Channels.GetById | backend/controllers/channelController.js:53-66 | 404 exactly when the id is absent; 403 exactly when the channel is private and the caller is not a member; otherwise the stored record unchanged; success exactly when the channel is in the caller's visible list |
| Channels.Updated | backend/controllers/channelController.js:80-96 | 404, then 403 unless the caller owns it; name and description replaced only by a truthy value, so an empty string keeps the old one; the flag replaced only when given; id, owner and members untouched; owner-is-member preserved |
| Channels.Deleted | backend/controllers/channelController.js:108-120 | 404, then 403 unless the caller owns it; on success only that key is removed, every other record is unchanged, and the store invariant holds afterwards |
| Channels.Joined | backend/controllers/channelController.js:132-151 | guards in order: 404, 403 for any private channel, 400 for an existing member; otherwise the caller is appended once, the earlier members keep their order, nothing else changes, and well-formedness is kept |
| Channels.Left | backend/controllers/channelController.js:163-184 | guards in order: 404, 400 for the owner, 400 for a non-member; otherwise the caller no longer appears, every other member keeps its multiplicity, nothing else changes, and well-formedness is kept |
| Channels.PrivateChannelHidden | backend/controllers/channelController.js:34-60 | a private channel is not listed to, not readable by and not joinable by a non-member |
| Channels.SecondJoinRefused | backend/controllers/channelController.js:143-148 | repeating a successful join is refused with 400, so a join never lists anyone twice |
| Channels.JoinListsCallerOnce | backend/controllers/channelController.js:143-148 | after a successful join the caller appears exactly once in the member list |
| Channels.LeaveThenJoinRestoresMembers | backend/controllers/channelController.js:144-181 | on a public channel, leaving and then joining again succeeds and restores the same multiset of members |
| Channels.ChannelStore.Create | backend/controllers/channelController.js:6-27 | stores the new channel under a fresh id and leaves every other record unchanged; the store invariant (owner is a member, no duplicates, records under their own ids) is kept |
| Channels.ChannelStore.Update | backend/controllers/channelController.js:76-101 | answers with the update decision and stores the updated record only on success; invariant kept |
| Channels.ChannelStore.Delete | backend/controllers/channelController.js:106-125 | answers with the delete decision and removes the record only on success; invariant kept |
| Channels.ChannelStore.Join | backend/controllers/channelController.js:130-156 | answers with the join decision and stores the grown member list only on success; invariant kept |
| Channels.ChannelStore.Leave | backend/controllers/channelController.js:161-189 | answers with the leave decision and stores the filtered member list only on success; invariant kept |
| Messages.Trim | backend/models/messageModel.js:5-9 | the result is a contiguous part of the input with only white space cut off before and after it; it is empty exactly when the input is all white space, and otherwise neither starts nor ends with white space |
| Messages.TrimIdempotent | backend/models/messageModel.js:5-9 | trimming is idempotent, so stored content is already trimmed |
| Messages.History | backend/controllers/messageController.js:71 | a channel's history holds exactly the stored messages of that channel |
| Messages.HistoryChronological | backend/controllers/messageController.js:71-72 | the history of a chronological store is chronological |
| Messages.Find | backend/controllers/messageController.js:108-113 | a found message is stored and has the id asked for; "not found" means no stored message has that id |
| Messages.ReverseIsNewestFirst | backend/controllers/messageController.js:71-72 | the reversed chronological history is in strictly descending creation order |
| Messages.ReverseKeepsMessages | backend/controllers/messageController.js:92 | reversing keeps every message exactly as often |
| Messages.NewestFirstUnique | backend/controllers/messageController.js:71-72 | two newest-first arrangements of the same messages are equal, so the database sort is determined |
| Messages.SortedHistoryIsReversed | backend/controllers/messageController.js:70-74 | any newest-first arrangement of a chronological history is its reverse |
| Messages.Page | backend/controllers/messageController.js:68-74 | a page holds at most `limit` messages |
| Messages.PageCount | backend/controllers/messageController.js:94 | the ceiling of total over limit: the pages cover the total, one page fewer would not, and no messages means no pages |
| Messages.Reply | backend/controllers/messageController.js:91-96 | the reply echoes the page, counts every message of the channel as the total, holds at most `limit` messages and carries the ceiling page count |
| Messages.WindowIsSlice | backend/controllers/messageController.js:68-92 | the page after `skip` newer messages is the contiguous chronological slice of the history that ends `skip` before its newest message and is at most `limit` long |
| Messages.WindowWithinHistory | backend/controllers/messageController.js:71-74 | every listed message belongs to the history |
| Messages.PageWithinHistory | backend/controllers/messageController.js:71-76 | every message on a page belongs to the channel's history |
| Messages.OlderWindowHoldsOlderMessages | backend/controllers/messageController.js:68-74 | the window `limit` further back holds only messages created before every message of this window |
| Messages.OlderPageHoldsOlderMessages | backend/controllers/messageController.js:68-74 | every message on page k + 1 is older than every message on page k, so pages are disjoint |
| Messages.AllPagesIsSuffix | backend/controllers/messageController.js:68-74 | pages n, …, 2, 1 laid end to end are exactly a suffix of the history |
| Messages.AllPagesRebuildHistory | backend/controllers/messageController.js:68-94 | pages `pages`, …, 2, 1 laid end to end are the whole history, with no gap and no repetition |
| Messages.PagePastTheEndIsEmpty | backend/controllers/messageController.js:68-94 | a page number past the page count lists nothing |
| Messages.MarkedBy | backend/controllers/messageController.js:86-88 | afterwards the reader is listed; only the reader list changes; it grows at the end by the reader exactly when the reader was absent; a well-formed message stays well formed |
| Messages.MarkRead | backend/controllers/messageController.js:82-89 | every selected message of the channel gets the guarded push of `MarkedBy`, so it lists the reader afterwards; every reader list only grows, keeping its old entries as a prefix; unselected messages and messages the reader had already read are unchanged; only reader lists change |
| Messages.MarkReadIdempotent | backend/controllers/messageController.js:82-89 | marking a second time changes nothing |
| Messages.MarkReadKeepsInvariant | backend/controllers/messageController.js:82-89 | marking keeps the store invariant: chronological order, ids and times below the counters, well-formed messages |
| Messages.ListingMarksListed | backend/controllers/messageController.js:82-89 | after marking the messages listed from a channel's history, every stored message carrying a listed id lists the reader |
| Messages.DistinctIds | backend/controllers/messageController.js:82-88 | in a chronological store, different positions hold different ids, so selecting by id selects one message |
| Messages.ListedIdsBelongToChannel | backend/controllers/messageController.js:82-89 | a stored message whose id was listed belongs to the listed channel, so the channel filter of the update selects it |
| Messages.Posted | backend/controllers/messageController.js:9-29 | 404 for an unknown channel; 403 for a private channel the caller is not a member of; 500 for blank content; otherwise a message of that channel and sender, read by the sender only, with trimmed content and the given attachments or none, that is well formed |
| Messages.PublicChannelTakesPostsFromNonMembers | backend/controllers/messageController.js:18-21 | a caller who is not a member can post to a public channel, and could still join it |
| Messages.DeleteDecision | backend/controllers/messageController.js:108-121 | 404 for an unknown message; allowed exactly for the sender or the owner of an existing channel; 500 exactly when a non-sender deletes a message whose channel no longer exists; 403 otherwise |
| Messages.WithoutMessage | backend/controllers/messageController.js:120 | removes exactly the message with that id and keeps every other message as often as before |
| Messages.AppendKeepsInvariant | backend/controllers/messageController.js:23-29 | appending a well-formed message with the next id and the next time keeps the store invariant |
| Messages.DeleteKeepsInvariant | backend/controllers/messageController.js:120 | deleting keeps the store invariant |
| Messages.DeletedMessageNeverListed | backend/controllers/messageController.js:71-74 | after a delete, no page of any channel lists the deleted id |
| Messages.MessageStore.Post | backend/controllers/messageController.js:7-45 | answers with the post decision for the next id and time; on success the message is appended and both counters advance, otherwise nothing changes; invariant kept |
| Messages.MessageStore.ListPage | backend/controllers/messageController.js:50-101 | channel guards as for reading a channel, then 500 for page 0; the reply is computed from the messages as they were before marking; then the page's messages are marked read by the caller, and every stored message with a listed id lists the caller; invariant kept |
| Messages.MessageStore.Delete | backend/controllers/messageController.js:106-126 | answers with the delete decision and removes the message only when allowed; invariant kept |
| MessageSlice.AfterFetch | frontend/src/redux/slices/messageSlice.js:96-102 | page 1 replaces the list; any other page goes in front, followed by the old list unchanged |
| MessageSlice.ScrolledBackIsAllPages | frontend/src/redux/slices/messageSlice.js:96-102 | fetching page 1 and then pages 2, …, n leaves the client with pages n, …, 1 laid end to end |
| MessageSlice.ScrollingBackRebuildsHistory | frontend/src/redux/slices/messageSlice.js:96-102 | fetching every page in turn (only page 1 for a channel with no messages) leaves the client with the channel's whole history in chronological order, for every history |
| MessageSlice.DeleteKeepsOrder | frontend/src/redux/slices/messageSlice.js:130-132 | removing a message from a list built of parts removes it from each part and keeps the parts in order |
| MessageSlice.MessageState.constructor | frontend/src/redux/slices/messageSlice.js:4-14 | empty list, flags off, empty error, pagination {1, 1, 0} |
| MessageSlice.MessageState.AddMessage | frontend/src/redux/slices/messageSlice.js:71-74 | appends the message with no check for its id; every other field unchanged |
| MessageSlice.MessageState.ResetMessages | frontend/src/redux/slices/messageSlice.js:75-82 | empty list and pagination {1, 1, 0}; flags and error unchanged |
| MessageSlice.MessageState.ResetMessageError | frontend/src/redux/slices/messageSlice.js:83-86 | error cleared; messages, loading flag and pagination unchanged |
| MessageSlice.MessageState.Pending | frontend/src/redux/slices/messageSlice.js:91-93 | loading set and nothing else changed (the same case serves creation, lines 116-118) |
| MessageSlice.MessageState.FetchFulfilled | frontend/src/redux/slices/messageSlice.js:94-108 | loading cleared; list replaced or prepended as `AfterFetch` says; pagination taken from the reply; error fields unchanged |
| MessageSlice.MessageState.Rejected | frontend/src/redux/slices/messageSlice.js:109-113 | loading cleared, error set to the payload, list and pagination unchanged (the same case serves creation, lines 123-127) |
| MessageSlice.MessageState.CreateFulfilled | frontend/src/redux/slices/messageSlice.js:119-122 | loading cleared and the created message appended; the rest unchanged |
| MessageSlice.MessageState.DeleteFulfilled | frontend/src/redux/slices/messageSlice.js:130-132 | every message with that id removed and the rest kept in order; flags and pagination untouched |
| ChannelSlice.ReplaceById | frontend/src/redux/slices/channelSlice.js:196-198 | same length and same ids at every position; entries with the payload's id become the payload, all others are unchanged |
| ChannelSlice.WithoutChannel | frontend/src/redux/slices/channelSlice.js:215 | keeps exactly the entries with another id, each as often as before |
| ChannelSlice.CurrentAfterUpdate | frontend/src/redux/slices/channelSlice.js:199-201 | the open channel is replaced exactly when it has the payload's id; an absent one stays absent |
| ChannelSlice.CurrentAfterDelete | frontend/src/redux/slices/channelSlice.js:216-218 | the open channel is closed exactly when it has the deleted id, and is otherwise unchanged |
| ChannelSlice.ReducersKeepCurrentListed | frontend/src/redux/slices/channelSlice.js:180-218 | if the open channel is in the list, it stays in the list after an update, a delete or a create reply |
| ChannelSlice.DeleteAfterUpdate | frontend/src/redux/slices/channelSlice.js:194-218 | deleting a channel after updating it leaves the same list as deleting it directly |
| ChannelSlice.ChannelState.constructor | frontend/src/redux/slices/channelSlice.js:4-10 | no channels, no open channel, flags off, empty error |
| ChannelSlice.ChannelState.SetCurrentChannel | frontend/src/redux/slices/channelSlice.js:135-137 | opens the payload (or none); everything else unchanged |
| ChannelSlice.ChannelState.ClearCurrentChannel | frontend/src/redux/slices/channelSlice.js:138-140 | no channel open; everything else unchanged |
| ChannelSlice.ChannelState.ResetChannelError | frontend/src/redux/slices/channelSlice.js:141-144 | error cleared; list, open channel and loading flag unchanged |
| ChannelSlice.ChannelState.Pending | frontend/src/redux/slices/channelSlice.js:149-151 | loading set and nothing else changed (every pending case is the same) |
| ChannelSlice.ChannelState.Rejected | frontend/src/redux/slices/channelSlice.js:156-160 | loading cleared, error set to the payload, list and open channel unchanged (every rejected case is the same) |
| ChannelSlice.ChannelState.ListFulfilled | frontend/src/redux/slices/channelSlice.js:152-155 | loading cleared and the list replaced by the payload; open channel and error unchanged |
| ChannelSlice.ChannelState.GetFulfilled | frontend/src/redux/slices/channelSlice.js:166-169 | loading cleared and the payload opened; list and error unchanged |
| ChannelSlice.ChannelState.CreateFulfilled | frontend/src/redux/slices/channelSlice.js:180-183 | loading cleared and the new channel appended; the rest unchanged |
| ChannelSlice.ChannelState.UpdateFulfilled | frontend/src/redux/slices/channelSlice.js:194-202 | loading cleared; list and open channel updated by id as `ReplaceById` and `CurrentAfterUpdate` say; error unchanged |
| ChannelSlice.ChannelState.DeleteFulfilled | frontend/src/redux/slices/channelSlice.js:213-219 | loading cleared; entries with the id removed; the open channel closed exactly when it was the deleted one |
| ChannelSlice.ChannelState.MembershipFulfilled | frontend/src/redux/slices/channelSlice.js:230-232 | only loading cleared; list and open channel unchanged (the leave case, lines 242-244, is the same) |

## Left out

- Real-time delivery over Socket.IO (`backend/server.js`, `frontend/src/utils/chatService.js`) is not part of this model. It is network transport whose room bookkeeping lives in the library.
- The async thunks of both slices and `frontend/src/utils/api.js` are not modelled. They are HTTP calls; each reducer method takes the payload a thunk would deliver.
- Authentication is not modelled (the `protect` middleware and the auth slice). The caller id is a parameter.
- The route files and the React components are not modelled.
- `populate` is not modelled: replies carry ids, not the joined user and channel names. The `populatedMessage` null check in createMessage (400) is not modelled, because a message just created is always found again.
- ObjectId casting and `parseInt` of the query string are not modelled. Page and limit are natural numbers; a request without them is modelled as `ListPage(…, 1, 50)`, the controller's defaults. `limit` must be at least 1: a limit of 0 means "no limit" to the database and an infinite page count to `Math.ceil`.
- The 500 replies caused by database failures are not modelled. Each operation is atomic and the store never fails. The 500 replies that follow from the data are modelled: blank content that the schema rejects, page 0, and reading the owner of a deleted channel.
- `createdAt`/`updatedAt` are not wall-clock times. `createdAt` is a strictly increasing counter and `updatedAt` is not recorded.
- Channels.ListVisible: returns the visible channels as a map keyed by id, so the order of the database's answer is not modelled.
- The channel schema (`backend/models/channelModel.js`) is not part of this model. No name validation or defaults beyond what the controller sends are assumed, and a channel's flag is whatever the create request carried.
- Deleting a channel leaves its messages in place, exactly as the controller does. Those messages can afterwards be deleted only by their sender.
- Concurrent requests and the read-modify-write races on `members` and `readBy` are not modelled.
