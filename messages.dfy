/** The message store: posting into a channel, the paginated newest-first listing
    that also records who has read the listed messages, and deletion by the sender
    or the channel's owner. Creation time is a strictly increasing clock, so the
    newest-first sort is total. */
module Messages {
  import opened Common
  import opened Channels

  /** A stored message. `content` is kept trimmed; `readBy` starts with the sender. */
  datatype Message = Message(
    id: MessageId,
    content: string,
    channel: ChannelId,
    sender: UserId,
    readBy: seq<UserId>,
    attachments: seq<string>,
    createdAt: nat)

  /** The body of a listing reply. */
  datatype PageReply = PageReply(messages: seq<Message>, page: nat, pages: nat, total: nat)

  // ---------------------------------------------------------------------------
  // Content trimming (the schema's `trim: true`)

  /** The characters JavaScript's `String.prototype.trim` removes: white space
      (tab, vertical tab, form feed, no-break space, byte order mark and the
      space separators) and line terminators. */
  predicate IsSpace(c: char) {
    || c == ' ' || c == '\t' || c == '\n' || c == '\r'
    || c == '\U{000B}' || c == '\U{000C}' || c == '\U{00A0}' || c == '\U{FEFF}'
    || c == '\U{1680}' || ('\U{2000}' <= c <= '\U{200A}')
    || c == '\U{2028}' || c == '\U{2029}' || c == '\U{202F}' || c == '\U{205F}' || c == '\U{3000}'
  }

  function LeadingSpaces(s: string): (n: nat)
    ensures n <= |s|
    ensures forall i :: 0 <= i < n ==> IsSpace(s[i])
    ensures n < |s| ==> !IsSpace(s[n])
  {
    if s == [] || !IsSpace(s[0]) then 0 else 1 + LeadingSpaces(s[1..])
  }

  function TrailingSpaces(s: string): (n: nat)
    ensures n <= |s|
    ensures forall i :: |s| - n <= i < |s| ==> IsSpace(s[i])
    ensures n < |s| ==> !IsSpace(s[|s| - 1 - n])
  {
    if s == [] || !IsSpace(s[|s| - 1]) then 0 else 1 + TrailingSpaces(s[..|s| - 1])
  }

  /** `String.prototype.trim`: blank input trims to "", anything else to the part
      between its first and last non-space character. */
  function Trim(s: string): (r: string)
    ensures r == "" <==> forall i :: 0 <= i < |s| ==> IsSpace(s[i])
    ensures r != "" ==> !IsSpace(r[0]) && !IsSpace(r[|r| - 1])
    ensures |r| <= |s|
    ensures exists a: nat :: Trimmed(s, r, a)
  {
    var a := LeadingSpaces(s);
    if a == |s| then
      assert Trimmed(s, "", 0);
      ""
    else
      var r := s[a .. |s| - TrailingSpaces(s)];
      assert Trimmed(s, r, a);
      r
  }

  /** `r` is `s` with white space only cut off before position `a` and after
      `r` ends. */
  predicate Trimmed(s: string, r: string, a: nat) {
    && a + |r| <= |s| && r == s[a .. a + |r|]
    && (forall i :: 0 <= i < a ==> IsSpace(s[i]))
    && (forall i :: a + |r| <= i < |s| ==> IsSpace(s[i]))
  }

  /** Trimming twice is trimming once, so stored content is a fixed point. */
  lemma TrimIdempotent(s: string)
    ensures Trim(Trim(s)) == Trim(s)
  {
    var r := Trim(s);
    if r != "" {
      assert LeadingSpaces(r) == 0;
      assert TrailingSpaces(r) == 0;
      assert r[0..|r|] == r;
    }
  }

  // ---------------------------------------------------------------------------
  // Store invariant

  /** What every stored message satisfies: non-blank trimmed content, the sender
      among its readers, and no reader listed twice. */
  predicate WellFormedMessage(m: Message) {
    && m.content != "" && Trim(m.content) == m.content
    && m.sender in m.readBy && NoDuplicates(m.readBy)
  }

  /** `a` was created strictly before `b`, and they are different records. */
  predicate Before(a: Message, b: Message) {
    a.createdAt < b.createdAt && a.id != b.id
  }

  /** Oldest first, with distinct ids. */
  ghost predicate Chronological(s: seq<Message>) {
    Pairwise(s, Before)
  }

  /** Newest first, as `.sort({ createdAt: -1 })` returns. */
  ghost predicate NewestFirst(s: seq<Message>) {
    forall i, j :: 0 <= i < j < |s| ==> s[i].createdAt > s[j].createdAt
  }

  /** The collection, kept in insertion order, below the next id and clock. */
  ghost predicate MessageStoreInvariant(msgs: seq<Message>, nextId: MessageId, clock: nat) {
    && Chronological(msgs)
    && forall m :: m in msgs ==> m.id < nextId && m.createdAt < clock && WellFormedMessage(m)
  }

  // ---------------------------------------------------------------------------
  // Queries

  /** `Message.find({ channel })`: the channel's messages in store order. */
  function History(msgs: seq<Message>, ch: ChannelId): (h: seq<Message>)
    ensures forall m :: m in h <==> m in msgs && m.channel == ch
  {
    Filter(msgs, (m: Message) => m.channel == ch)
  }

  /** A channel's history is chronological whenever the store is. */
  lemma HistoryChronological(msgs: seq<Message>, ch: ChannelId)
    requires Chronological(msgs)
    ensures Chronological(History(msgs, ch))
  {
    FilterKeepsPairwise(msgs, (m: Message) => m.channel == ch, Before);
  }

  /** `Message.findById`. */
  function Find(msgs: seq<Message>, id: MessageId): (r: Option<Message>)
    ensures r.Some? ==> r.value in msgs && r.value.id == id
    ensures r.None? ==> forall m :: m in msgs ==> m.id != id
  {
    if msgs == [] then None
    else if msgs[0].id == id then Some(msgs[0])
    else Find(msgs[1..], id)
  }

  function Reverse(s: seq<Message>): (r: seq<Message>)
    ensures |r| == |s|
    ensures forall i :: 0 <= i < |s| ==> r[i] == s[|s| - 1 - i]
  {
    seq(|s|, i requires 0 <= i < |s| => s[|s| - 1 - i])
  }

  // ---------------------------------------------------------------------------
  // Sorting newest first

  /** The reversed history is sorted newest first. */
  lemma ReverseIsNewestFirst(h: seq<Message>)
    requires Chronological(h)
    ensures NewestFirst(Reverse(h))
  {
    var r := Reverse(h);
    forall i, j | 0 <= i < j < |r| ensures r[i].createdAt > r[j].createdAt {
      assert Before(h[|h| - 1 - j], h[|h| - 1 - i]);
    }
  }

  /** Reversing keeps every message exactly as often. */
  lemma {:induction false} ReverseKeepsMessages(h: seq<Message>)
    ensures multiset(Reverse(h)) == multiset(h)
  {
    if h != [] {
      var t := h[1..];
      ReverseKeepsMessages(t);
      assert Reverse(h) == Reverse(t) + [h[0]];
      assert h == [h[0]] + t;
    }
  }

  /** Creation times are distinct, so there is only one newest-first arrangement of
      a set of messages: the sort the database performs is the reversed history. */
  lemma {:induction false} NewestFirstUnique(a: seq<Message>, b: seq<Message>)
    requires NewestFirst(a) && NewestFirst(b) && multiset(a) == multiset(b)
    ensures a == b
  {
    if a != [] {
      assert |b| == |a| by { assert |multiset(a)| == |multiset(b)|; }
      SameHead(a, b);
      assert b[0] == a[0];
      SameTails(a, b);
      NewestFirstUnique(a[1..], b[1..]);
    }
  }

  /** Two arrangements of the same elements with the same head have tails with
      the same elements. */
  lemma SameTails(a: seq<Message>, b: seq<Message>)
    requires a != [] && b != [] && a[0] == b[0] && multiset(a) == multiset(b)
    ensures multiset(a[1..]) == multiset(b[1..])
  {
    assert a == [a[0]] + a[1..] && b == [b[0]] + b[1..];
    assert multiset(a[1..]) == multiset(a) - multiset{a[0]};
    assert multiset(b[1..]) == multiset(b) - multiset{b[0]};
  }

  /** Two newest-first arrangements of the same messages start with the same one. */
  lemma SameHead(a: seq<Message>, b: seq<Message>)
    requires NewestFirst(a) && NewestFirst(b) && multiset(a) == multiset(b) && a != []
    ensures |b| == |a| && b[0] == a[0]
  {
    assert |b| == |a| by { assert |multiset(a)| == |multiset(b)|; }
    assert a[0] in multiset(b) by { assert a[0] in multiset(a); }
    assert b[0] in multiset(a) by { assert b[0] in multiset(b); }
    var i :| 0 <= i < |b| && b[i] == a[0];
    var j :| 0 <= j < |a| && a[j] == b[0];
    assert a[0].createdAt >= a[j].createdAt;
    assert b[0].createdAt >= b[i].createdAt;
    assert i == 0;
  }

  /** The order the listing starts from: any newest-first arrangement of a
      chronological history is its reverse. */
  lemma SortedHistoryIsReversed(h: seq<Message>, sorted: seq<Message>)
    requires Chronological(h) && NewestFirst(sorted) && multiset(sorted) == multiset(h)
    ensures sorted == Reverse(h)
  {
    ReverseIsNewestFirst(h);
    ReverseKeepsMessages(h);
    NewestFirstUnique(sorted, Reverse(h));
  }

  // ---------------------------------------------------------------------------
  // Pagination

  /** One listing window: newest first, skip `skip`, take `limit`, then reverse the
      slice back to chronological order. */
  function Window(h: seq<Message>, skip: nat, limit: nat): (r: seq<Message>)
    ensures |r| <= limit
  {
    var newestFirst := Reverse(h);
    var taken :=
      if skip >= |newestFirst| then []
      else newestFirst[skip .. if skip + limit <= |newestFirst| then skip + limit else |newestFirst|];
    Reverse(taken)
  }

  /** The listing of page `page`: the window after `(page - 1) * limit` newer messages. */
  function Page(h: seq<Message>, page: nat, limit: nat): (r: seq<Message>)
    requires page >= 1 && limit >= 1
    ensures |r| <= limit
  {
    Window(h, (page - 1) * limit, limit)
  }

  /** `Math.ceil(total / limit)`. */
  function PageCount(total: nat, limit: nat): (pages: nat)
    requires limit >= 1
    ensures pages * limit >= total
    ensures total > 0 ==> (pages - 1) * limit < total
    ensures total == 0 ==> pages == 0
  {
    var q := (total + limit - 1) / limit;
    assert q * limit + (total + limit - 1) % limit == total + limit - 1;
    q
  }

  /** The reply to a listing of history `h`: the page, its number, the page count
      and the total over the whole channel. */
  function Reply(h: seq<Message>, page: nat, limit: nat): (r: PageReply)
    requires page >= 1 && limit >= 1
    ensures r.total == |h| && r.page == page && |r.messages| <= limit
    ensures (r.pages - 1) * limit < r.total <= r.pages * limit || (r.total == 0 && r.pages == 0)
  {
    PageReply(Page(h, page, limit), page, PageCount(|h|, limit), |h|)
  }

  /** One past the newest history index a window shows. */
  function WindowEnd(n: nat, skip: nat): (e: nat)
    ensures e <= n
  {
    if skip >= n then 0 else n - skip
  }

  /** The oldest history index a window shows. */
  function WindowStart(n: nat, skip: nat, limit: nat): (s: nat)
    ensures s <= WindowEnd(n, skip)
  {
    var e := WindowEnd(n, skip);
    if e <= limit then 0 else e - limit
  }

  /** A window is a contiguous, chronological slice of the history: counted from the
      newest message, it ends `skip` back and is at most `limit` long. */
  lemma WindowIsSlice(h: seq<Message>, skip: nat, limit: nat)
    ensures Window(h, skip, limit) == h[WindowStart(|h|, skip, limit) .. WindowEnd(|h|, skip)]
  {
    var n := |h|;
    if skip < n {
      var hi := if skip + limit <= n then skip + limit else n;
      var taken := Reverse(h)[skip .. hi];
      var lo := WindowStart(n, skip, limit);
      assert lo == n - hi;
      var r := Window(h, skip, limit);
      assert r == Reverse(taken);
      forall i | 0 <= i < |r| ensures r[i] == h[lo + i] {
        assert r[i] == taken[|taken| - 1 - i];
      }
    }
  }

  /** The next-older window meets this one: it ends where this one starts. */
  lemma WindowsAdjacent(n: nat, skip: nat, limit: nat)
    ensures WindowEnd(n, skip + limit) == WindowStart(n, skip, limit)
  {
  }

  /** Every listed message comes from the history. */
  lemma WindowWithinHistory(h: seq<Message>, skip: nat, limit: nat)
    ensures forall m :: m in Window(h, skip, limit) ==> m in h
  {
    WindowIsSlice(h, skip, limit);
    SliceWithin(h, WindowStart(|h|, skip, limit), WindowEnd(|h|, skip));
  }

  /** Every message on a page comes from the history. */
  lemma PageWithinHistory(h: seq<Message>, page: nat, limit: nat)
    requires page >= 1 && limit >= 1
    ensures forall m :: m in Page(h, page, limit) ==> m in h
  {
    WindowWithinHistory(h, (page - 1) * limit, limit);
  }

  /** A slice holds only elements of the whole. */
  lemma SliceWithin(h: seq<Message>, lo: nat, hi: nat)
    requires lo <= hi <= |h|
    ensures forall m :: m in h[lo..hi] ==> m in h
  {
    forall m | m in h[lo..hi] ensures m in h {
      var i :| 0 <= i < hi - lo && h[lo..hi][i] == m;
      assert h[lo + i] == m;
    }
  }

  /** The window after `limit` more newer messages holds only older messages. */
  lemma OlderWindowHoldsOlderMessages(h: seq<Message>, skip: nat, limit: nat)
    requires Chronological(h)
    ensures forall x, y :: x in Window(h, skip + limit, limit) && y in Window(h, skip, limit) ==> Before(x, y)
  {
    var n := |h|;
    WindowIsSlice(h, skip + limit, limit);
    WindowIsSlice(h, skip, limit);
    WindowsAdjacent(n, skip, limit);
    SlicesInOrder(h, WindowStart(n, skip + limit, limit), WindowEnd(n, skip + limit),
                  WindowStart(n, skip, limit), WindowEnd(n, skip));
  }

  /** Of two consecutive slices of a chronological sequence, the first is older. */
  lemma SlicesInOrder(h: seq<Message>, lo1: nat, hi1: nat, lo2: nat, hi2: nat)
    requires Chronological(h) && lo1 <= hi1 <= lo2 <= hi2 <= |h|
    ensures forall x, y :: x in h[lo1..hi1] && y in h[lo2..hi2] ==> Before(x, y)
  {
    var older, newer := h[lo1..hi1], h[lo2..hi2];
    forall x, y | x in older && y in newer ensures Before(x, y) {
      var i :| 0 <= i < |older| && older[i] == x;
      var j :| 0 <= j < |newer| && newer[j] == y;
      assert x == h[lo1 + i] && y == h[lo2 + j];
    }
  }

  /** Page `k + 1` holds only messages older than every message on page `k`; in
      particular the two pages share no message. */
  lemma OlderPageHoldsOlderMessages(h: seq<Message>, k: nat, limit: nat)
    requires Chronological(h) && k >= 1 && limit >= 1
    ensures forall x, y :: x in Page(h, k + 1, limit) && y in Page(h, k, limit) ==> Before(x, y)
  {
    var skip := (k - 1) * limit;
    assert k * limit == skip + limit;
    assert Page(h, k + 1, limit) == Window(h, skip + limit, limit);
    OlderWindowHoldsOlderMessages(h, skip, limit);
  }

  /** Pages `n`, n-1, ..., 1 laid end to end: oldest page first. */
  function AllPages(h: seq<Message>, n: nat, limit: nat): seq<Message>
    requires limit >= 1
  {
    if n == 0 then [] else Page(h, n, limit) + AllPages(h, n - 1, limit)
  }

  /** Where the first `n` pages begin in a history of length `len`. */
  function FirstPagesStart(len: nat, n: nat, limit: nat): (s: nat)
    ensures s <= len
  {
    if n == 0 then len else WindowStart(len, (n - 1) * limit, limit)
  }

  /** The first `n` pages, oldest first, are exactly a suffix of the history. */
  lemma {:induction false} AllPagesIsSuffix(h: seq<Message>, n: nat, limit: nat)
    requires limit >= 1
    ensures AllPages(h, n, limit) == h[FirstPagesStart(|h|, n, limit)..]
  {
    if n > 0 {
      AllPagesIsSuffix(h, n - 1, limit);
      PageExtendsSuffix(h, n, limit);
    }
  }

  /** Page `n` followed by the suffix the first `n - 1` pages form is the suffix
      the first `n` pages form. */
  lemma PageExtendsSuffix(h: seq<Message>, n: nat, limit: nat)
    requires n >= 1 && limit >= 1
    ensures Page(h, n, limit) + h[FirstPagesStart(|h|, n - 1, limit)..] == h[FirstPagesStart(|h|, n, limit)..]
  {
    var skip := (n - 1) * limit;
    var lo, mid := WindowStart(|h|, skip, limit), WindowEnd(|h|, skip);
    assert Page(h, n, limit) == h[lo..mid] by { WindowIsSlice(h, skip, limit); }
    assert mid == FirstPagesStart(|h|, n - 1, limit) by { PageEndsWhereNewerPagesBegin(|h|, n, limit); }
    assert h[lo..] == h[lo..mid] + h[mid..];
  }

  /** Page `n` ends where the first `n - 1` pages begin. */
  lemma PageEndsWhereNewerPagesBegin(len: nat, n: nat, limit: nat)
    requires n >= 1 && limit >= 1
    ensures WindowEnd(len, (n - 1) * limit) == FirstPagesStart(len, n - 1, limit)
  {
    if n > 1 {
      var prev := (n - 2) * limit;
      assert prev + limit == (n - 1) * limit;
      WindowsAdjacent(len, prev, limit);
    }
  }

  /** Concatenating pages `pages`, ..., 2, 1 reproduces the whole history with no
      gap and no repetition. */
  lemma AllPagesRebuildHistory(h: seq<Message>, limit: nat)
    requires limit >= 1
    ensures AllPages(h, PageCount(|h|, limit), limit) == h
  {
    var pages := PageCount(|h|, limit);
    AllPagesIsSuffix(h, pages, limit);
    if pages > 0 {
      var skip := (pages - 1) * limit;
      assert skip + limit >= |h| by { assert pages * limit == skip + limit; }
      assert WindowStart(|h|, skip, limit) == 0;
    }
  }

  /** A page past the last one is empty. */
  lemma PagePastTheEndIsEmpty(h: seq<Message>, page: nat, limit: nat)
    requires limit >= 1 && page > PageCount(|h|, limit)
    ensures Page(h, page, limit) == []
  {
    var pages := PageCount(|h|, limit);
    ScaleMonotone(page - 1, pages, limit);
    assert (page - 1) * limit >= |h|;
  }

  /** Scaling by the same factor keeps the order. */
  lemma ScaleMonotone(a: nat, b: nat, c: nat)
    requires a >= b
    ensures a * c >= b * c
  {
    assert a * c == b * c + (a - b) * c;
  }

  // ---------------------------------------------------------------------------
  // Read marking

  /** The guarded `$push`: a reader is appended only when not already listed. */
  function MarkedBy(m: Message, user: UserId): (r: Message)
    ensures user in r.readBy
    ensures r == m.(readBy := r.readBy)
    ensures |m.readBy| <= |r.readBy| && r.readBy[..|m.readBy|] == m.readBy
    ensures multiset(r.readBy) - multiset(m.readBy) == if user in m.readBy then multiset{} else multiset{user}
    ensures WellFormedMessage(m) ==> WellFormedMessage(r)
  {
    if user in m.readBy then m else m.(readBy := m.readBy + [user])
  }

  /** The ids of a listed page. */
  function IdsOf(page: seq<Message>): set<MessageId> {
    set m | m in page :: m.id
  }

  /** The `updateMany` of a listing: every message of channel `ch` whose id is in
      `ids` gets the reader pushed unless already present; nothing else changes. */
  function MarkRead(msgs: seq<Message>, ch: ChannelId, ids: set<MessageId>, user: UserId): (r: seq<Message>)
    ensures |r| == |msgs|
    ensures forall i :: 0 <= i < |msgs| ==> r[i] == msgs[i].(readBy := r[i].readBy)
    ensures forall i :: 0 <= i < |msgs| && msgs[i].channel == ch && msgs[i].id in ids ==> r[i] == MarkedBy(msgs[i], user)
    ensures forall i :: 0 <= i < |msgs| ==>
      |msgs[i].readBy| <= |r[i].readBy| && r[i].readBy[..|msgs[i].readBy|] == msgs[i].readBy
    ensures forall i :: 0 <= i < |msgs| && msgs[i].channel == ch && msgs[i].id in ids ==> user in r[i].readBy
    ensures forall i :: 0 <= i < |msgs| && !(msgs[i].channel == ch && msgs[i].id in ids) ==> r[i] == msgs[i]
    ensures forall i :: 0 <= i < |msgs| && user in msgs[i].readBy ==> r[i] == msgs[i]
  {
    seq(|msgs|, i requires 0 <= i < |msgs| =>
      if msgs[i].channel == ch && msgs[i].id in ids then MarkedBy(msgs[i], user) else msgs[i])
  }

  /** Marking again changes nothing. */
  lemma MarkReadIdempotent(msgs: seq<Message>, ch: ChannelId, ids: set<MessageId>, user: UserId)
    ensures MarkRead(MarkRead(msgs, ch, ids, user), ch, ids, user) == MarkRead(msgs, ch, ids, user)
  {
    var once := MarkRead(msgs, ch, ids, user);
    var twice := MarkRead(once, ch, ids, user);
    forall i | 0 <= i < |msgs| ensures twice[i] == once[i] {
      if msgs[i].channel == ch && msgs[i].id in ids {
        assert user in once[i].readBy;
      }
    }
  }

  /** Marking keeps the store invariant: only reader lists grow. */
  lemma MarkReadKeepsInvariant(msgs: seq<Message>, nextId: MessageId, clock: nat,
                               ch: ChannelId, ids: set<MessageId>, user: UserId)
    requires MessageStoreInvariant(msgs, nextId, clock)
    ensures MessageStoreInvariant(MarkRead(msgs, ch, ids, user), nextId, clock)
  {
    var r := MarkRead(msgs, ch, ids, user);
    forall i, j | 0 <= i < j < |r| ensures Before(r[i], r[j]) {
      assert Before(msgs[i], msgs[j]);
    }
    forall m | m in r ensures m.id < nextId && m.createdAt < clock && WellFormedMessage(m) {
      var i :| 0 <= i < |r| && r[i] == m;
      assert msgs[i] in msgs;
    }
  }

  // ---------------------------------------------------------------------------
  // Posting and deleting

  /** createMessage: 404 for an unknown channel, 403 for a private channel the
      caller is not a member of, 500 when the content is blank (the schema's
      validation throws); otherwise a message read by its sender only. */
  function Posted(channels: Store, channelId: ChannelId, caller: UserId, content: string,
                  attachments: Option<seq<string>>, id: MessageId, now: nat): (r: Result<Message>)
    ensures channelId !in channels ==> r == Err(NotFound)
    ensures channelId in channels && channels[channelId].isPrivate && caller !in channels[channelId].members
            ==> r == Err(Forbidden)
    ensures channelId in channels && VisibleTo(channels[channelId], caller) && Trim(content) == ""
            ==> r == Err(ServerError)
    ensures channelId in channels && VisibleTo(channels[channelId], caller) && Trim(content) != ""
            ==> r.Ok?
    ensures r.Ok? ==>
      && r.value.channel == channelId && r.value.sender == caller && r.value.readBy == [caller]
      && r.value.content == Trim(content) && r.value.id == id && r.value.createdAt == now
      && r.value.attachments == (if attachments.Some? then attachments.value else [])
      && WellFormedMessage(r.value)
  {
    match GetById(channels, channelId, caller)
    case Err(e) => Err(e)
    case Ok(_) =>
      var text := Trim(content);
      if text == "" then Err(ServerError)
      else
        TrimIdempotent(content);
        Ok(Message(id, text, channelId, caller, [caller],
                   if attachments.Some? then attachments.value else [], now))
  }

  /** A public channel takes posts from a caller who never joined it, while the
      same caller could still join it. */
  lemma PublicChannelTakesPostsFromNonMembers(channels: Store, channelId: ChannelId, caller: UserId,
                                              content: string, id: MessageId, now: nat)
    requires channelId in channels && !channels[channelId].isPrivate && caller !in channels[channelId].members
    requires Trim(content) != ""
    ensures Posted(channels, channelId, caller, content, None, id, now).Ok?
    ensures Joined(channels, channelId, caller).Ok?
  {
  }

  /** deleteMessage: 404 for an unknown message; allowed for its sender; for anyone
      else the channel's owner is read, which fails with 500 when the channel no
      longer exists; allowed for the owner, 403 otherwise. */
  function DeleteDecision(channels: Store, msgs: seq<Message>, id: MessageId, caller: UserId): (o: Outcome)
    ensures Find(msgs, id).None? ==> o == Fail(NotFound)
    ensures Find(msgs, id).Some? ==>
      var m := Find(msgs, id).value;
      && (o == Pass <==> m.sender == caller || (m.channel in channels && channels[m.channel].owner == caller))
      && (o == Fail(ServerError) <==> m.sender != caller && m.channel !in channels)
      && (o == Fail(Forbidden) <==> m.sender != caller && m.channel in channels && channels[m.channel].owner != caller)
  {
    match Find(msgs, id)
    case None => Fail(NotFound)
    case Some(m) =>
      if m.sender == caller then Pass
      else if m.channel !in channels then Fail(ServerError)
      else if channels[m.channel].owner == caller then Pass
      else Fail(Forbidden)
  }

  /** `deleteOne`: the collection without the message carrying `id`. */
  function WithoutMessage(msgs: seq<Message>, id: MessageId): (r: seq<Message>)
    ensures forall m :: m in r <==> m in msgs && m.id != id
    ensures forall m: Message {:trigger multiset(r)[m]} :: m.id != id ==> multiset(r)[m] == multiset(msgs)[m]
  {
    Filter(msgs, (m: Message) => m.id != id)
  }

  /** Appending a well-formed message with the next id and clock keeps the store
      invariant for the advanced id and clock. */
  lemma AppendKeepsInvariant(msgs: seq<Message>, nextId: MessageId, clock: nat, m: Message)
    requires MessageStoreInvariant(msgs, nextId, clock)
    requires m.id == nextId && m.createdAt == clock && WellFormedMessage(m)
    ensures MessageStoreInvariant(msgs + [m], nextId + 1, clock + 1)
  {
    var r := msgs + [m];
    forall i, j | 0 <= i < j < |r| ensures Before(r[i], r[j]) {
      if j < |msgs| {
        assert Before(msgs[i], msgs[j]);
      } else {
        assert msgs[i] in msgs;
      }
    }
  }

  /** Deleting keeps the store invariant. */
  lemma DeleteKeepsInvariant(msgs: seq<Message>, nextId: MessageId, clock: nat, id: MessageId)
    requires MessageStoreInvariant(msgs, nextId, clock)
    ensures MessageStoreInvariant(WithoutMessage(msgs, id), nextId, clock)
  {
    FilterKeepsPairwise(msgs, (m: Message) => m.id != id, Before);
  }

  /** A deleted message appears on no page of any later listing. */
  lemma DeletedMessageNeverListed(msgs: seq<Message>, id: MessageId, ch: ChannelId, page: nat, limit: nat)
    requires page >= 1 && limit >= 1
    ensures forall m :: m in Page(History(WithoutMessage(msgs, id), ch), page, limit) ==> m.id != id
  {
    PageWithinHistory(History(WithoutMessage(msgs, id), ch), page, limit);
  }

  /** The messages collection as the backend keeps it, in insertion order. */
  class MessageStore {
    var messages: seq<Message>
    /** The id the next message receives. */
    var nextId: MessageId
    /** The creation time the next message receives. */
    var clock: nat

    ghost predicate Valid()
      reads this
    {
      MessageStoreInvariant(messages, nextId, clock)
    }

    constructor ()
      ensures Valid() && messages == []
    {
      messages := [];
      nextId := 0;
      clock := 0;
    }

    /** createMessage. */
    method Post(registry: ChannelStore, caller: UserId, channelId: ChannelId, content: string,
                attachments: Option<seq<string>>) returns (r: Result<Message>)
      requires Valid()
      modifies this
      ensures Valid()
      ensures r == Posted(registry.channels, channelId, caller, content, attachments, old(nextId), old(clock))
      ensures messages == if r.Ok? then old(messages) + [r.value] else old(messages)
      ensures nextId == (if r.Ok? then old(nextId) + 1 else old(nextId))
      ensures clock == (if r.Ok? then old(clock) + 1 else old(clock))
    {
      if channelId !in registry.channels {
        return Err(NotFound);
      }
      var channel := registry.channels[channelId];
      if channel.isPrivate && caller !in channel.members {
        return Err(Forbidden);
      }
      var text := Trim(content);
      if text == "" {
        return Err(ServerError);
      }
      var m := Message(nextId, text, channelId, caller, [caller],
                       if attachments.Some? then attachments.value else [], clock);
      assert WellFormedMessage(m) by { TrimIdempotent(content); }
      AppendKeepsInvariant(messages, nextId, clock, m);
      messages := messages + [m];
      nextId := nextId + 1;
      clock := clock + 1;
      r := Ok(m);
    }

    /** getChannelMessages: the reply is computed from the messages as they were,
        then the listed messages are marked read by the caller. Page 0 asks for a
        negative skip, which the database refuses (500). */
    method ListPage(registry: ChannelStore, caller: UserId, channelId: ChannelId, page: nat, limit: nat)
      returns (r: Result<PageReply>)
      requires Valid() && limit >= 1
      modifies this
      ensures Valid()
      ensures GetById(registry.channels, channelId, caller).Err? ==>
        r == Err(GetById(registry.channels, channelId, caller).error) && messages == old(messages)
      ensures GetById(registry.channels, channelId, caller).Ok? && page == 0 ==>
        r == Err(ServerError) && messages == old(messages)
      ensures GetById(registry.channels, channelId, caller).Ok? && page >= 1 ==>
        && r == Ok(Reply(History(old(messages), channelId), page, limit))
        && messages == MarkRead(old(messages), channelId, IdsOf(r.value.messages), caller)
      ensures r.Ok? ==> forall i :: 0 <= i < |messages| && messages[i].id in IdsOf(r.value.messages)
                          ==> caller in messages[i].readBy
      ensures nextId == old(nextId) && clock == old(clock)
    {
      if channelId !in registry.channels {
        return Err(NotFound);
      }
      var channel := registry.channels[channelId];
      if channel.isPrivate && caller !in channel.members {
        return Err(Forbidden);
      }
      if page == 0 {
        // the skip (page - 1) * limit is negative, which the query rejects
        return Err(ServerError);
      }
      var history := History(messages, channelId);
      var reply := Reply(history, page, limit);
      var ids := IdsOf(reply.messages);
      PageWithinHistory(history, page, limit);
      ListingMarksListed(messages, channelId, reply.messages, caller);
      MarkReadKeepsInvariant(messages, nextId, clock, channelId, ids, caller);
      messages := MarkRead(messages, channelId, ids, caller);
      r := Ok(reply);
    }

    /** deleteMessage. */
    method Delete(registry: ChannelStore, caller: UserId, id: MessageId) returns (o: Outcome)
      requires Valid()
      modifies this
      ensures Valid()
      ensures o == DeleteDecision(registry.channels, old(messages), id, caller)
      ensures messages == if o.Pass? then WithoutMessage(old(messages), id) else old(messages)
      ensures nextId == old(nextId) && clock == old(clock)
    {
      var found := Find(messages, id);
      if found.None? {
        return Fail(NotFound);
      }
      var m := found.value;
      if m.sender != caller {
        if m.channel !in registry.channels {
          return Fail(ServerError);
        }
        if registry.channels[m.channel].owner != caller {
          return Fail(Forbidden);
        }
      }
      DeleteKeepsInvariant(messages, nextId, clock, id);
      messages := WithoutMessage(messages, id);
      o := Pass;
    }
  }

  /** After marking the messages listed from a channel's history, every stored
      message carrying a listed id lists the reader. */
  lemma ListingMarksListed(msgs: seq<Message>, ch: ChannelId, listed: seq<Message>, user: UserId)
    requires Chronological(msgs)
    requires forall m :: m in listed ==> m in History(msgs, ch)
    ensures var marked := MarkRead(msgs, ch, IdsOf(listed), user);
      forall i :: 0 <= i < |marked| && marked[i].id in IdsOf(listed) ==> user in marked[i].readBy
  {
    var marked := MarkRead(msgs, ch, IdsOf(listed), user);
    forall i | 0 <= i < |marked| && marked[i].id in IdsOf(listed) ensures user in marked[i].readBy {
      ListedIdsBelongToChannel(msgs, ch, listed, i);
    }
  }

  /** Ids are unique in the store, so a stored message whose id was listed from a
      channel's history is the listed message itself and belongs to that channel. */
  lemma ListedIdsBelongToChannel(msgs: seq<Message>, ch: ChannelId, listed: seq<Message>, i: nat)
    requires Chronological(msgs)
    requires forall m :: m in listed ==> m in History(msgs, ch)
    requires i < |msgs| && msgs[i].id in IdsOf(listed)
    ensures msgs[i].channel == ch
  {
    var p :| p in listed && p.id == msgs[i].id;
    assert p in msgs && p.channel == ch;
    var k :| 0 <= k < |msgs| && msgs[k] == p;
    DistinctIds(msgs, i, k);
  }

  /** In a chronological sequence, different positions hold different ids. */
  lemma DistinctIds(msgs: seq<Message>, i: nat, k: nat)
    requires Chronological(msgs) && i < |msgs| && k < |msgs|
    ensures i != k ==> msgs[i].id != msgs[k].id
  {
    if i < k {
      assert Before(msgs[i], msgs[k]);
    } else if k < i {
      assert Before(msgs[k], msgs[i]);
    }
  }
}
