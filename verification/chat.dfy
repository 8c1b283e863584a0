/**
 The customer-support screen. The conversation list is built from every
 chat message (one conversation per user, named after the user's first
 message and showing the latest one), then the messages still unread by
 the administrators add to each conversation's badge, opening a
 conversation for a user who has only unread messages. The screen sorts
 the list newest first, derives four counters from it, labels message
 times relative to the clock, escapes text placed in HTML attributes and
 refuses to send a blank reply or one with no conversation selected.
 */
module Chat {
  import opened Common
  import opened Sorting
  import opened View
  import opened Grouping

  /** A chat message as the server lists it; `userId` 0 stands for a
      message not tied to a user, and times are milliseconds. */
  datatype ChatMessage = ChatMessage(
    userId: int,
    userName: Option<string>,
    userEmail: Option<string>,
    senderType: Option<string>,
    content: Option<string>,
    createdAt: Option<int>,
    isRead: bool)

  datatype Conversation = Conversation(
    userId: int,
    userName: string,
    userEmail: string,
    lastMessage: string,
    lastMessageTime: int,
    unreadCount: nat)

  const CustomerName := "Khách hàng"
  const AdminName := "Admin"
  const NewMessageText := "Tin nhắn mới"

  /** A message's time; one without a creation time counts as sent now. */
  function MessageTime(m: ChatMessage, now: int): int
  {
    if m.createdAt.Some? then m.createdAt.value else now
  }

  function MessageText(m: ChatMessage): string
  {
    OrElse(m.content, "")
  }

  /** The name a conversation takes from a message: the sender's name, or
      "Admin" / the customer placeholder by the sender's side. */
  function SenderName(m: ChatMessage): string
  {
    OrElse(m.userName, if m.senderType == Some("ADMIN") then AdminName else CustomerName)
  }

  function HasUser(): ChatMessage -> bool
  {
    (m: ChatMessage) => m.userId != 0
  }

  function MessageUser(): ChatMessage -> int
  {
    (m: ChatMessage) => m.userId
  }

  /** The messages of user `u`. */
  function FromUser(u: int): ChatMessage -> bool
  {
    (m: ChatMessage) => m.userId != 0 && m.userId == u
  }

  /** The messages of user `u` among `ms`, in order. */
  function OfUser(ms: seq<ChatMessage>, u: int): seq<ChatMessage>
  {
    Filter(ms, FromUser(u))
  }

  function ConversationUser(): Conversation -> int
  {
    (c: Conversation) => c.userId
  }

  ghost predicate HasConversation(cs: seq<Conversation>, u: int)
  {
    exists i :: 0 <= i < |cs| && cs[i].userId == u
  }

  predicate DistinctUsers(cs: seq<Conversation>)
  {
    forall i, j :: 0 <= i < j < |cs| ==> cs[i].userId != cs[j].userId
  }

  // ---------------------------------------------------------------------------
  // Conversations from all messages
  // ---------------------------------------------------------------------------

  /** The message a conversation shows: scanning in order, a later message
      replaces the shown one only when it is strictly newer, so the result
      is the first message of the greatest time. */
  function Latest(ms: seq<ChatMessage>, now: int): (k: nat)
    requires |ms| > 0
    ensures k < |ms|
    ensures forall i :: 0 <= i < |ms| ==> MessageTime(ms[i], now) <= MessageTime(ms[k], now)
    ensures forall i :: 0 <= i < k ==> MessageTime(ms[i], now) < MessageTime(ms[k], now)
    decreases |ms|
  {
    if |ms| == 1 then 0
    else
      var k := Latest(ms[..|ms| - 1], now);
      if MessageTime(ms[|ms| - 1], now) > MessageTime(ms[k], now) then |ms| - 1 else k
  }

  /** A user's conversation as the message scan leaves it. */
  function ConversationOf(now: int): Group<int, ChatMessage> -> Conversation
  {
    (g: Group<int, ChatMessage>) =>
      if |g.members| == 0 then Conversation(g.key, "", "", "", now, 0)
      else
        var first := g.members[0];
        var last := g.members[Latest(g.members, now)];
        Conversation(g.key, SenderName(first), OrElse(first.userEmail, ""),
                     MessageText(last), MessageTime(last, now), 0)
  }

  /** `c` describes the messages `us` of its user: name and e-mail from the
      first message, text and time from the first of the newest. */
  ghost predicate DescribesMessages(c: Conversation, us: seq<ChatMessage>, now: int)
  {
    && |us| > 0
    && c.userName == SenderName(us[0])
    && c.userEmail == OrElse(us[0].userEmail, "")
    && exists k ::
         && 0 <= k < |us|
         && c.lastMessage == MessageText(us[k])
         && c.lastMessageTime == MessageTime(us[k], now)
         && (forall i :: 0 <= i < |us| ==> MessageTime(us[i], now) <= c.lastMessageTime)
         && (forall i :: 0 <= i < k ==> MessageTime(us[i], now) < c.lastMessageTime)
  }

  /** One conversation per user with messages, in order of the user's first
      message, each describing exactly that user's messages and with no
      unread badge yet. */
  function Conversations(ms: seq<ChatMessage>, now: int): (r: seq<Conversation>)
    ensures Project(r, ConversationUser()) == Dedup(Project(Filter(ms, HasUser()), MessageUser()))
    ensures DistinctUsers(r)
    ensures forall i :: 0 <= i < |r| ==> r[i].userId != 0 && r[i].unreadCount == 0
    ensures forall i :: 0 <= i < |r| ==> DescribesMessages(r[i], OfUser(ms, r[i].userId), now)
    ensures Covers(ms, r)
  {
    var r := Project(GroupBy(Filter(ms, HasUser()), MessageUser()), ConversationOf(now));
    ConversationsDescribe(ms, now);
    forall n | 0 <= n < |ms| && ms[n].userId != 0
      ensures HasConversation(r, ms[n].userId)
    {
      ConversationCovers(ms, now, n);
    }
    r
  }

  lemma ConversationsDescribe(ms: seq<ChatMessage>, now: int)
    ensures var gs := GroupBy(Filter(ms, HasUser()), MessageUser());
      var r := Project(gs, ConversationOf(now));
      && Project(r, ConversationUser()) == Keys(gs)
      && DistinctUsers(r)
      && (forall i :: 0 <= i < |r| ==> r[i].userId != 0 && r[i].unreadCount == 0)
      && (forall i :: 0 <= i < |r| ==> DescribesMessages(r[i], OfUser(ms, r[i].userId), now))
  {
    var s := Filter(ms, HasUser());
    var gs := GroupBy(s, MessageUser());
    var r := Project(gs, ConversationOf(now));
    forall i | 0 <= i < |r|
      ensures r[i].userId == gs[i].key && r[i].userId != 0 && r[i].unreadCount == 0
      ensures DescribesMessages(r[i], OfUser(ms, r[i].userId), now)
    {
      GroupNonEmpty(s, MessageUser(), i);
      ConversationAt(ms, now, gs[i]);
    }
  }

  lemma ConversationCovers(ms: seq<ChatMessage>, now: int, n: nat)
    requires n < |ms| && ms[n].userId != 0
    ensures HasConversation(Project(GroupBy(Filter(ms, HasUser()), MessageUser()), ConversationOf(now)), ms[n].userId)
  {
    var s := Filter(ms, HasUser());
    var gs := GroupBy(s, MessageUser());
    assert ms[n] in s;
    var m :| 0 <= m < |s| && s[m] == ms[n];
    assert MessageUser()(s[m]) in Keys(gs);
    var j :| 0 <= j < |gs| && Keys(gs)[j] == ms[n].userId;
    GroupNonEmpty(s, MessageUser(), j);
    ConversationAt(ms, now, gs[j]);
  }

  /** A non-empty group of the messages of one user yields a conversation
      describing those messages. */
  lemma ConversationAt(ms: seq<ChatMessage>, now: int, g: Group<int, ChatMessage>)
    requires g.members == Filter(Filter(ms, HasUser()), KeyIs(MessageUser(), g.key))
    requires |g.members| > 0
    ensures ConversationOf(now)(g).userId == g.key != 0
    ensures ConversationOf(now)(g).unreadCount == 0
    ensures DescribesMessages(ConversationOf(now)(g), OfUser(ms, g.key), now)
  {
    UserGroup(ms, g);
    GroupDescribed(g, now);
  }

  lemma UserGroup(ms: seq<ChatMessage>, g: Group<int, ChatMessage>)
    requires g.members == Filter(Filter(ms, HasUser()), KeyIs(MessageUser(), g.key))
    requires |g.members| > 0
    ensures g.members == OfUser(ms, g.key) && g.key != 0
  {
    FilterThenFilter(ms, HasUser(), KeyIs(MessageUser(), g.key));
    FilterCongruent(ms, Both(HasUser(), KeyIs(MessageUser(), g.key)), FromUser(g.key));
    assert FromUser(g.key)(g.members[0]);
  }

  lemma GroupDescribed(g: Group<int, ChatMessage>, now: int)
    requires |g.members| > 0
    ensures DescribesMessages(ConversationOf(now)(g), g.members, now)
  {
    var k := Latest(g.members, now);
    var c := ConversationOf(now)(g);
    assert c.lastMessage == MessageText(g.members[k]) && c.lastMessageTime == MessageTime(g.members[k], now);
  }

  // ---------------------------------------------------------------------------
  // Unread badges
  // ---------------------------------------------------------------------------

  /** Index of user `u`'s conversation, or `|cs|` when there is none. */
  function FindConversation(cs: seq<Conversation>, u: int): (i: nat)
    ensures i <= |cs|
    ensures i < |cs| ==> cs[i].userId == u
    ensures i == |cs| <==> !HasConversation(cs, u)
  {
    if |cs| == 0 then 0
    else if cs[0].userId == u then 0
    else
      var i := FindConversation(cs[1..], u);
      assert forall j :: 0 < j < |cs| ==> cs[j] == cs[1..][j - 1];
      1 + i
  }

  /** A conversation opened by an unread message of a user with no chat
      history, with a badge of one. */
  function Opened(m: ChatMessage, now: int): Conversation
  {
    Conversation(m.userId, OrElse(m.userName, CustomerName), OrElse(m.userEmail, ""),
                 OrElse(m.content, NewMessageText), MessageTime(m, now), 1)
  }

  /** The badge of conversation `f` goes up by one. */
  function Bump(r: seq<Conversation>, f: nat): seq<Conversation>
    requires f < |r|
  {
    r[f := r[f].(unreadCount := r[f].unreadCount + 1)]
  }

  /** One unread message: its user's badge goes up by one, or a new
      conversation is appended; a message without a user is skipped. */
  function AddUnread(cs: seq<Conversation>, m: ChatMessage, now: int): seq<Conversation>
  {
    if m.userId == 0 then cs
    else
      var i := FindConversation(cs, m.userId);
      if i < |cs| then Bump(cs, i)
      else cs + [Opened(m, now)]
  }

  function MergeUnread(cs: seq<Conversation>, unread: seq<ChatMessage>, now: int): seq<Conversation>
    decreases |unread|
  {
    if |unread| == 0 then cs
    else AddUnread(MergeUnread(cs, unread[..|unread| - 1], now), unread[|unread| - 1], now)
  }

  /** `c` was opened by the unread messages `us` of its user: by the first
      of them, and counting all of them. */
  ghost predicate OpenedBy(c: Conversation, us: seq<ChatMessage>, now: int)
  {
    |us| > 0 && c == Opened(us[0], now).(unreadCount := |us|)
  }

  lemma OfUserSnoc(init: seq<ChatMessage>, m: ChatMessage, u: int)
    ensures OfUser(init + [m], u) == OfUser(init, u) + (if m.userId != 0 && m.userId == u then [m] else [])
  {
    FilterSnoc(init, m, FromUser(u));
  }

  /** The conversations of `cs` stay in place, each badge raised by its
      user's unread messages. */
  ghost predicate Badged(cs: seq<Conversation>, unread: seq<ChatMessage>, r: seq<Conversation>)
  {
    && |cs| <= |r|
    && forall i :: 0 <= i < |cs| ==>
         r[i] == cs[i].(unreadCount := cs[i].unreadCount + |OfUser(unread, cs[i].userId)|)
  }

  /** The conversations after those of `cs` belong to new users and were
      opened by their unread messages. */
  ghost predicate OpenedAfter(cs: seq<Conversation>, unread: seq<ChatMessage>, now: int, r: seq<Conversation>)
  {
    forall i :: |cs| <= i < |r| ==>
      !HasConversation(cs, r[i].userId) && OpenedBy(r[i], OfUser(unread, r[i].userId), now)
  }

  /** Every message with a user has that user's conversation. */
  ghost predicate Covers(unread: seq<ChatMessage>, r: seq<Conversation>)
  {
    forall n :: 0 <= n < |unread| && unread[n].userId != 0 ==> HasConversation(r, unread[n].userId)
  }

  /** What merging the unread messages `unread` into `cs` gives `r`. */
  ghost predicate Merged(cs: seq<Conversation>, unread: seq<ChatMessage>, now: int, r: seq<Conversation>)
  {
    DistinctUsers(r) && Badged(cs, unread, r) && OpenedAfter(cs, unread, now, r) && Covers(unread, r)
  }

  lemma MergedNone(cs: seq<Conversation>, now: int)
    requires DistinctUsers(cs)
    ensures Merged(cs, [], now, cs)
  {
  }

  /** A message with no user leaves every badge as it was. */
  lemma MergedSkip(cs: seq<Conversation>, init: seq<ChatMessage>, m: ChatMessage, now: int, r: seq<Conversation>)
    requires Merged(cs, init, now, r) && m.userId == 0
    ensures Merged(cs, init + [m], now, r)
  {
    BadgedSkip(cs, init, m, r);
    OpenedSkip(cs, init, m, now, r);
    CoversSkip(init, m, r);
  }

  lemma BadgedSkip(cs: seq<Conversation>, init: seq<ChatMessage>, m: ChatMessage, r: seq<Conversation>)
    requires Badged(cs, init, r) && m.userId == 0
    ensures Badged(cs, init + [m], r)
  {
    forall i | 0 <= i < |cs|
      ensures r[i] == cs[i].(unreadCount := cs[i].unreadCount + |OfUser(init + [m], cs[i].userId)|)
    {
      OfUserSnoc(init, m, cs[i].userId);
    }
  }

  lemma OpenedSkip(cs: seq<Conversation>, init: seq<ChatMessage>, m: ChatMessage, now: int, r: seq<Conversation>)
    requires OpenedAfter(cs, init, now, r) && m.userId == 0
    ensures OpenedAfter(cs, init + [m], now, r)
  {
    forall i | |cs| <= i < |r|
      ensures !HasConversation(cs, r[i].userId) && OpenedBy(r[i], OfUser(init + [m], r[i].userId), now)
    {
      OfUserSnoc(init, m, r[i].userId);
    }
  }

  lemma CoversSkip(init: seq<ChatMessage>, m: ChatMessage, r: seq<Conversation>)
    requires Covers(init, r) && m.userId == 0
    ensures Covers(init + [m], r)
  {
    forall n | 0 <= n < |init + [m]| && (init + [m])[n].userId != 0
      ensures HasConversation(r, (init + [m])[n].userId)
    {
      assert (init + [m])[n] == init[n];
    }
  }

  lemma ExistingBadged(cs: seq<Conversation>, init: seq<ChatMessage>, m: ChatMessage, r: seq<Conversation>, f: nat)
    requires Badged(cs, init, r) && DistinctUsers(r)
    requires f < |r| && r[f].userId == m.userId != 0
    ensures Badged(cs, init + [m], Bump(r, f))
  {
    forall i | 0 <= i < |cs|
      ensures Bump(r, f)[i] == cs[i].(unreadCount := cs[i].unreadCount + |OfUser(init + [m], cs[i].userId)|)
    {
      OfUserSnoc(init, m, cs[i].userId);
      assert i != f ==> r[i].userId != m.userId;
    }
  }

  lemma ExistingOpened(cs: seq<Conversation>, init: seq<ChatMessage>, m: ChatMessage, now: int,
                       r: seq<Conversation>, f: nat)
    requires OpenedAfter(cs, init, now, r) && DistinctUsers(r)
    requires f < |r| && r[f].userId == m.userId != 0
    ensures OpenedAfter(cs, init + [m], now, Bump(r, f))
  {
    forall i | |cs| <= i < |r|
      ensures OpenedBy(Bump(r, f)[i], OfUser(init + [m], r[i].userId), now)
    {
      OfUserSnoc(init, m, r[i].userId);
      assert i != f ==> r[i].userId != m.userId;
    }
  }

  lemma ExistingCovers(init: seq<ChatMessage>, m: ChatMessage, r: seq<Conversation>, f: nat)
    requires Covers(init, r)
    requires f < |r| && r[f].userId == m.userId
    ensures Covers(init + [m], Bump(r, f))
  {
    var r' := Bump(r, f);
    forall n | 0 <= n < |init + [m]| && (init + [m])[n].userId != 0
      ensures HasConversation(r', (init + [m])[n].userId)
    {
      if n < |init| {
        assert (init + [m])[n] == init[n];
        var j :| 0 <= j < |r| && r[j].userId == init[n].userId;
        assert r'[j].userId == r[j].userId;
      } else {
        assert r'[f].userId == m.userId;
      }
    }
  }

  /** A message from a user with a conversation raises that badge only. */
  lemma MergedExisting(cs: seq<Conversation>, init: seq<ChatMessage>, m: ChatMessage, now: int,
                       r: seq<Conversation>, f: nat)
    requires Merged(cs, init, now, r) && m.userId != 0
    requires f < |r| && r[f].userId == m.userId
    ensures Merged(cs, init + [m], now, Bump(r, f))
  {
    ExistingBadged(cs, init, m, r, f);
    ExistingOpened(cs, init, m, now, r, f);
    ExistingCovers(init, m, r, f);
  }

  /** A user with a message among those covered has a conversation. */
  lemma CoveredUser(init: seq<ChatMessage>, r: seq<Conversation>, u: int)
    requires Covers(init, r)
    ensures |OfUser(init, u)| > 0 ==> HasConversation(r, u)
  {
    if |OfUser(init, u)| > 0 {
      var x := OfUser(init, u)[0];
      assert x in init && FromUser(u)(x);
      var n :| 0 <= n < |init| && init[n] == x;
    }
  }

  /** The users of `cs` keep their conversations. */
  lemma BadgedKeepsUsers(cs: seq<Conversation>, unread: seq<ChatMessage>, r: seq<Conversation>, u: int)
    requires Badged(cs, unread, r)
    ensures HasConversation(cs, u) ==> HasConversation(r, u)
  {
    if HasConversation(cs, u) {
      var j :| 0 <= j < |cs| && cs[j].userId == u;
      assert r[j].userId == u;
    }
  }

  lemma NewBadged(cs: seq<Conversation>, init: seq<ChatMessage>, m: ChatMessage, now: int, r: seq<Conversation>)
    requires Badged(cs, init, r) && !HasConversation(r, m.userId)
    ensures Badged(cs, init + [m], r + [Opened(m, now)])
  {
    forall i | 0 <= i < |cs|
      ensures (r + [Opened(m, now)])[i] == cs[i].(unreadCount := cs[i].unreadCount + |OfUser(init + [m], cs[i].userId)|)
    {
      OfUserSnoc(init, m, cs[i].userId);
      assert r[i].userId != m.userId;
    }
  }

  lemma NewOpened(cs: seq<Conversation>, init: seq<ChatMessage>, m: ChatMessage, now: int, r: seq<Conversation>)
    requires OpenedAfter(cs, init, now, r) && Badged(cs, init, r) && Covers(init, r)
    requires !HasConversation(r, m.userId) && m.userId != 0
    ensures OpenedAfter(cs, init + [m], now, r + [Opened(m, now)])
  {
    OlderStayOpened(cs, init, m, now, r);
    NewcomerOpened(cs, init, m, now, r);
  }

  lemma OlderStayOpened(cs: seq<Conversation>, init: seq<ChatMessage>, m: ChatMessage, now: int, r: seq<Conversation>)
    requires OpenedAfter(cs, init, now, r) && !HasConversation(r, m.userId)
    ensures forall i :: |cs| <= i < |r| ==>
      !HasConversation(cs, r[i].userId) && OpenedBy(r[i], OfUser(init + [m], r[i].userId), now)
  {
    forall i | |cs| <= i < |r|
      ensures OpenedBy(r[i], OfUser(init + [m], r[i].userId), now)
    {
      OfUserSnoc(init, m, r[i].userId);
      assert r[i].userId != m.userId;
    }
  }

  lemma NewcomerOpened(cs: seq<Conversation>, init: seq<ChatMessage>, m: ChatMessage, now: int, r: seq<Conversation>)
    requires Badged(cs, init, r) && Covers(init, r)
    requires !HasConversation(r, m.userId) && m.userId != 0
    ensures !HasConversation(cs, m.userId) && OpenedBy(Opened(m, now), OfUser(init + [m], m.userId), now)
  {
    var u := m.userId;
    BadgedKeepsUsers(cs, init, r, u);
    CoveredUser(init, r, u);
    OfUserSnoc(init, m, u);
  }

  lemma NewCovers(init: seq<ChatMessage>, m: ChatMessage, now: int, r: seq<Conversation>)
    requires Covers(init, r)
    ensures Covers(init + [m], r + [Opened(m, now)])
  {
    var r' := r + [Opened(m, now)];
    forall n | 0 <= n < |init + [m]| && (init + [m])[n].userId != 0
      ensures HasConversation(r', (init + [m])[n].userId)
    {
      if n < |init| {
        assert (init + [m])[n] == init[n];
        var j :| 0 <= j < |r| && r[j].userId == init[n].userId;
        assert r'[j] == r[j];
      } else {
        assert r'[|r|].userId == m.userId;
      }
    }
  }

  /** A message from a user with no conversation opens one at the end. */
  lemma MergedNew(cs: seq<Conversation>, init: seq<ChatMessage>, m: ChatMessage, now: int, r: seq<Conversation>)
    requires Merged(cs, init, now, r) && m.userId != 0
    requires !HasConversation(r, m.userId)
    ensures Merged(cs, init + [m], now, r + [Opened(m, now)])
  {
    NewBadged(cs, init, m, now, r);
    NewOpened(cs, init, m, now, r);
    NewCovers(init, m, now, r);
    NewDistinct(r, m, now);
  }

  lemma NewDistinct(r: seq<Conversation>, m: ChatMessage, now: int)
    requires DistinctUsers(r) && !HasConversation(r, m.userId)
    ensures DistinctUsers(r + [Opened(m, now)])
  {
    assert forall i :: 0 <= i < |r| ==> r[i].userId != m.userId;
  }

  /** One unread message keeps the merge description true. */
  lemma MergedAdd(cs: seq<Conversation>, init: seq<ChatMessage>, m: ChatMessage, now: int, r: seq<Conversation>)
    requires Merged(cs, init, now, r)
    ensures Merged(cs, init + [m], now, AddUnread(r, m, now))
  {
    if m.userId == 0 {
      MergedSkip(cs, init, m, now, r);
    } else {
      var f := FindConversation(r, m.userId);
      if f < |r| {
        MergedExisting(cs, init, m, now, r, f);
      } else {
        MergedNew(cs, init, m, now, r);
      }
    }
  }

  lemma {:induction false} MergeUnreadFacts(cs: seq<Conversation>, unread: seq<ChatMessage>, now: int)
    requires DistinctUsers(cs)
    ensures Merged(cs, unread, now, MergeUnread(cs, unread, now))
    decreases |unread|
  {
    if |unread| == 0 {
      MergedNone(cs, now);
    } else {
      var init, m := unread[..|unread| - 1], unread[|unread| - 1];
      assert unread == init + [m];
      MergeUnreadFacts(cs, init, now);
      MergedAdd(cs, init, m, now, MergeUnread(cs, init, now));
    }
  }

  /** The conversation list `loadChatConversations` builds: the message
      scan, then the unread badges. */
  function LoadConversations(ms: seq<ChatMessage>, unread: seq<ChatMessage>, now: int): seq<Conversation>
  {
    MergeUnread(Conversations(ms, now), unread, now)
  }

  /** `c` is what loading shows for its user: described by the user's
      messages when there are any, otherwise opened by the user's unread
      messages; either way its badge counts the user's unread messages. */
  ghost predicate Shows(c: Conversation, ms: seq<ChatMessage>, unread: seq<ChatMessage>, now: int)
  {
    && c.userId != 0
    && c.unreadCount == |OfUser(unread, c.userId)|
    && if |OfUser(ms, c.userId)| > 0 then DescribesMessages(c, OfUser(ms, c.userId), now)
       else OpenedBy(c, OfUser(unread, c.userId), now)
  }

  /** One conversation per user with a message or an unread message, each
      showing that user's messages and counting that user's unread ones. */
  lemma LoadedConversations(ms: seq<ChatMessage>, unread: seq<ChatMessage>, now: int)
    ensures var r := LoadConversations(ms, unread, now);
      && DistinctUsers(r)
      && Covers(ms, r) && Covers(unread, r)
      && forall i :: 0 <= i < |r| ==> Shows(r[i], ms, unread, now)
  {
    var cs := Conversations(ms, now);
    var r := LoadConversations(ms, unread, now);
    MergeUnreadFacts(cs, unread, now);
    LoadedCoversMessages(ms, unread, now);
    forall i | 0 <= i < |r| ensures Shows(r[i], ms, unread, now) {
      ShowsAt(ms, unread, now, i);
    }
  }

  lemma LoadedCoversMessages(ms: seq<ChatMessage>, unread: seq<ChatMessage>, now: int)
    ensures Covers(ms, LoadConversations(ms, unread, now))
  {
    var cs := Conversations(ms, now);
    var r := LoadConversations(ms, unread, now);
    MergeUnreadFacts(cs, unread, now);
    forall n | 0 <= n < |ms| && ms[n].userId != 0 ensures HasConversation(r, ms[n].userId) {
      BadgedKeepsUsers(cs, unread, r, ms[n].userId);
    }
  }

  lemma ShowsAt(ms: seq<ChatMessage>, unread: seq<ChatMessage>, now: int, i: nat)
    requires i < |LoadConversations(ms, unread, now)|
    ensures Shows(LoadConversations(ms, unread, now)[i], ms, unread, now)
  {
    if i < |Conversations(ms, now)| {
      ShowsKept(ms, unread, now, i);
    } else {
      ShowsOpened(ms, unread, now, i);
    }
  }

  lemma ShowsKept(ms: seq<ChatMessage>, unread: seq<ChatMessage>, now: int, i: nat)
    requires i < |Conversations(ms, now)|
    requires i < |LoadConversations(ms, unread, now)|
    ensures Shows(LoadConversations(ms, unread, now)[i], ms, unread, now)
  {
    var cs := Conversations(ms, now);
    var r := LoadConversations(ms, unread, now);
    MergeUnreadFacts(cs, unread, now);
    assert Badged(cs, unread, r);
    assert r[i] == cs[i].(unreadCount := |OfUser(unread, cs[i].userId)|);
    KeptShows(ms, unread, now, i, r[i]);
  }

  lemma ShowsOpened(ms: seq<ChatMessage>, unread: seq<ChatMessage>, now: int, i: nat)
    requires |Conversations(ms, now)| <= i < |LoadConversations(ms, unread, now)|
    ensures Shows(LoadConversations(ms, unread, now)[i], ms, unread, now)
  {
    var cs := Conversations(ms, now);
    var r := LoadConversations(ms, unread, now);
    MergeUnreadFacts(cs, unread, now);
    assert OpenedAfter(cs, unread, now, r);
    OpenedShows(r[i], cs, ms, unread, now);
  }

  lemma KeptShows(ms: seq<ChatMessage>, unread: seq<ChatMessage>, now: int, i: nat, c: Conversation)
    requires i < |Conversations(ms, now)|
    requires c == Conversations(ms, now)[i].(unreadCount := |OfUser(unread, Conversations(ms, now)[i].userId)|)
    ensures Shows(c, ms, unread, now)
  {
    var c0 := Conversations(ms, now)[i];
    var us := OfUser(ms, c0.userId);
    assert DescribesMessages(c0, us, now);
    DescriptionIgnoresBadge(c0, |OfUser(unread, c0.userId)|, us, now);
  }

  lemma DescriptionIgnoresBadge(c: Conversation, n: nat, us: seq<ChatMessage>, now: int)
    requires DescribesMessages(c, us, now)
    ensures DescribesMessages(c.(unreadCount := n), us, now)
  {
    var k :| 0 <= k < |us| && c.lastMessage == MessageText(us[k])
      && c.lastMessageTime == MessageTime(us[k], now)
      && (forall i :: 0 <= i < |us| ==> MessageTime(us[i], now) <= c.lastMessageTime)
      && (forall i :: 0 <= i < k ==> MessageTime(us[i], now) < c.lastMessageTime);
  }

  lemma OpenedShows(c: Conversation, cs: seq<Conversation>, ms: seq<ChatMessage>, unread: seq<ChatMessage>, now: int)
    requires Covers(ms, cs) && !HasConversation(cs, c.userId)
    requires OpenedBy(c, OfUser(unread, c.userId), now)
    ensures Shows(c, ms, unread, now)
  {
    CoveredUser(ms, cs, c.userId);
    assert FromUser(c.userId)(OfUser(unread, c.userId)[0]);
  }

  /** A conversation awaits a reply exactly when its user has an unread
      message. */
  lemma PendingMeansUnread(ms: seq<ChatMessage>, unread: seq<ChatMessage>, now: int, i: nat)
    requires i < |LoadConversations(ms, unread, now)|
    ensures var c := LoadConversations(ms, unread, now)[i];
      IsPending()(c) <==> exists n :: 0 <= n < |unread| && unread[n].userId == c.userId
  {
    var c := LoadConversations(ms, unread, now)[i];
    LoadedConversations(ms, unread, now);
    if IsPending()(c) {
      var x := OfUser(unread, c.userId)[0];
      assert x in unread;
      var n :| 0 <= n < |unread| && unread[n] == x;
    }
    if exists n :: 0 <= n < |unread| && unread[n].userId == c.userId {
      var n :| 0 <= n < |unread| && unread[n].userId == c.userId;
      assert unread[n] in OfUser(unread, c.userId);
    }
  }

  // ---------------------------------------------------------------------------
  // updateSupportStats
  // ---------------------------------------------------------------------------

  datatype SupportStats = SupportStats(conversations: nat, unreadMessages: nat, pendingReplies: nat, responseRate: nat)

  /** A customer's message the administrators have not read. */
  function AwaitingAdmin(): ChatMessage -> bool
  {
    (m: ChatMessage) => m.senderType == Some("USER") && !m.isRead
  }

  function IsPending(): Conversation -> bool
  {
    (c: Conversation) => c.unreadCount > 0
  }

  /** The four counters: conversations, unread customer messages,
      conversations awaiting a reply, and the percentage answered, rounded
      half up (0 with no conversations). */
  function SupportStatsOf(cs: seq<Conversation>, unread: seq<ChatMessage>): (s: SupportStats)
    ensures s.conversations == |cs|
    ensures s.unreadMessages == |Filter(unread, AwaitingAdmin())|
    ensures s.pendingReplies == |Filter(cs, IsPending())| <= s.conversations
    ensures s.responseRate <= 100
    ensures s.conversations > 0 ==>
      var t, answered := s.conversations, s.conversations - s.pendingReplies;
      2 * s.responseRate * t - t <= 200 * answered < 2 * s.responseRate * t + t
    ensures s.conversations == 0 || s.pendingReplies == s.conversations ==> s.responseRate == 0
    ensures s.conversations > 0 && s.pendingReplies == 0 ==> s.responseRate == 100
  {
    var t := |cs|;
    var p := CountIf(cs, IsPending());
    FilterLengthIsCount(cs, IsPending());
    FilterLengthIsCount(unread, AwaitingAdmin());
    var rate :=
      if t > 0 then
        var rate := RoundDiv(100 * (t - p), t);
        RateBounds(t, p, rate);
        rate
      else 0;
    SupportStats(t, CountIf(unread, AwaitingAdmin()), p, rate)
  }

  lemma RateBounds(t: pos, p: nat, rate: nat)
    requires p <= t
    requires 2 * rate * t - t <= 200 * (t - p) < 2 * rate * t + t
    ensures rate <= 100
    ensures p == t ==> rate == 0
    ensures p == 0 ==> rate == 100
  {
    assert (2 * rate - 1) * t <= 200 * t;
    CancelLe(2 * rate - 1, 200, t);
    if p == t {
      assert (2 * rate - 1) * t <= 0 * t;
      CancelLe(2 * rate - 1, 0, t);
    }
    if p == 0 {
      assert 200 * t < (2 * rate + 1) * t;
      CancelLt(200, 2 * rate + 1, t);
    }
  }

  // ---------------------------------------------------------------------------
  // renderConversations
  // ---------------------------------------------------------------------------

  datatype ConversationList = NoConversations | Listed(items: seq<Conversation>)

  function LastTime(): Conversation -> int
  {
    (c: Conversation) => c.lastMessageTime
  }

  /** The empty-state text for no conversations, otherwise every
      conversation, newest first. */
  function RenderConversations(cs: seq<Conversation>): (v: ConversationList)
    ensures v == NoConversations <==> |cs| == 0
    ensures v.Listed? ==> multiset(v.items) == multiset(cs)
    ensures v.Listed? ==> forall i, j :: 0 <= i < j < |v.items| ==>
      v.items[i].lastMessageTime >= v.items[j].lastMessageTime
  {
    var sorted := SortBy(cs, NumKey(LastTime()), Desc);
    forall i, j | 0 <= i < j < |sorted| ensures sorted[i].lastMessageTime >= sorted[j].lastMessageTime {
      SortedNumbers(sorted, LastTime(), Desc, i, j);
    }
    if |cs| == 0 then NoConversations else Listed(sorted)
  }

  // ---------------------------------------------------------------------------
  // formatTime
  // ---------------------------------------------------------------------------

  const MinuteMs := 60000

  /** What `formatTime` writes: nothing without a date, "just now",
      minutes or hours ago, or the local date and time, which the model
      leaves as the timestamp. */
  datatype TimeLabel = NoTime | JustNow | MinutesAgo(minutes: int) | HoursAgo(hours: int) | OnDate(time: int)

  function FormatTime(date: Option<int>, now: int): (l: TimeLabel)
    ensures l == NoTime <==> date.None?
  {
    if date.None? then NoTime
    else
      var minutes := (now - date.value) / MinuteMs;
      if minutes < 1 then JustNow
      else if minutes < 60 then MinutesAgo(minutes)
      else if minutes < 1440 then HoursAgo(minutes / 60)
      else OnDate(date.value)
  }

  /** The label in terms of the elapsed milliseconds: under a minute
      (including times in the future) is "just now"; a label of n minutes
      or n hours covers exactly the n-th whole unit, up to a day. */
  lemma FormatTimeThresholds(t: int, now: int)
    ensures var l, d := FormatTime(Some(t), now), now - t;
      && (l == JustNow <==> d < MinuteMs)
      && (l.MinutesAgo? <==> MinuteMs <= d < 60 * MinuteMs)
      && (l.MinutesAgo? ==> 1 <= l.minutes < 60 && l.minutes * MinuteMs <= d < (l.minutes + 1) * MinuteMs)
      && (l.HoursAgo? <==> 60 * MinuteMs <= d < 1440 * MinuteMs)
      && (l.HoursAgo? ==> 1 <= l.hours < 24 && l.hours * 60 * MinuteMs <= d < (l.hours + 1) * 60 * MinuteMs)
      && (l.OnDate? <==> d >= 1440 * MinuteMs)
  {
    var d := now - t;
    var minutes := d / MinuteMs;
    assert minutes * MinuteMs <= d < (minutes + 1) * MinuteMs;
    var h := minutes / 60;
    assert h * 60 <= minutes < (h + 1) * 60;
  }

  // ---------------------------------------------------------------------------
  // escapeHtmlAttribute
  // ---------------------------------------------------------------------------

  /** Every occurrence of `c` replaced by `rep` (`replace` with a global
      pattern). */
  function ReplaceAll(s: string, c: char, rep: string): string
  {
    if |s| == 0 then ""
    else (if s[0] == c then rep else [s[0]]) + ReplaceAll(s[1..], c, rep)
  }

  lemma {:induction false} ReplaceAllAppend(a: string, b: string, c: char, rep: string)
    ensures ReplaceAll(a + b, c, rep) == ReplaceAll(a, c, rep) + ReplaceAll(b, c, rep)
  {
    if |a| > 0 {
      assert (a + b)[0] == a[0];
      assert (a + b)[1..] == a[1..] + b;
      ReplaceAllAppend(a[1..], b, c, rep);
    } else {
      assert a + b == b;
    }
  }

  lemma {:induction false} ReplaceAllAbsent(s: string, c: char, rep: string)
    requires forall i :: 0 <= i < |s| ==> s[i] != c
    ensures ReplaceAll(s, c, rep) == s
    decreases |s|
  {
    if |s| > 0 {
      ReplaceAllAbsent(s[1..], c, rep);
    }
  }

  /** The five replacements in the order the console applies them,
      ampersands first. */
  function Chained(s: string): string
  {
    ReplaceAll(ReplaceAll(ReplaceAll(ReplaceAll(ReplaceAll(s, '&', "&amp;"), '"', "&quot;"), '\'', "&#x27;"), '<', "&lt;"), '>', "&gt;")
  }

  /** The entity for each character that must not appear raw. */
  function EscapeChar(c: char): string
  {
    if c == '&' then "&amp;"
    else if c == '"' then "&quot;"
    else if c == '\'' then "&#x27;"
    else if c == '<' then "&lt;"
    else if c == '>' then "&gt;"
    else [c]
  }

  /** Escaping in one pass, one character at a time. */
  function Escape(s: string): string
  {
    if |s| == 0 then "" else EscapeChar(s[0]) + Escape(s[1..])
  }

  lemma ChainedAppend(a: string, b: string)
    ensures Chained(a + b) == Chained(a) + Chained(b)
  {
    var s1a, s1b := ReplaceAll(a, '&', "&amp;"), ReplaceAll(b, '&', "&amp;");
    ReplaceAllAppend(a, b, '&', "&amp;");
    var s2a, s2b := ReplaceAll(s1a, '"', "&quot;"), ReplaceAll(s1b, '"', "&quot;");
    ReplaceAllAppend(s1a, s1b, '"', "&quot;");
    var s3a, s3b := ReplaceAll(s2a, '\'', "&#x27;"), ReplaceAll(s2b, '\'', "&#x27;");
    ReplaceAllAppend(s2a, s2b, '\'', "&#x27;");
    var s4a, s4b := ReplaceAll(s3a, '<', "&lt;"), ReplaceAll(s3b, '<', "&lt;");
    ReplaceAllAppend(s3a, s3b, '<', "&lt;");
    ReplaceAllAppend(s4a, s4b, '>', "&gt;");
  }

  lemma ReplaceOne(x: char, c: char, rep: string)
    ensures ReplaceAll([x], c, rep) == if x == c then rep else [x]
  {
    assert [x][1..] == [];
  }

  /** Replacements of characters an entity does not contain leave it as
      it is. */
  lemma Survives(e: string, c1: char, r1: string, c2: char, r2: string, c3: char, r3: string, c4: char, r4: string)
    requires forall i :: 0 <= i < |e| ==> e[i] != c1 && e[i] != c2 && e[i] != c3 && e[i] != c4
    ensures ReplaceAll(ReplaceAll(ReplaceAll(ReplaceAll(e, c1, r1), c2, r2), c3, r3), c4, r4) == e
  {
    ReplaceAllAbsent(e, c1, r1);
    ReplaceAllAbsent(e, c2, r2);
    ReplaceAllAbsent(e, c3, r3);
    ReplaceAllAbsent(e, c4, r4);
  }

  lemma Survives3(e: string, c1: char, r1: string, c2: char, r2: string, c3: char, r3: string)
    requires forall i :: 0 <= i < |e| ==> e[i] != c1 && e[i] != c2 && e[i] != c3
    ensures ReplaceAll(ReplaceAll(ReplaceAll(e, c1, r1), c2, r2), c3, r3) == e
  {
    ReplaceAllAbsent(e, c1, r1);
    ReplaceAllAbsent(e, c2, r2);
    ReplaceAllAbsent(e, c3, r3);
  }

  lemma Survives2(e: string, c1: char, r1: string, c2: char, r2: string)
    requires forall i :: 0 <= i < |e| ==> e[i] != c1 && e[i] != c2
    ensures ReplaceAll(ReplaceAll(e, c1, r1), c2, r2) == e
  {
    ReplaceAllAbsent(e, c1, r1);
    ReplaceAllAbsent(e, c2, r2);
  }

  lemma ChainedAmp(c: char)
    requires c == '&'
    ensures Chained([c]) == "&amp;"
  {
    var a := "&amp;";
    assert ReplaceAll([c], '&', a) == a by {
      ReplaceOne(c, '&', a);
    }
    Survives(a, '"', "&quot;", '\'', "&#x27;", '<', "&lt;", '>', "&gt;");
  }

  lemma ChainedQuote(c: char)
    requires c == '"'
    ensures Chained([c]) == "&quot;"
  {
    var q := "&quot;";
    assert ReplaceAll(ReplaceAll([c], '&', "&amp;"), '"', q) == q by {
      ReplaceOne(c, '&', "&amp;");
      ReplaceOne(c, '"', q);
    }
    Survives3(q, '\'', "&#x27;", '<', "&lt;", '>', "&gt;");
  }

  lemma ChainedApos(c: char)
    requires c == '\''
    ensures Chained([c]) == "&#x27;"
  {
    var x := "&#x27;";
    assert ReplaceAll(ReplaceAll(ReplaceAll([c], '&', "&amp;"), '"', "&quot;"), '\'', x) == x by {
      ReplaceOne(c, '&', "&amp;");
      ReplaceOne(c, '"', "&quot;");
      ReplaceOne(c, '\'', x);
    }
    Survives2(x, '<', "&lt;", '>', "&gt;");
  }

  lemma ChainedLt(c: char)
    requires c == '<'
    ensures Chained([c]) == "&lt;"
  {
    ReplaceOne(c, '&', "&amp;");
    ReplaceOne(c, '"', "&quot;");
    ReplaceOne(c, '\'', "&#x27;");
    ReplaceOne(c, '<', "&lt;");
    ReplaceAllAbsent("&lt;", '>', "&gt;");
  }

  lemma ChainedOther(c: char)
    requires c != '&' && c != '"' && c != '\'' && c != '<'
    ensures Chained([c]) == if c == '>' then "&gt;" else [c]
  {
    ReplaceOne(c, '&', "&amp;");
    ReplaceOne(c, '"', "&quot;");
    ReplaceOne(c, '\'', "&#x27;");
    ReplaceOne(c, '<', "&lt;");
    ReplaceOne(c, '>', "&gt;");
  }

  /** On one character the chain produces that character's entity: no
      later replacement touches an entity an earlier one wrote. */
  lemma ChainedChar(c: char)
    ensures Chained([c]) == EscapeChar(c)
  {
    if c == '&' {
      ChainedAmp(c);
    } else if c == '"' {
      ChainedQuote(c);
    } else if c == '\'' {
      ChainedApos(c);
    } else if c == '<' {
      ChainedLt(c);
    } else {
      ChainedOther(c);
    }
  }

  lemma {:induction false} ChainedIsEscape(s: string)
    ensures Chained(s) == Escape(s)
    decreases |s|
  {
    if |s| == 0 {
    } else {
      assert s == [s[0]] + s[1..];
      ChainedAppend([s[0]], s[1..]);
      ChainedChar(s[0]);
      ChainedIsEscape(s[1..]);
    }
  }

  /** A character that is markup inside a quoted attribute value. */
  predicate IsMarkup(c: char)
  {
    c == '"' || c == '\'' || c == '<' || c == '>'
  }

  lemma {:induction false} EscapeHasNoMarkup(s: string)
    ensures forall i :: 0 <= i < |Escape(s)| ==> !IsMarkup(Escape(s)[i])
    decreases |s|
  {
    if |s| > 0 {
      EscapeHasNoMarkup(s[1..]);
      var e, rest := EscapeChar(s[0]), Escape(s[1..]);
      assert Escape(s) == e + rest;
      forall i | 0 <= i < |e + rest| ensures !IsMarkup((e + rest)[i]) {
        if i >= |e| {
          assert (e + rest)[i] == rest[i - |e|];
        }
      }
    }
  }

  predicate StartsWith(s: string, prefix: string)
  {
    |prefix| <= |s| && s[..|prefix|] == prefix
  }

  /** Decodes the five entities back into their characters. */
  function Unescape(s: string): string
    decreases |s|
  {
    if |s| == 0 then ""
    else if s[0] != '&' then [s[0]] + Unescape(s[1..])
    else if StartsWith(s, "&amp;") then "&" + Unescape(s[5..])
    else if StartsWith(s, "&quot;") then "\"" + Unescape(s[6..])
    else if StartsWith(s, "&#x27;") then "'" + Unescape(s[6..])
    else if StartsWith(s, "&lt;") then "<" + Unescape(s[4..])
    else if StartsWith(s, "&gt;") then ">" + Unescape(s[4..])
    else "&" + Unescape(s[1..])
  }

  lemma UnescapePlain(c: char, rest: string)
    requires c != '&'
    ensures Unescape([c] + rest) == [c] + Unescape(rest)
  {
    var s := [c] + rest;
    assert s[0] == c;
    assert s[1..] == rest;
  }
  /** Decoding a character's entity ahead of any text gives the character
      back ahead of that text's decoding. */
  lemma UnescapeChar(c: char, rest: string)
    ensures Unescape(EscapeChar(c) + rest) == [c] + Unescape(rest)
  {
    var e := EscapeChar(c);
    var s := e + rest;
    if c == '&' || c == '"' || c == '\'' {
      assert s[..|e|] == e && s[|e|..] == rest;
      assert s[1] == e[1];
    } else if c == '<' || c == '>' {
      assert s[..4] == e && s[4..] == rest;
      // no longer entity has the same second letter
      assert !StartsWith(s, "&amp;") by { if |s| >= 5 { assert s[..5][1] == e[1]; } }
      assert !StartsWith(s, "&quot;") by { if |s| >= 6 { assert s[..6][1] == e[1]; } }
      assert !StartsWith(s, "&#x27;") by { if |s| >= 6 { assert s[..6][1] == e[1]; } }
    } else {
      UnescapePlain(c, rest);
    }
  }

  /** Escaping loses nothing: the attribute value decodes to the text. */
  lemma {:induction false} UnescapeEscape(s: string)
    ensures Unescape(Escape(s)) == s
    decreases |s|
  {
    if |s| > 0 {
      UnescapeChar(s[0], Escape(s[1..]));
      UnescapeEscape(s[1..]);
      assert s == [s[0]] + s[1..];
    }
  }

  /** `escapeHtmlAttribute`: the empty string for a missing or empty
      text, otherwise the chained replacements, which amount to escaping
      each character once: the value holds no quote or angle bracket and
      decodes back to the text. */
  function EscapeHtmlAttribute(text: Option<string>): (r: string)
    ensures text.None? ==> r == ""
    ensures text.Some? ==> r == Escape(text.value) && Unescape(r) == text.value
    ensures forall i :: 0 <= i < |r| ==> !IsMarkup(r[i])
  {
    if text.None? || text.value == "" then ""
    else
      ChainedIsEscape(text.value);
      EscapeHasNoMarkup(text.value);
      UnescapeEscape(text.value);
      Chained(text.value)
  }

  // ---------------------------------------------------------------------------
  // sendAdminMessage
  // ---------------------------------------------------------------------------

  /** What pressing send does: ask for text, ask for a conversation, or
      post the trimmed text to the selected user. */
  datatype SendOutcome = AskForText | AskForConversation | Post(userId: int, content: string)

  function SendAdminMessage(input: string, currentUser: int): (o: SendOutcome)
    ensures o == AskForText <==> Trim(input) == ""
    ensures o.Post? <==> Trim(input) != "" && currentUser != 0
    ensures o.Post? ==> o.userId == currentUser && o.content == Trim(input)
  {
    var content := Trim(input);
    if content == "" then AskForText
    else if currentUser == 0 then AskForConversation
    else Post(currentUser, content)
  }

  /** A reply made only of spaces is never posted. */
  lemma BlankReplyNotSent(input: string, currentUser: int)
    requires forall i :: 0 <= i < |input| ==> IsSpace(input[i])
    ensures SendAdminMessage(input, currentUser) == AskForText
  {
    TrimEmptyIffAllSpace(input);
  }
}
