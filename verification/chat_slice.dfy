/** The chat slice (src/features/chat/chatSlice.ts): the user's
    conversations, the open conversation and its messages, and the pure parts
    of the thunks — lookup-or-create of a conversation over the stored
    conversations, the records a send writes, and the read receipts. */
module ChatSlice {
  import opened Common
  import opened Types
  import IdList
  import Seqs
  import Lifecycle

  datatype Data = Data(
    conversations: seq<Conversation>,
    currentConversation: Option<Conversation>,
    messages: seq<Message>)

  type State = Lifecycle.Slice<Data>

  const Initial: State := Lifecycle.Slice(Data([], None, []), false, None)

  datatype Thunk =
    | FetchConversations
    | FetchOrCreateConversation
    | FetchMessages
    | SendMessage
    | MarkMessagesAsRead

  datatype Action =
    | SetCurrentConversation(conversation: Conversation)
    | AddMessage(added: Message)
    | ClearCurrentConversation
    | ClearError
    | Pending(thunk: Thunk)
    | Rejected(thunk: Thunk, message: string)
    | ConversationsFetched(conversations: seq<Conversation>)
    | ConversationResolved(conversation: Conversation)
    | MessagesFetched(messages: seq<Message>)
    | MessageSent(sent: Message)
    | MessagesMarkedRead(updated: seq<Message>)

  /** `fetchOrCreateConversation.fulfilled`: the payload becomes current and
      joins the list only when no listed conversation has its id. */
  function Resolved(d: Data, c: Conversation): (e: Data)
    ensures e.currentConversation == Some(c) && e.messages == d.messages
    ensures IdList.HasKey(e.conversations, ConversationId, c.id)
    ensures IdList.HasKey(d.conversations, ConversationId, c.id) ==> e.conversations == d.conversations
    ensures !IdList.HasKey(d.conversations, ConversationId, c.id) ==> e.conversations == d.conversations + [c]
  {
    d.(currentConversation := Some(c),
       conversations := IdList.AppendIfAbsent(d.conversations, ConversationId, c))
  }

  /** `sendMessage.fulfilled`: the message is appended; an open conversation
      takes the message's content and timestamp as its preview and keeps its
      id, participants and unread count. The conversation list is not
      touched. */
  function Sent(d: Data, m: Message): (e: Data)
    ensures e.messages == d.messages + [m]
    ensures e.conversations == d.conversations
    ensures e.currentConversation.Some? <==> d.currentConversation.Some?
    ensures d.currentConversation.Some? ==>
      var c, c' := d.currentConversation.value, e.currentConversation.value;
      && c'.lastMessage == m.content && c'.lastMessageTimestamp == m.timestamp
      && c'.id == c.id && c'.participants == c.participants && c'.unreadCount == c.unreadCount
  {
    d.(messages := d.messages + [m],
       currentConversation :=
         match d.currentConversation
         case None => None
         case Some(c) => Some(c.(lastMessage := m.content, lastMessageTimestamp := m.timestamp)))
  }

  /** The read flag set, as a function value for `IdList.ModifyFirst`. */
  function SetRead(m: Message): Message {
    m.(isRead := true)
  }

  /** The loop of `markMessagesAsRead.fulfilled`: for each payload message in
      turn, the first local message with its id gets `isRead = true`. In
      sum: a local message is marked exactly when it is the first with its id
      and some payload message carries that id; every other message is left
      as it was. */
  function MarkRead(msgs: seq<Message>, payload: seq<Message>): (r: seq<Message>)
    ensures |r| == |msgs|
    ensures forall i :: 0 <= i < |msgs| ==>
      r[i] == if IdList.FirstOfKey(msgs, MessageId, i) && IdList.HasKey(payload, MessageId, msgs[i].id)
              then msgs[i].(isRead := true) else msgs[i]
    decreases |payload|
  {
    if payload == [] then msgs
    else
      var once := IdList.ModifyFirst(msgs, MessageId, payload[0].id, SetRead);
      assert forall i :: 0 <= i < |msgs| ==> once[i].id == msgs[i].id;
      assert forall i :: IdList.FirstOfKey(once, MessageId, i) <==> IdList.FirstOfKey(msgs, MessageId, i);
      assert forall id :: IdList.HasKey(payload, MessageId, id) <==>
        payload[0].id == id || IdList.HasKey(payload[1..], MessageId, id) by {
        forall id ensures IdList.HasKey(payload, MessageId, id) <==>
          payload[0].id == id || IdList.HasKey(payload[1..], MessageId, id) {
          if IdList.HasKey(payload, MessageId, id) && payload[0].id != id {
            var k :| 0 <= k < |payload| && MessageId(payload[k]) == id;
            assert MessageId(payload[1..][k - 1]) == id;
          }
          if IdList.HasKey(payload[1..], MessageId, id) {
            var k :| 0 <= k < |payload[1..]| && MessageId(payload[1..][k]) == id;
            assert MessageId(payload[k + 1]) == id;
          }
          if payload[0].id == id {
            assert MessageId(payload[0]) == id;
          }
        }
      }
      MarkRead(once, payload[1..])
  }

  /** `markMessagesAsRead.fulfilled`: the read flags as above; an open
      conversation's unread count drops to zero. */
  function MarkedRead(d: Data, payload: seq<Message>): (e: Data)
    ensures e.messages == MarkRead(d.messages, payload)
    ensures e.conversations == d.conversations
    ensures e.currentConversation.Some? <==> d.currentConversation.Some?
    ensures d.currentConversation.Some? ==>
      e.currentConversation.value == d.currentConversation.value.(unreadCount := 0)
  {
    d.(messages := MarkRead(d.messages, payload),
       currentConversation :=
         match d.currentConversation
         case None => None
         case Some(c) => Some(c.(unreadCount := 0)))
  }

  /** The slice reducer. */
  function Reduce(s: State, a: Action): (t: State)
    ensures a.Pending? ==> t.isLoading && t.error == None && t.data == s.data
    ensures a.Rejected? ==> !t.isLoading && t.error == Some(a.message) && t.data == s.data
    ensures a.SetCurrentConversation? ==>
      t == s.(data := s.data.(currentConversation := Some(a.conversation)))
    ensures a.AddMessage? ==>
      t.data.messages == s.data.messages + [a.added] && t.data.conversations == s.data.conversations
      && t.data.currentConversation == s.data.currentConversation
      && t.isLoading == s.isLoading && t.error == s.error
    ensures a.ClearCurrentConversation? ==>
      t.data.currentConversation == None && t.data.messages == []
      && t.data.conversations == s.data.conversations && t.isLoading == s.isLoading && t.error == s.error
    ensures a.ClearError? ==> t.error == None && t.data == s.data && t.isLoading == s.isLoading
    ensures (a.ConversationsFetched? || a.ConversationResolved? || a.MessagesFetched?
             || a.MessageSent? || a.MessagesMarkedRead?) ==> !t.isLoading && t.error == s.error
    ensures a.ConversationsFetched? ==> t.data == s.data.(conversations := a.conversations)
    ensures a.ConversationResolved? ==> t.data == Resolved(s.data, a.conversation)
    ensures a.MessagesFetched? ==> t.data == s.data.(messages := a.messages)
    ensures a.MessageSent? ==> t.data == Sent(s.data, a.sent)
    ensures a.MessagesMarkedRead? ==> t.data == MarkedRead(s.data, a.updated)
  {
    match a
    case SetCurrentConversation(c) => s.(data := s.data.(currentConversation := Some(c)))
    case AddMessage(m) => s.(data := s.data.(messages := s.data.messages + [m]))
    case ClearCurrentConversation => s.(data := s.data.(currentConversation := None, messages := []))
    case ClearError => Lifecycle.ClearError(s)
    case Pending(_) => Lifecycle.Start(s)
    case Rejected(_, m) => Lifecycle.Fail(s, m)
    case ConversationsFetched(l) => Lifecycle.Settle(s, s.data.(conversations := l))
    case ConversationResolved(c) => Lifecycle.Settle(s, Resolved(s.data, c))
    case MessagesFetched(l) => Lifecycle.Settle(s, s.data.(messages := l))
    case MessageSent(m) => Lifecycle.Settle(s, Sent(s.data, m))
    case MessagesMarkedRead(l) => Lifecycle.Settle(s, MarkedRead(s.data, l))
  }

  /** An attempt that fails changes only the two flags. */
  lemma FailedAttemptKeepsData(s: State, th: Thunk, m: string)
    ensures Reduce(Reduce(s, Action.Pending(th)), Rejected(th, m)) == s.(isLoading := false, error := Some(m))
  {
  }

  /** Resolving the same conversation twice leaves the same state as
      resolving it once. */
  lemma ResolveIdempotent(s: State, c: Conversation)
    ensures Reduce(Reduce(s, ConversationResolved(c)), ConversationResolved(c)) == Reduce(s, ConversationResolved(c))
  {
    IdList.AppendIfAbsentIdempotent(s.data.conversations, ConversationId, c);
  }

  /** Resolving never puts a second conversation with the same id in the
      list. */
  lemma ResolveKeepsIdsUnique(s: State, c: Conversation)
    requires IdList.UniqueKeys(s.data.conversations, ConversationId)
    ensures IdList.UniqueKeys(Reduce(s, ConversationResolved(c)).data.conversations, ConversationId)
  {
    IdList.AppendIfAbsentKeepsUnique(s.data.conversations, ConversationId, c);
  }

  // ---------------------------------------------------------------------
  // fetchOrCreateConversation

  /** The test `conv => conv.participants.includes(user)`. */
  function Involves(user: string): Conversation -> bool {
    (c: Conversation) => user in c.participants
  }

  /** The store's answer to "conversations whose participants contain
      `user`": the stored conversations that pass, in store order. */
  function Query(store: seq<Conversation>, user: string): (q: seq<Conversation>)
    ensures forall c :: c in q <==> c in store && user in c.participants
  {
    var q := Seqs.Filter(store, Involves(user));
    assert forall c :: c in store && user in c.participants ==> c in q by {
      forall c | c in store && user in c.participants ensures c in q {
        assert multiset(q)[c] == multiset(store)[c] > 0;
      }
    }
    q
  }

  /** `find(conv => conv.participants.includes(other))`: the first element
      whose participants include `other`. */
  function FirstInvolving(cs: seq<Conversation>, other: string): (r: Option<Conversation>)
    ensures r.None? <==> forall c :: c in cs ==> other !in c.participants
    ensures r.Some? ==> r.value in cs && other in r.value.participants
    ensures r.Some? ==>
      exists i :: 0 <= i < |cs| && cs[i] == r.value
                  && forall j :: 0 <= j < i ==> other !in cs[j].participants
  {
    if cs == [] then None
    else if other in cs[0].participants then Some(cs[0])
    else
      assert forall c :: c in cs ==> c == cs[0] || c in cs[1..];
      var r := FirstInvolving(cs[1..], other);
      assert r.Some? ==>
        exists i :: 0 <= i < |cs| && cs[i] == r.value
                    && forall j :: 0 <= j < i ==> other !in cs[j].participants by {
        if r.Some? {
          var i :| 0 <= i < |cs[1..]| && cs[1..][i] == r.value
            && forall j :: 0 <= j < i ==> other !in cs[1..][j].participants;
          assert forall j :: 0 <= j < i + 1 ==> other !in cs[j].participants by {
            forall j | 0 <= j < i + 1 ensures other !in cs[j].participants {
              if j > 0 { assert cs[j] == cs[1..][j - 1]; }
            }
          }
        }
      }
      r
  }

  /** Reference: the first stored conversation whose participants include
      both users. */
  function FirstWithBoth(store: seq<Conversation>, u: string, o: string): (r: Option<Conversation>)
    ensures r.None? <==> forall c :: c in store ==> !(u in c.participants && o in c.participants)
    ensures r.Some? ==> r.value in store && u in r.value.participants && o in r.value.participants
    ensures r.Some? ==>
      exists i :: 0 <= i < |store| && store[i] == r.value
                  && forall j :: 0 <= j < i ==> !(u in store[j].participants && o in store[j].participants)
  {
    if store == [] then None
    else if u in store[0].participants && o in store[0].participants then Some(store[0])
    else
      assert forall c :: c in store ==> c == store[0] || c in store[1..];
      var r := FirstWithBoth(store[1..], u, o);
      assert r.Some? ==>
        exists i :: 0 <= i < |store| && store[i] == r.value
                    && forall j :: 0 <= j < i ==> !(u in store[j].participants && o in store[j].participants) by {
        if r.Some? {
          var i :| 0 <= i < |store[1..]| && store[1..][i] == r.value
            && forall j :: 0 <= j < i ==> !(u in store[1..][j].participants && o in store[1..][j].participants);
          assert forall j :: 0 <= j < i + 1 ==> !(u in store[j].participants && o in store[j].participants) by {
            forall j | 0 <= j < i + 1 ensures !(u in store[j].participants && o in store[j].participants) {
              if j > 0 { assert store[j] == store[1..][j - 1]; }
            }
          }
        }
      }
      r
  }

  /** Which pair member is asked first does not matter for the reference. */
  lemma {:induction false} FirstWithBothSymmetric(store: seq<Conversation>, u: string, o: string)
    ensures FirstWithBoth(store, u, o) == FirstWithBoth(store, o, u)
  {
    if store != [] {
      FirstWithBothSymmetric(store[1..], u, o);
    }
  }

  /** Querying by `u` and then finding the first that includes `o` picks
      the first stored conversation with both. */
  lemma {:induction false} LookupFindsFirstWithBoth(store: seq<Conversation>, u: string, o: string)
    ensures FirstInvolving(Query(store, u), o) == FirstWithBoth(store, u, o)
  {
    if store != [] {
      LookupFindsFirstWithBoth(store[1..], u, o);
      var x, rest := store[0], Query(store[1..], u);
      assert store == [x] + store[1..];
      Seqs.FilterConcat([x], store[1..], Involves(u));
      if u in x.participants {
        assert Seqs.Filter([x], Involves(u)) == [x];
        assert Query(store, u) == [x] + rest;
        assert ([x] + rest)[1..] == rest;
      } else {
        assert Seqs.Filter([x], Involves(u)) == [];
        assert Query(store, u) == rest;
      }
    }
  }

  /** The record written when no conversation exists yet. */
  function NewConversation(id: string, userId: string, otherUserId: string, now: nat): (c: Conversation)
    ensures c.id == id && c.participants == [userId, otherUserId]
    ensures c.lastMessage == "" && c.lastMessageTimestamp == now && c.unreadCount == 0
  {
    Conversation(id, [userId, otherUserId], "", now, 0)
  }

  /** What `fetchOrCreateConversation` settles with: the conversation, and
      whether it was written just now. */
  datatype Resolution = Resolution(conversation: Conversation, created: bool)

  /** `fetchOrCreateConversation` over the stored conversations `store`:
      the first stored conversation whose participants include both users;
      failing that, a new conversation written under the id the store
      assigns, or the write's failure. */
  function FetchOrCreate(store: seq<Conversation>, userId: string, otherUserId: string,
                         add: Write<string>, now: nat): (r: Result<Resolution>)
    ensures FirstWithBoth(store, userId, otherUserId).Some? ==>
      r == Ok(Resolution(FirstWithBoth(store, userId, otherUserId).value, false))
    ensures FirstWithBoth(store, userId, otherUserId).None? && add.Written? ==>
      r == Ok(Resolution(NewConversation(add.value, userId, otherUserId, now), true))
    ensures FirstWithBoth(store, userId, otherUserId).None? && add.WriteFailed? ==>
      r == Err(add.message)
  {
    LookupFindsFirstWithBoth(store, userId, otherUserId);
    match FirstInvolving(Query(store, userId), otherUserId)
    case Some(c) => Ok(Resolution(c, false))
    case None =>
      match add
      case WriteFailed(m) => Err(m)
      case Written(id) => Ok(Resolution(NewConversation(id, userId, otherUserId, now), true))
  }

  /** The stored conversations after a lookup-or-create settled. The
      store's query has no ordering, so a new conversation may come back at
      any position `at` among the older ones. */
  function StoreAfter(store: seq<Conversation>, r: Result<Resolution>, at: nat): seq<Conversation>
    requires at <= |store|
  {
    if r.Ok? && r.value.created then store[..at] + [r.value.conversation] + store[at..] else store
  }

  /** A conversation appended to a store where no conversation had both
      users is the first with both. */
  lemma {:induction false} AppendedIsFirstWithBoth(store: seq<Conversation>, c: Conversation, u: string, o: string)
    requires FirstWithBoth(store, u, o).None?
    requires u in c.participants && o in c.participants
    ensures FirstWithBoth(store + [c], u, o) == Some(c)
  {
    if store == [] {
      assert store + [c] == [c];
    } else {
      assert (store + [c])[1..] == store[1..] + [c];
      AppendedIsFirstWithBoth(store[1..], c, u, o);
    }
  }

  /** A conversation with both users placed anywhere in a store where no
      conversation had both is the first with both. */
  lemma {:induction false} InsertedIsFirstWithBoth(pre: seq<Conversation>, post: seq<Conversation>,
                                                   c: Conversation, u: string, o: string)
    requires FirstWithBoth(pre + post, u, o).None?
    requires u in c.participants && o in c.participants
    ensures FirstWithBoth(pre + [c] + post, u, o) == Some(c)
  {
    if pre == [] {
      assert pre + [c] + post == [c] + post;
    } else {
      assert (pre + post)[0] == pre[0] && (pre + post)[1..] == pre[1..] + post;
      assert (pre + [c] + post)[0] == pre[0];
      assert (pre + [c] + post)[1..] == pre[1..] + [c] + post;
      InsertedIsFirstWithBoth(pre[1..], post, c, u, o);
    }
  }

  /** With nothing in between, asking again for the same pair — in either
      order — finds the conversation the first call settled with and creates
      nothing, wherever the store places a newly created conversation: one
      conversation per pair when calls do not overlap. */
  lemma FetchOrCreateIsStable(store: seq<Conversation>, userId: string, otherUserId: string,
                              add: Write<string>, now: nat, add': Write<string>, now': nat, at: nat)
    requires FetchOrCreate(store, userId, otherUserId, add, now).Ok?
    requires at <= |store|
    ensures var r := FetchOrCreate(store, userId, otherUserId, add, now);
      && FetchOrCreate(StoreAfter(store, r, at), userId, otherUserId, add', now')
           == Ok(Resolution(r.value.conversation, false))
      && FetchOrCreate(StoreAfter(store, r, at), otherUserId, userId, add', now')
           == Ok(Resolution(r.value.conversation, false))
  {
    var r := FetchOrCreate(store, userId, otherUserId, add, now);
    if r.value.created {
      assert store[..at] + store[at..] == store;
      InsertedIsFirstWithBoth(store[..at], store[at..], r.value.conversation, userId, otherUserId);
      FirstWithBothSymmetric(StoreAfter(store, r, at), userId, otherUserId);
    } else {
      FirstWithBothSymmetric(store, userId, otherUserId);
    }
  }

  // ---------------------------------------------------------------------
  // sendMessage

  /** The message `sendMessage` writes and returns: unread. */
  function NewMessage(id: string, conversationId: string, senderId: string, receiverId: string,
                      content: string, now: nat): (m: Message)
    ensures !m.isRead
    ensures m.id == id && m.conversationId == conversationId && m.senderId == senderId
      && m.receiverId == receiverId && m.content == content && m.timestamp == now
  {
    Message(id, conversationId, senderId, receiverId, content, now, false)
  }

  /** The stored conversation after a send's update: the preview follows the
      message, and the unread count is set to the literal 1 — not
      incremented. */
  function AfterSend(c: Conversation, content: string, now: nat): (c': Conversation)
    ensures c'.lastMessage == content && c'.lastMessageTimestamp == now && c'.unreadCount == 1
    ensures c'.id == c.id && c'.participants == c.participants
  {
    c.(lastMessage := content, lastMessageTimestamp := now, unreadCount := 1)
  }

  datatype Send = Send(content: string, time: nat)

  /** The stored conversation after a run of sends, oldest first. */
  function AfterSends(c: Conversation, sends: seq<Send>): Conversation
    decreases |sends|
  {
    if sends == [] then c else AfterSends(AfterSend(c, sends[0].content, sends[0].time), sends[1..])
  }

  /** However many messages were sent, the stored unread count reads 1 and the
      preview is the last message. */
  lemma {:induction false} UnreadStaysOne(c: Conversation, sends: seq<Send>)
    requires |sends| > 0
    ensures AfterSends(c, sends).unreadCount == 1
    ensures AfterSends(c, sends).lastMessage == sends[|sends| - 1].content
    decreases |sends|
  {
    if |sends| > 1 {
      UnreadStaysOne(AfterSend(c, sends[0].content, sends[0].time), sends[1..]);
      assert sends[1..][|sends[1..]| - 1] == sends[|sends| - 1];
    }
  }

  /** `sendMessage`: the message write, then the conversation update. Either
      failure rejects with its message; a failed update leaves the message
      written but the thunk rejected. */
  function SendMessageResult(conversationId: string, senderId: string, receiverId: string,
                             content: string, now: nat,
                             add: Write<string>, update: Write<()>): (r: Result<Message>)
    ensures r.Ok? <==> add.Written? && update.Written?
    ensures add.WriteFailed? ==> r == Err(add.message)
    ensures add.Written? && update.WriteFailed? ==> r == Err(update.message)
    ensures r.Ok? ==> r.value == NewMessage(add.value, conversationId, senderId, receiverId, content, now)
  {
    match add
    case WriteFailed(m) => Err(m)
    case Written(id) =>
      match update
      case WriteFailed(m) => Err(m)
      case Written(_) => Ok(NewMessage(id, conversationId, senderId, receiverId, content, now))
  }

  // ---------------------------------------------------------------------
  // markMessagesAsRead

  /** A message of conversation `cid`, addressed to `uid`, not yet read. */
  predicate AwaitsReading(m: Message, cid: string, uid: string) {
    m.conversationId == cid && m.receiverId == uid && !m.isRead
  }

  function AwaitingTest(cid: string, uid: string): Message -> bool {
    (m: Message) => AwaitsReading(m, cid, uid)
  }

  /** Every message with the read flag set. */
  function AllRead(xs: seq<Message>): (r: seq<Message>)
    ensures |r| == |xs|
    ensures forall i :: 0 <= i < |xs| ==> r[i] == xs[i].(isRead := true)
  {
    if xs == [] then [] else [xs[0].(isRead := true)] + AllRead(xs[1..])
  }

  /** The payload of `markMessagesAsRead`: the stored messages the query
      selects — conversation `cid`, addressed to `uid`, unread — returned
      with the flag set. */
  function ReadReceipts(store: seq<Message>, cid: string, uid: string): (r: seq<Message>)
    ensures forall m :: m in store && AwaitsReading(m, cid, uid) ==> IdList.HasKey(r, MessageId, m.id)
    ensures forall i :: 0 <= i < |r| ==> r[i].isRead && r[i].conversationId == cid && r[i].receiverId == uid
    ensures forall i :: 0 <= i < |r| ==>
      exists m :: m in store && AwaitsReading(m, cid, uid) && r[i] == m.(isRead := true)
  {
    var selected := Seqs.Filter(store, AwaitingTest(cid, uid));
    var r := AllRead(selected);
    assert forall m :: m in store && AwaitsReading(m, cid, uid) ==> IdList.HasKey(r, MessageId, m.id) by {
      forall m | m in store && AwaitsReading(m, cid, uid) ensures IdList.HasKey(r, MessageId, m.id) {
        assert multiset(selected)[m] > 0;
        var k :| 0 <= k < |selected| && selected[k] == m;
        assert MessageId(r[k]) == m.id;
      }
    }
    assert forall i :: 0 <= i < |r| ==> selected[i] in store && AwaitsReading(selected[i], cid, uid) by {
      forall i | 0 <= i < |r| ensures selected[i] in store && AwaitsReading(selected[i], cid, uid) {
        assert selected[i] in selected;
      }
    }
    r
  }

  /** Marking read with the receipts the store returns leaves no local
      message of that conversation waiting for `uid`, provided the local
      messages have distinct ids and were loaded from the store; the open
      conversation's unread count is zero afterwards. */
  lemma MarkReadClearsUnread(s: State, store: seq<Message>, cid: string, uid: string)
    requires IdList.UniqueKeys(s.data.messages, MessageId)
    requires forall m :: m in s.data.messages && AwaitsReading(m, cid, uid) ==> m in store
    ensures var t := Reduce(s, MessagesMarkedRead(ReadReceipts(store, cid, uid)));
      && (forall m :: m in t.data.messages ==> !AwaitsReading(m, cid, uid))
      && (t.data.currentConversation.Some? ==> t.data.currentConversation.value.unreadCount == 0)
  {
    var msgs := s.data.messages;
    var receipts := ReadReceipts(store, cid, uid);
    var r := MarkRead(msgs, receipts);
    forall m | m in r ensures !AwaitsReading(m, cid, uid) {
      var i :| 0 <= i < |r| && r[i] == m;
      if AwaitsReading(msgs[i], cid, uid) {
        assert msgs[i] in msgs;
        assert IdList.FirstOfKey(msgs, MessageId, i);
      }
    }
  }
}
