/** The messages page: grouping the user's messages into one conversation
    per counterpart, resetting a conversation's unread count when it is
    opened, searching conversations by name, and the guard on sending. */
module Messages {
  import opened Rental
  import opened Text
  import Seqs

  datatype User = User(id: UserId, name: string)

  /** A row of the messages table joined with both users' records. */
  datatype Message = Message(sender: User, receiver: User, isRead: bool, text: string)

  datatype Conversation = Conversation(otherUser: User, lastMessage: Message, unreadCount: nat)

  /** The other party of a message: its receiver when the user sent it,
      its sender otherwise. */
  function Counterpart(m: Message, me: UserId): (u: User)
    ensures m.sender.id == me ==> u == m.receiver
    ensures m.sender.id != me ==> u == m.sender
  {
    if m.sender.id == me then m.receiver else m.sender
  }

  function CounterpartId(m: Message, me: UserId): UserId {
    Counterpart(m, me).id
  }

  /** The counterpart of each message, in list order. */
  function Ids(msgs: seq<Message>, me: UserId): (r: seq<UserId>)
    ensures |r| == |msgs|
    ensures forall k :: 0 <= k < |msgs| ==> r[k] == CounterpartId(msgs[k], me)
  {
    seq(|msgs|, k requires 0 <= k < |msgs| => CounterpartId(msgs[k], me))
  }

  /** The position of the first message with the given counterpart; in a
      newest-first list, that counterpart's newest message. */
  function FirstIndex(msgs: seq<Message>, me: UserId, id: UserId): (k: nat)
    requires id in Ids(msgs, me)
    ensures k < |msgs| && CounterpartId(msgs[k], me) == id
    ensures forall j :: 0 <= j < k ==> CounterpartId(msgs[j], me) != id
  {
    Seqs.IndexOf(Ids(msgs, me), id)
  }

  /** A message the user received and has not read, exchanged with `id`. */
  function UnreadWith(me: UserId, id: UserId): Message -> bool {
    (m: Message) => CounterpartId(m, me) == id && m.receiver.id == me && !m.isRead
  }

  /** How many of the messages exchanged with `id` the user received and has
      not read. */
  function UnreadCount(msgs: seq<Message>, me: UserId, id: UserId): (n: nat)
    ensures n <= |msgs|
    ensures id !in Ids(msgs, me) ==> n == 0
  {
    var unread := Seqs.Filter(msgs, UnreadWith(me, id));
    assert id !in Ids(msgs, me) ==> unread == [] by {
      if unread != [] {
        assert unread[0] in unread;
        var j :| 0 <= j < |msgs| && msgs[j] == unread[0];
        assert Ids(msgs, me)[j] == id;
      }
    }
    |unread|
  }

  /** One more message at the end adds one to the unread count of its
      counterpart when the user received it unread, and nothing otherwise. */
  lemma UnreadCountSnoc(msgs: seq<Message>, m: Message, me: UserId, id: UserId)
    ensures UnreadCount(msgs + [m], me, id) ==
      UnreadCount(msgs, me, id) + (if UnreadWith(me, id)(m) then 1 else 0)
  {
    Seqs.FilterSnoc(msgs, m, UnreadWith(me, id));
  }

  /** The shape of what the grouping loop has built after reading messages
      whose counterparts, in order, are `ids`: `index` maps each counterpart
      seen so far to its position in `convs`; counterparts are distinct and
      in order of first appearance; each conversation holds the first
      message exchanged with its counterpart. */
  ghost predicate Shaped(convs: seq<Conversation>, index: map<UserId, nat>, ids: seq<UserId>, msgs: seq<Message>, me: UserId)
    requires |ids| == |msgs|
  {
    Keyed(convs, index, ids) && Distinct(convs) && FirstMessages(convs, ids, msgs, me) && FirstSeenOrder(convs, ids)
  }

  /** `index` knows exactly the counterparts seen and where each one's
      conversation is. */
  ghost predicate Keyed(convs: seq<Conversation>, index: map<UserId, nat>, ids: seq<UserId>) {
    && (forall id :: id in index <==> id in ids)
    && (forall id :: id in index ==> index[id] < |convs| && convs[index[id]].otherUser.id == id)
  }

  ghost predicate Distinct(convs: seq<Conversation>) {
    forall a, b :: 0 <= a < b < |convs| ==> convs[a].otherUser.id != convs[b].otherUser.id
  }

  /** Each conversation is with a counterpart seen, and holds the first
      message exchanged with it. */
  ghost predicate FirstMessages(convs: seq<Conversation>, ids: seq<UserId>, msgs: seq<Message>, me: UserId)
    requires |ids| == |msgs|
  {
    && (forall k :: 0 <= k < |convs| ==> convs[k].otherUser.id in ids)
    && (forall k :: 0 <= k < |convs| ==> convs[k].lastMessage == msgs[Seqs.IndexOf(ids, convs[k].otherUser.id)])
    && (forall k :: 0 <= k < |convs| ==> convs[k].otherUser == Counterpart(convs[k].lastMessage, me))
  }

  /** Conversations are in the order their counterparts first appear. */
  ghost predicate FirstSeenOrder(convs: seq<Conversation>, ids: seq<UserId>) {
    && (forall k :: 0 <= k < |convs| ==> convs[k].otherUser.id in ids)
    && (forall a, b :: 0 <= a < b < |convs| ==>
          Seqs.IndexOf(ids, convs[a].otherUser.id) < Seqs.IndexOf(ids, convs[b].otherUser.id))
  }

  /** Each conversation's count is the number of unread messages received
      from its counterpart among `msgs`. */
  ghost predicate Counted(convs: seq<Conversation>, msgs: seq<Message>, me: UserId) {
    forall k :: 0 <= k < |convs| ==> convs[k].unreadCount == UnreadCount(msgs, me, convs[k].otherUser.id)
  }

  /** The grouping loop of `fetchConversations` over the newest-first list
      of the user's messages. A map from counterpart id to position plays
      the part of the `Map`, whose values come out in insertion order. The
      result has one conversation per counterpart, in order of first
      appearance; each holds that counterpart's newest message and the
      number of messages from it the user has not read. */
  method GroupConversations(msgs: seq<Message>, me: UserId) returns (convs: seq<Conversation>)
    ensures forall a, b :: 0 <= a < b < |convs| ==> convs[a].otherUser.id != convs[b].otherUser.id
    ensures forall id :: id in Ids(msgs, me) <==> exists k :: 0 <= k < |convs| && convs[k].otherUser.id == id
    ensures forall k :: 0 <= k < |convs| ==>
      && convs[k].otherUser.id in Ids(msgs, me)
      && convs[k].lastMessage == msgs[FirstIndex(msgs, me, convs[k].otherUser.id)]
      && convs[k].otherUser == Counterpart(convs[k].lastMessage, me)
      && convs[k].unreadCount == UnreadCount(msgs, me, convs[k].otherUser.id)
    ensures forall a, b :: 0 <= a < b < |convs| ==>
      FirstIndex(msgs, me, convs[a].otherUser.id) < FirstIndex(msgs, me, convs[b].otherUser.id)
  {
    convs := [];
    var index: map<UserId, nat> := map[];
    var i := 0;
    while i < |msgs|
      invariant 0 <= i <= |msgs|
      invariant Shaped(convs, index, Ids(msgs[..i], me), msgs[..i], me)
      invariant Counted(convs, msgs[..i], me)
    {
      assert msgs[..i + 1] == msgs[..i] + [msgs[i]];
      IdsSnoc(msgs[..i], msgs[i], me);
      convs, index := Open(convs, index, Ids(msgs[..i], me), msgs[..i], msgs[i], me);
      convs := Bump(convs, index, msgs[..i], msgs[i], me);
      i := i + 1;
    }
    assert msgs[..i] == msgs;
    forall id | id in Ids(msgs, me)
      ensures exists k :: 0 <= k < |convs| && convs[k].otherUser.id == id
    {
      assert convs[index[id]].otherUser.id == id;
    }
  }

  /** The `if (!conversationMap.has(otherUserId))` branch: a message with a
      new counterpart opens a conversation holding it and no unread
      messages. */
  method Open(convs: seq<Conversation>, index: map<UserId, nat>, ids: seq<UserId>, msgs: seq<Message>, m: Message, me: UserId)
    returns (convs': seq<Conversation>, index': map<UserId, nat>)
    requires |ids| == |msgs|
    requires Shaped(convs, index, ids, msgs, me) && Counted(convs, msgs, me)
    requires forall id :: id !in ids ==> UnreadCount(msgs, me, id) == 0
    ensures Shaped(convs', index', ids + [CounterpartId(m, me)], msgs + [m], me) && Counted(convs', msgs, me)
  {
    var id := CounterpartId(m, me);
    if id in index {
      SeenAgain(convs, index, ids, msgs, m, me);
      return convs, index;
    }
    index' := index[id := |convs|];
    convs' := convs + [Conversation(Counterpart(m, me), m, 0)];
    SeenFirst(convs, index, ids, msgs, m, me);
  }

  /** A message whose counterpart already has a conversation leaves the
      shape as it was. */
  lemma SeenAgain(convs: seq<Conversation>, index: map<UserId, nat>, ids: seq<UserId>, msgs: seq<Message>, m: Message, me: UserId)
    requires |ids| == |msgs|
    requires Shaped(convs, index, ids, msgs, me)
    requires CounterpartId(m, me) in ids
    ensures Shaped(convs, index, ids + [CounterpartId(m, me)], msgs + [m], me)
  {
    var ids', msgs' := ids + [CounterpartId(m, me)], msgs + [m];
    Seqs.IndexOfSnoc(ids, CounterpartId(m, me));
    forall k | 0 <= k < |convs|
      ensures convs[k].lastMessage == msgs'[Seqs.IndexOf(ids', convs[k].otherUser.id)]
    {
      assert msgs'[Seqs.IndexOf(ids, convs[k].otherUser.id)] == msgs[Seqs.IndexOf(ids, convs[k].otherUser.id)];
    }
  }

  /** A message with a new counterpart, appended as a conversation at the
      end, keeps the shape. */
  lemma SeenFirst(convs: seq<Conversation>, index: map<UserId, nat>, ids: seq<UserId>, msgs: seq<Message>, m: Message, me: UserId)
    requires |ids| == |msgs|
    requires Shaped(convs, index, ids, msgs, me)
    requires CounterpartId(m, me) !in ids
    ensures Shaped(convs + [Conversation(Counterpart(m, me), m, 0)], index[CounterpartId(m, me) := |convs|],
                   ids + [CounterpartId(m, me)], msgs + [m], me)
  {
    var id := CounterpartId(m, me);
    var convs' := convs + [Conversation(Counterpart(m, me), m, 0)];
    assert forall k :: 0 <= k < |convs| ==> convs[k].otherUser.id != id;
    SeenFirstKeyed(convs, index, ids, id, Conversation(Counterpart(m, me), m, 0));
    SeenFirstMessages(convs, ids, msgs, m, me);
    SeenFirstOrder(convs, ids, Conversation(Counterpart(m, me), m, 0));
  }

  lemma SeenFirstKeyed(convs: seq<Conversation>, index: map<UserId, nat>, ids: seq<UserId>, id: UserId, c: Conversation)
    requires Keyed(convs, index, ids) && id !in ids && c.otherUser.id == id
    ensures Keyed(convs + [c], index[id := |convs|], ids + [id])
  {
    assert forall k :: 0 <= k < |convs| ==> (convs + [c])[k] == convs[k];
  }

  lemma SeenFirstMessages(convs: seq<Conversation>, ids: seq<UserId>, msgs: seq<Message>, m: Message, me: UserId)
    requires |ids| == |msgs| && FirstMessages(convs, ids, msgs, me) && CounterpartId(m, me) !in ids
    ensures FirstMessages(convs + [Conversation(Counterpart(m, me), m, 0)], ids + [CounterpartId(m, me)], msgs + [m], me)
  {
    var convs', ids', msgs' := convs + [Conversation(Counterpart(m, me), m, 0)], ids + [CounterpartId(m, me)], msgs + [m];
    Seqs.IndexOfSnoc(ids, CounterpartId(m, me));
    forall k | 0 <= k < |convs'|
      ensures convs'[k].otherUser.id in ids'
      ensures convs'[k].lastMessage == msgs'[Seqs.IndexOf(ids', convs'[k].otherUser.id)]
    {
      if k < |convs| {
        assert convs'[k] == convs[k];
        assert msgs'[Seqs.IndexOf(ids, convs[k].otherUser.id)] == msgs[Seqs.IndexOf(ids, convs[k].otherUser.id)];
      }
    }
  }

  lemma SeenFirstOrder(convs: seq<Conversation>, ids: seq<UserId>, c: Conversation)
    requires FirstSeenOrder(convs, ids) && c.otherUser.id !in ids
    ensures FirstSeenOrder(convs + [c], ids + [c.otherUser.id])
  {
    var convs', ids' := convs + [c], ids + [c.otherUser.id];
    Seqs.IndexOfSnoc(ids, c.otherUser.id);
    assert forall k :: 0 <= k < |convs| ==> convs'[k] == convs[k];
  }

  /** The unread increment: a message the user received unread adds one to
      its counterpart's conversation. */
  method Bump(convs: seq<Conversation>, index: map<UserId, nat>, msgs: seq<Message>, m: Message, me: UserId)
    returns (convs': seq<Conversation>)
    requires Shaped(convs, index, Ids(msgs + [m], me), msgs + [m], me) && Counted(convs, msgs, me)
    ensures Shaped(convs', index, Ids(msgs + [m], me), msgs + [m], me) && Counted(convs', msgs + [m], me)
  {
    var id := CounterpartId(m, me);
    assert id in Ids(msgs + [m], me) by {
      assert Ids(msgs + [m], me)[|msgs|] == id;
    }
    var k := index[id];
    convs' := convs;
    if m.receiver.id == me && !m.isRead {
      convs' := convs[k := convs[k].(unreadCount := convs[k].unreadCount + 1)];
      ShapedFrame(convs, convs', index, Ids(msgs + [m], me), msgs + [m], me);
    }
    CountedStep(convs, convs', msgs, m, me, k);
  }

  /** Counting one more message: only the conversation with the message's
      counterpart can change, and it grows by one exactly when the message
      is unread and addressed to the user. */
  lemma CountedStep(convs: seq<Conversation>, convs': seq<Conversation>, msgs: seq<Message>, m: Message, me: UserId, k: int)
    requires Distinct(convs) && Counted(convs, msgs, me)
    requires 0 <= k < |convs| && convs[k].otherUser.id == CounterpartId(m, me)
    requires |convs'| == |convs|
    requires forall j :: 0 <= j < |convs| ==> convs'[j].otherUser == convs[j].otherUser
    requires forall j :: 0 <= j < |convs| && j != k ==> convs'[j].unreadCount == convs[j].unreadCount
    requires convs'[k].unreadCount == convs[k].unreadCount + (if m.receiver.id == me && !m.isRead then 1 else 0)
    ensures Counted(convs', msgs + [m], me)
  {
    forall j | 0 <= j < |convs'|
      ensures convs'[j].unreadCount == UnreadCount(msgs + [m], me, convs'[j].otherUser.id)
    {
      UnreadCountSnoc(msgs, m, me, convs[j].otherUser.id);
    }
  }

  /** The shape depends only on each conversation's counterpart and last
      message, not on its count. */
  lemma ShapedFrame(convs: seq<Conversation>, convs': seq<Conversation>, index: map<UserId, nat>,
                    ids: seq<UserId>, msgs: seq<Message>, me: UserId)
    requires |ids| == |msgs| && |convs'| == |convs|
    requires forall k :: 0 <= k < |convs| ==>
      convs'[k].otherUser == convs[k].otherUser && convs'[k].lastMessage == convs[k].lastMessage
    requires Shaped(convs, index, ids, msgs, me)
    ensures Shaped(convs', index, ids, msgs, me)
  {
  }

  /** Appending a message appends its counterpart. */
  lemma IdsSnoc(msgs: seq<Message>, m: Message, me: UserId)
    ensures Ids(msgs + [m], me) == Ids(msgs, me) + [CounterpartId(m, me)]
  {
  }

  /** The local update after a conversation is opened: its unread count
      becomes 0 and every other conversation is left as it was. */
  function ResetUnread(convs: seq<Conversation>, id: UserId): (r: seq<Conversation>)
    ensures |r| == |convs|
    ensures forall k :: 0 <= k < |convs| && convs[k].otherUser.id == id ==>
      r[k].unreadCount == 0 && r[k].(unreadCount := convs[k].unreadCount) == convs[k]
    ensures forall k :: 0 <= k < |convs| && convs[k].otherUser.id != id ==> r[k] == convs[k]
  {
    if convs == [] then []
    else
      var head := if convs[0].otherUser.id == id then convs[0].(unreadCount := 0) else convs[0];
      [head] + ResetUnread(convs[1..], id)
  }

  /** The sum of the unread badges. */
  function TotalUnread(convs: seq<Conversation>): nat {
    if convs == [] then 0 else convs[0].unreadCount + TotalUnread(convs[1..])
  }

  /** Opening the conversation at position k removes exactly its own badge
      from the total when counterparts are distinct, and opening it twice
      is the same as opening it once. */
  lemma {:induction false} ResetRemovesOneBadge(convs: seq<Conversation>, k: int)
    requires 0 <= k < |convs|
    requires forall a, b :: 0 <= a < b < |convs| ==> convs[a].otherUser.id != convs[b].otherUser.id
    ensures TotalUnread(ResetUnread(convs, convs[k].otherUser.id)) == TotalUnread(convs) - convs[k].unreadCount
    ensures ResetUnread(ResetUnread(convs, convs[k].otherUser.id), convs[k].otherUser.id) ==
            ResetUnread(convs, convs[k].otherUser.id)
  {
    var id := convs[k].otherUser.id;
    if k == 0 {
      NoMatchUnchanged(convs[1..], id);
      assert ResetUnread(convs, id) == [convs[0].(unreadCount := 0)] + convs[1..];
    } else {
      ResetRemovesOneBadge(convs[1..], k - 1);
    }
  }

  /** A reset for a counterpart not in the list changes nothing. */
  lemma {:induction false} NoMatchUnchanged(convs: seq<Conversation>, id: UserId)
    requires forall k :: 0 <= k < |convs| ==> convs[k].otherUser.id != id
    ensures ResetUnread(convs, id) == convs
  {
    if convs != [] {
      NoMatchUnchanged(convs[1..], id);
    }
  }

  /** The write that accompanies opening a conversation: every message the
      user received from that counterpart becomes read. */
  function MarkConversationRead(msgs: seq<Message>, me: UserId, other: UserId): (r: seq<Message>)
    ensures |r| == |msgs|
    ensures forall k :: 0 <= k < |msgs| ==>
      r[k] == if msgs[k].receiver.id == me && msgs[k].sender.id == other then msgs[k].(isRead := true) else msgs[k]
  {
    seq(|msgs|, k requires 0 <= k < |msgs| =>
      if msgs[k].receiver.id == me && msgs[k].sender.id == other then msgs[k].(isRead := true) else msgs[k])
  }

  /** The local reset agrees with the database: after the write, grouping
      the messages again finds no unread message from the opened
      counterpart, and every other counterpart's count is unchanged. */
  lemma {:induction false} RefetchAgreesWithReset(msgs: seq<Message>, me: UserId, other: UserId, id: UserId)
    ensures UnreadCount(MarkConversationRead(msgs, me, other), me, other) == 0
    ensures id != other ==> UnreadCount(MarkConversationRead(msgs, me, other), me, id) == UnreadCount(msgs, me, id)
  {
    if msgs != [] {
      var marked := MarkConversationRead(msgs, me, other);
      assert marked[1..] == MarkConversationRead(msgs[1..], me, other);
      RefetchAgreesWithReset(msgs[1..], me, other, id);
      assert marked == [marked[0]] + marked[1..];
    }
  }

  /** The conversation search: the counterpart's name contains the term,
      ignoring case. */
  function NameMatches(term: string): Conversation -> bool {
    (c: Conversation) => Contains(ToLower(c.otherUser.name), ToLower(term))
  }

  /** `filteredConversations`: exactly the conversations whose counterpart's
      name contains the search term, in list order; an empty term keeps
      them all. */
  function FilterConversations(convs: seq<Conversation>, term: string): (r: seq<Conversation>)
    ensures forall c :: c in r <==> c in convs && Contains(ToLower(c.otherUser.name), ToLower(term))
    ensures Seqs.IsSubsequence(r, convs)
    ensures term == "" ==> r == convs
  {
    if term == "" then
      forall c | c in convs
        ensures NameMatches(term)(c)
      {
        ContainsEmpty(ToLower(c.otherUser.name));
      }
      Seqs.FilterKeepsAll(convs, NameMatches(term));
      Seqs.Filter(convs, NameMatches(term))
    else
      Seqs.Filter(convs, NameMatches(term))
  }

  /** The row `sendMessage` inserts. */
  datatype Outgoing = Outgoing(senderId: UserId, receiverId: UserId, text: string)

  /** `sendMessage`: nothing is sent when the draft is only whitespace or no
      conversation is open; otherwise the trimmed draft goes to the open
      conversation's counterpart. */
  function SendMessage(me: UserId, draft: string, selected: Option<Conversation>): (r: Option<Outgoing>)
    ensures r.None? <==> selected.None? || forall k :: 0 <= k < |draft| ==> IsWhitespace(draft[k])
    ensures r.Some? ==>
      && r.value.senderId == me
      && r.value.receiverId == selected.value.otherUser.id
      && r.value.text == Trim(draft)
      && r.value.text != []
      && !IsWhitespace(r.value.text[0]) && !IsWhitespace(r.value.text[|r.value.text| - 1])
  {
    TrimEmptyIff(draft);
    TrimEnds(draft);
    var text := Trim(draft);
    if text == [] || selected.None? then None
    else Some(Outgoing(me, selected.value.otherUser.id, text))
  }
}
