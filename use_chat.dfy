/** The chat hook: paged loading of a chat's messages, realtime appends and
    sending (src/components/chats/useChat.ts). */
module UseChat {
  import opened Wrappers

  datatype Message = Message(id: string, chatId: string, senderId: string,
                             content: string, createdAt: int)

  /** The row `sendMessage` inserts; the table fills in id and time. */
  datatype NewMessage = NewMessage(chatId: string, senderId: string, content: string)

  /** The hook's state: `messages`, `offset`, `hasMore`. */
  datatype ChatState = ChatState(messages: seq<Message>, offset: nat, hasMore: bool)

  const DefaultPageSize: nat := 50

  /** The state before the first fetch. */
  const Start: ChatState := ChatState([], 0, true)

  function Min(a: nat, b: nat): nat {
    if a <= b then a else b
  }

  /** `.range(offset, offset + pageSize - 1)` over the chat's messages in
      `created_at` order: the rows from `offset` on, at most `pageSize` of
      them. */
  function Page(rows: seq<Message>, offset: nat, pageSize: nat): (page: seq<Message>)
    ensures |page| == (if offset >= |rows| then 0 else Min(pageSize, |rows| - offset))
    ensures |page| <= pageSize
    ensures offset < |rows| ==> page == rows[offset..offset + |page|]
  {
    if offset >= |rows| then [] else rows[offset..offset + Min(pageSize, |rows| - offset)]
  }

  /** One `fetchMessages(initial)` as written. `rows` is the chat's messages
      in ascending `created_at` order, None when the query failed (no data). */
  function FetchStep(s: ChatState, initial: bool, rows: Option<seq<Message>>, pageSize: nat): (r: ChatState)
    ensures !s.hasMore && !initial ==> r == s
    ensures s.offset <= r.offset <= s.offset + pageSize
    ensures !s.hasMore ==> !r.hasMore
    ensures r.offset == s.offset ==> r.messages == s.messages && (s.hasMore || initial ==> !r.hasMore)
    ensures r.offset > s.offset ==> (rows.Some? &&
      var page := Page(rows.value, s.offset, pageSize);
      r.offset == s.offset + |page|
      && r.messages == (if initial then page else page + s.messages)
      && (r.hasMore <==> s.hasMore && |page| == pageSize))
  {
    if !s.hasMore && !initial then s
    else
      var data := if rows.Some? then Page(rows.value, s.offset, pageSize) else [];
      if |data| > 0 then
        ChatState(if initial then data else data + s.messages,
                  s.offset + |data|,
                  if |data| < pageSize then false else s.hasMore)
      else s.(hasMore := false)
  }

  /** The state after the initial fetch and `n` further fetches of an
      unchanging table, with no realtime inserts in between. */
  function Session(rows: seq<Message>, pageSize: nat, n: nat): ChatState {
    if n == 0 then FetchStep(Start, true, Some(rows), pageSize)
    else FetchStep(Session(rows, pageSize, n - 1), false, Some(rows), pageSize)
  }

  /** What paging has loaded once `limit` rows were asked for: the offset
      is `limit` or the whole table, whichever is smaller; `hasMore` is true
      only while every page came back full, and false only once the table is
      exhausted; the messages are exactly the first `offset` rows, each once
      (as a multiset: the order is another matter, see below). */
  ghost predicate Loaded(s: ChatState, rows: seq<Message>, limit: nat) {
    s.offset == Min(limit, |rows|)
    && (s.hasMore ==> s.offset == limit)
    && (!s.hasMore ==> s.offset == |rows|)
    && multiset(s.messages) == multiset(rows[..s.offset])
  }

  /** A later fetch asks for `pageSize` more rows and keeps Loaded. */
  lemma FetchKeepsLoaded(s: ChatState, rows: seq<Message>, pageSize: nat, limit: nat)
    requires pageSize > 0 && Loaded(s, rows, limit)
    ensures Loaded(FetchStep(s, false, Some(rows), pageSize), rows, limit + pageSize)
  {
    var r := FetchStep(s, false, Some(rows), pageSize);
    if s.hasMore && r.offset > s.offset {
      var page := Page(rows, s.offset, pageSize);
      assert rows[..r.offset] == rows[..s.offset] + page;
    }
  }

  /** Paging loses and repeats nothing: after the initial fetch and `n`
      more of an unchanging table, `(n + 1) * pageSize` rows were asked for
      and Loaded holds. */
  lemma {:induction false} SessionCoversPrefix(rows: seq<Message>, pageSize: nat, n: nat)
    requires pageSize > 0
    ensures Loaded(Session(rows, pageSize, n), rows, (n + 1) * pageSize)
  {
    if n == 0 {
      assert Session(rows, pageSize, 0) == FetchStep(Start, false, Some(rows), pageSize);
      FetchKeepsLoaded(Start, rows, pageSize, 0);
    } else {
      var asked := n * pageSize;
      assert asked + pageSize == (n + 1) * pageSize;
      SessionCoversPrefix(rows, pageSize, n - 1);
      FetchKeepsLoaded(Session(rows, pageSize, n - 1), rows, pageSize, asked);
    }
  }

  /** Messages in the order they were written. */
  predicate Chronological(ms: seq<Message>) {
    forall i, j :: 0 <= i < j < |ms| ==> ms[i].createdAt <= ms[j].createdAt
  }

  /** As written, a later page holds newer messages (the query is ascending)
      but is placed before the ones already shown: with pages of two over
      three messages, the second fetch shows the newest message first. */
  lemma ScrollBackBreaksOrder(m0: Message, m1: Message, m2: Message)
    requires m0.createdAt < m1.createdAt < m2.createdAt
    ensures Chronological([m0, m1, m2])
    ensures Session([m0, m1, m2], 2, 1).messages == [m2, m0, m1]
    ensures !Chronological(Session([m0, m1, m2], 2, 1).messages)
  {
    var rows := [m0, m1, m2];
    assert Page(rows, 0, 2) == [m0, m1];
    assert Session(rows, 2, 0) == ChatState([m0, m1], 2, true);
    assert Page(rows, 2, 2) == [m2];
    var ms := Session(rows, 2, 1).messages;
    assert ms == [m2, m0, m1];
    assert ms[0].createdAt > ms[1].createdAt;
  }

  /** The corrected fetch: the newest messages come first, and each older
      page is put before the ones shown in its written order. `offset`
      counts the newest messages already loaded. */
  function FetchOlderStep(s: ChatState, initial: bool, rows: Option<seq<Message>>, pageSize: nat): (r: ChatState)
    ensures !s.hasMore && !initial ==> r == s
    ensures s.offset <= r.offset <= s.offset + pageSize
    ensures !s.hasMore ==> !r.hasMore
  {
    if !s.hasMore && !initial then s
    else
      var data := if rows.Some? && s.offset < |rows.value| then
        var hi := |rows.value| - s.offset;
        var lo := if hi >= pageSize then hi - pageSize else 0;
        rows.value[lo..hi]
      else [];
      if |data| > 0 then
        ChatState(if initial then data else data + s.messages,
                  s.offset + |data|,
                  if |data| < pageSize then false else s.hasMore)
      else s.(hasMore := false)
  }

  /** With the correction the hook always shows the newest `offset`
      messages in their written order, so a chronological table gives a
      chronological chat. */
  lemma FetchOlderKeepsOrder(s: ChatState, initial: bool, rows: seq<Message>, pageSize: nat)
    requires s.offset <= |rows| && s.messages == rows[|rows| - s.offset..]
    requires initial ==> s.offset == 0
    ensures var r := FetchOlderStep(s, initial, Some(rows), pageSize);
      r.offset <= |rows| && r.messages == rows[|rows| - r.offset..]
      && (Chronological(rows) ==> Chronological(r.messages))
  {
    var r := FetchOlderStep(s, initial, Some(rows), pageSize);
    if r.offset > s.offset {
      var hi := |rows| - s.offset;
      assert rows[|rows| - r.offset..] == rows[|rows| - r.offset..hi] + rows[hi..];
    }
  }

  /** The `messages` table, as far as `sendMessage` writes to it. */
  class MessageTable {
    var inserted: seq<NewMessage>

    constructor ()
      ensures inserted == []
    {
      inserted := [];
    }
  }

  class ChatHook {
    const chatId: string
    const currentUserId: string
    const pageSize: nat
    var messages: seq<Message>
    var offset: nat
    var hasMore: bool

    function State(): ChatState
      reads this
    {
      ChatState(messages, offset, hasMore)
    }

    constructor (chatId0: string, currentUserId0: string, pageSize0: nat)
      requires pageSize0 > 0
      ensures chatId == chatId0 && currentUserId == currentUserId0 && pageSize == pageSize0
      ensures State() == Start
    {
      chatId := chatId0;
      currentUserId := currentUserId0;
      pageSize := pageSize0;
      messages := [];
      offset := 0;
      hasMore := true;
    }

    /** `fetchMessages(initial)`; `rows` as for FetchStep. */
    method FetchMessages(initial: bool, rows: Option<seq<Message>>)
      modifies this
      ensures State() == FetchStep(old(State()), initial, rows, pageSize)
    {
      if !hasMore && !initial {
        return;
      }
      var data: seq<Message> := [];
      if rows.Some? {
        data := Page(rows.value, offset, pageSize);
      }
      if |data| > 0 {
        if initial {
          messages := data;
        } else {
          messages := data + messages;
        }
        offset := offset + |data|;
        if |data| < pageSize {
          hasMore := false;
        }
      } else {
        hasMore := false;
      }
    }

    /** The realtime INSERT handler: the new row goes at the end. */
    method OnInsert(m: Message)
      modifies this
      ensures messages == old(messages) + [m]
      ensures offset == old(offset) && hasMore == old(hasMore)
    {
      messages := messages + [m];
    }

    /** `sendMessage(content)`: one insert; the hook's state is untouched
        (the message shows up through the realtime handler). */
    method SendMessage(table: MessageTable, content: string)
      modifies table
      ensures table.inserted == old(table.inserted) + [NewMessage(chatId, currentUserId, content)]
    {
      table.inserted := table.inserted + [NewMessage(chatId, currentUserId, content)];
    }
  }
}
