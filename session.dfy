/** The frontend's session state with the widgets stripped away: the list of
    thread ids shown in the sidebar, the metadata kept per thread, the chat
    history on screen, the current thread and the system prompt.

    The operations on the thread list and the metadata are first given as
    functions on a `Store` value, where their properties are proved; the
    `SessionContext` class then performs them in place and its methods are
    proved to leave exactly the state those functions describe.  Fresh thread
    ids (from `uuid4`) and clock readings (from `datetime.now`) are
    parameters. */
module Session {
  import opened Wrappers
  import opened Text
  import opened Seqs
  import opened AgentGraph
  import opened Checkpoints
  import opened Conversations
  import Widgets

  /** `chat_threads` and `chat_metadata`. */
  datatype Store = Store(threads: seq<ThreadId>, meta: map<ThreadId, ThreadMeta>)

  /** The record `add_thread` and `reset_chat` create. */
  function FreshMeta(now: Stamp): ThreadMeta {
    ThreadMeta(NewChatTitle, 0, Some(now), None)
  }

  // ---------------------------------------------------------------- add_thread

  /** `add_thread`: a thread already listed changes nothing; otherwise it is
      appended, and gets a fresh record only when it has none. */
  function WithThread(s: Store, t: ThreadId, now: Stamp): Store {
    if t in s.threads then s
    else Store(s.threads + [t], if t in s.meta then s.meta else s.meta[t := FreshMeta(now)])
  }

  /** After `add_thread` the thread is listed; the list only grew at its end,
      by at most that thread; no existing record was replaced, and a record
      was created only for a thread that was neither listed nor recorded. */
  lemma WithThreadEffect(s: Store, t: ThreadId, now: Stamp)
    ensures var r := WithThread(s, t, now);
      && t in r.threads
      && (t in s.threads ==> r == s)
      && (t !in s.threads ==> r.threads == s.threads + [t])
      && s.threads <= r.threads
      && |r.threads| <= |s.threads| + 1
      && (forall u :: u in r.threads <==> u in s.threads || u == t)
      && (forall u :: u in s.meta ==> u in r.meta && r.meta[u] == s.meta[u])
      && (forall u :: u in r.meta <==> u in s.meta || (u == t && t !in s.threads))
      && (t !in s.threads && t !in s.meta ==> r.meta[t] == FreshMeta(now))
  {
  }

  /** Adding a thread twice is adding it once, whatever the clock says. */
  lemma WithThreadIdempotent(s: Store, t: ThreadId, now: Stamp, later: Stamp)
    ensures WithThread(WithThread(s, t, now), t, later) == WithThread(s, t, now)
  {
  }

  lemma WithThreadKeepsDistinct(s: Store, t: ThreadId, now: Stamp)
    requires Distinct(s.threads)
    ensures Distinct(WithThread(s, t, now).threads)
  {
  }

  // ---------------------------------------------------------------- delete_thread

  /** The position of the first `t` in `s`. */
  function IndexOf(s: seq<ThreadId>, t: ThreadId): (i: nat)
    requires t in s
    ensures i < |s| && s[i] == t && t !in s[..i]
  {
    if s[0] == t then 0
    else
      var i := IndexOf(s[1..], t);
      assert s[..i + 1] == [s[0]] + s[1..][..i];
      i + 1
  }

  /** `list.remove(t)`: the scan that drops the first `t`. */
  function RemoveFirst(s: seq<ThreadId>, t: ThreadId): seq<ThreadId> {
    if s == [] then []
    else if s[0] == t then s[1..]
    else [s[0]] + RemoveFirst(s[1..], t)
  }

  /** Removing cuts out exactly the first occurrence: the threads before it
      and after it stay, in their order. */
  lemma {:induction false} RemoveFirstSplices(s: seq<ThreadId>, t: ThreadId)
    requires t in s
    ensures RemoveFirst(s, t) == s[..IndexOf(s, t)] + s[IndexOf(s, t) + 1..]
  {
    if s[0] != t {
      RemoveFirstSplices(s[1..], t);
      var i := IndexOf(s[1..], t);
      assert s[..i + 1] == [s[0]] + s[1..][..i];
      assert s[i + 2..] == s[1..][i + 1..];
    }
  }

  lemma {:induction false} RemoveFirstOfAbsent(s: seq<ThreadId>, t: ThreadId)
    requires t !in s
    ensures RemoveFirst(s, t) == s
  {
    if s != [] {
      RemoveFirstOfAbsent(s[1..], t);
    }
  }

  /** Removing takes away one copy of `t` and nothing else. */
  lemma {:induction false} RemoveFirstMultiset(s: seq<ThreadId>, t: ThreadId)
    ensures multiset(RemoveFirst(s, t)) == multiset(s) - multiset{t}
  {
    if s != [] {
      assert s == [s[0]] + s[1..];
      assert multiset(s) == multiset{s[0]} + multiset(s[1..]);
      if s[0] != t {
        var r := RemoveFirst(s[1..], t);
        RemoveFirstMultiset(s[1..], t);
        assert multiset([s[0]] + r) == multiset{s[0]} + multiset(r);
      }
    }
  }

  /** From a list without repeats, removing takes `t` out entirely. */
  lemma {:induction false} RemoveFirstOfDistinct(s: seq<ThreadId>, t: ThreadId)
    requires Distinct(s)
    ensures Distinct(RemoveFirst(s, t))
    ensures forall u :: u in RemoveFirst(s, t) <==> u in s && u != t
  {
    if s != [] {
      assert forall j :: 0 <= j < |s[1..]| ==> s[1..][j] == s[j + 1];
      assert s[0] !in s[1..];
      assert Distinct(s[1..]);
      if s[0] != t {
        RemoveFirstOfDistinct(s[1..], t);
        var r := RemoveFirst(s[1..], t);
        forall a, b | 0 <= a < b < |[s[0]] + r| ensures ([s[0]] + r)[a] != ([s[0]] + r)[b] {
          if a > 0 {
            assert ([s[0]] + r)[a] == r[a - 1];
          }
          assert ([s[0]] + r)[b] == r[b - 1];
        }
      }
    }
  }

  /** `delete_thread`: the first occurrence of the id leaves the list (when
      there is one) and its record leaves the metadata. */
  function WithoutThread(s: Store, t: ThreadId): Store {
    Store(if t in s.threads then RemoveFirst(s.threads, t) else s.threads, s.meta - {t})
  }

  /** Deleting drops the record of `t` and no other; the list loses one copy
      of `t`, keeps every other thread in its order, and is unchanged when
      `t` is not listed. */
  lemma WithoutThreadEffect(s: Store, t: ThreadId)
    ensures var r := WithoutThread(s, t);
      && t !in r.meta
      && (forall u :: u != t ==> (u in r.meta <==> u in s.meta))
      && (forall u :: u in r.meta ==> r.meta[u] == s.meta[u])
      && multiset(r.threads) == multiset(s.threads) - multiset{t}
      && (t !in s.threads ==> r.threads == s.threads)
      && (t in s.threads ==> r.threads == s.threads[..IndexOf(s.threads, t)] + s.threads[IndexOf(s.threads, t) + 1..])
  {
    RemoveFirstMultiset(s.threads, t);
    if t in s.threads {
      RemoveFirstSplices(s.threads, t);
    } else {
      assert multiset(s.threads)[t] == 0;
    }
  }

  lemma WithoutThreadKeepsDistinct(s: Store, t: ThreadId)
    requires Distinct(s.threads)
    ensures Distinct(WithoutThread(s, t).threads)
    ensures forall u :: u in WithoutThread(s, t).threads <==> u in s.threads && u != t
  {
    RemoveFirstOfDistinct(s.threads, t);
  }

  lemma {:induction false} RemoveFirstOfAppended(s: seq<ThreadId>, t: ThreadId)
    requires t !in s
    ensures RemoveFirst(s + [t], t) == s
  {
    if s != [] {
      assert (s + [t])[1..] == s[1..] + [t];
      RemoveFirstOfAppended(s[1..], t);
    }
  }

  /** Deleting a thread just added (one that was neither listed nor
      recorded) gives back the store as it was. */
  lemma WithoutAfterWith(s: Store, t: ThreadId, now: Stamp)
    requires t !in s.threads && t !in s.meta
    ensures WithoutThread(WithThread(s, t, now), t) == s
  {
    RemoveFirstOfAppended(s.threads, t);
  }

  // ---------------------------------------------------------------- reset_chat

  /** `reset_chat` on the store: add the new thread, then give it a fresh
      record whether or not it had one. */
  function AfterReset(s: Store, newId: ThreadId, now: Stamp): Store {
    var a := WithThread(s, newId, now);
    Store(a.threads, a.meta[newId := FreshMeta(now)])
  }

  /** The new thread is listed with a newId record and no message; every
      other record and every listed thread stays. */
  lemma AfterResetEffect(s: Store, newId: ThreadId, now: Stamp)
    ensures var r := AfterReset(s, newId, now);
      && newId in r.threads
      && r.meta[newId] == FreshMeta(now)
      && r.meta[newId].messageCount == 0
      && (forall u :: u != newId ==> (u in r.meta <==> u in s.meta))
      && (forall u :: u != newId && u in s.meta ==> r.meta[u] == s.meta[u])
      && (newId !in s.threads ==> r.threads == s.threads + [newId])
      && (newId in s.threads ==> r.threads == s.threads)
  {
  }

  // ---------------------------------------------------------------- update_chat_metadata

  /** `update_chat_metadata` for the stored messages `ms` of `t`: the record
      is created when missing, its title, count and update time are set and
      its creation time is kept. */
  function MetadataRefreshed(meta: map<ThreadId, ThreadMeta>, t: ThreadId, ms: seq<Message>, now: Stamp): map<ThreadId, ThreadMeta> {
    var createdAt := if t in meta then meta[t].createdAt else None;
    meta[t := ThreadMeta(ThreadTitle(ms), |ms|, createdAt, Some(now))]
  }

  /** After an update the record of `t` shows the thread's title (at most 53
      characters) and number of messages; a record that had a creation time
      keeps it; no other thread's record changes. */
  lemma MetadataRefreshedEffect(meta: map<ThreadId, ThreadMeta>, t: ThreadId, ms: seq<Message>, now: Stamp)
    ensures var r := MetadataRefreshed(meta, t, ms, now);
      && r.Keys == meta.Keys + {t}
      && r[t].title == ThreadTitle(ms)
      && |r[t].title| <= TitleLimit + 3
      && r[t].messageCount == |ms|
      && r[t].lastUpdated == Some(now)
      && (t in meta ==> r[t].createdAt == meta[t].createdAt)
      && (t !in meta ==> r[t].createdAt == None)
      && (forall u :: u in meta && u != t ==> r[u] == meta[u])
  {
  }

  /** Updating again from the same messages only moves the update time. */
  lemma MetadataRefreshedTwice(meta: map<ThreadId, ThreadMeta>, t: ThreadId, ms: seq<Message>, now: Stamp, later: Stamp)
    ensures MetadataRefreshed(MetadataRefreshed(meta, t, ms, now), t, ms, later) == MetadataRefreshed(meta, t, ms, later)
  {
  }

  /** The metadata after refreshing the threads of `ts`, one after another. */
  function RefreshAll(meta: map<ThreadId, ThreadMeta>, ts: seq<ThreadId>, loaded: map<ThreadId, seq<Message>>, now: Stamp): map<ThreadId, ThreadMeta>
    decreases |ts|
  {
    if ts == [] then meta
    else
      var t := ts[|ts| - 1];
      MetadataRefreshed(RefreshAll(meta, ts[..|ts| - 1], loaded, now), t, Load(loaded, t), now)
  }

  /** Refreshing adds a record for each thread of `ts` and no other. */
  lemma {:induction false} RefreshAllKeys(meta: map<ThreadId, ThreadMeta>, ts: seq<ThreadId>, loaded: map<ThreadId, seq<Message>>, now: Stamp)
    ensures forall u :: u in RefreshAll(meta, ts, loaded, now) <==> u in meta || u in ts
    decreases |ts|
  {
    if ts != [] {
      var front := ts[..|ts| - 1];
      RefreshAllKeys(meta, front, loaded, now);
      assert ts == front + [ts[|ts| - 1]];
    }
  }

  /** After refreshing, each thread of `ts` has a record showing its title
      and message count. */
  lemma {:induction false} RefreshAllShows(meta: map<ThreadId, ThreadMeta>, ts: seq<ThreadId>, loaded: map<ThreadId, seq<Message>>, now: Stamp)
    ensures var r := RefreshAll(meta, ts, loaded, now);
      forall u :: u in ts ==>
        u in r && r[u].title == ThreadTitle(Load(loaded, u)) && r[u].messageCount == |Load(loaded, u)| && r[u].lastUpdated == Some(now)
    decreases |ts|
  {
    if ts != [] {
      var front := ts[..|ts| - 1];
      RefreshAllShows(meta, front, loaded, now);
      assert ts == front + [ts[|ts| - 1]];
    }
  }

  /** Refreshing keeps every record's creation time, leaves the records of
      threads outside `ts` as they were, and a record it creates has none. */
  lemma {:induction false} RefreshAllKeeps(meta: map<ThreadId, ThreadMeta>, ts: seq<ThreadId>, loaded: map<ThreadId, seq<Message>>, now: Stamp)
    ensures var r := RefreshAll(meta, ts, loaded, now);
      && (forall u :: u in meta ==> u in r && r[u].createdAt == meta[u].createdAt)
      && (forall u :: u in meta && u !in ts ==> r[u] == meta[u])
      && (forall u :: u in ts && u !in meta ==> u in r && r[u].createdAt == None)
    decreases |ts|
  {
    if ts != [] {
      var front := ts[..|ts| - 1];
      RefreshAllKeeps(meta, front, loaded, now);
      RefreshAllKeys(meta, front, loaded, now);
      assert ts == front + [ts[|ts| - 1]];
    }
  }

  // ---------------------------------------------------------------- the session

  /** The answer recorded when streaming the response raises. */
  const ErrorReply := "Sorry, I encountered an error. Please try again."

  class SessionContext {
    var chatThreads: seq<ThreadId>
    var chatMetadata: map<ThreadId, ThreadMeta>
    var messageHistory: seq<ChatRecord>
    var threadId: ThreadId
    var systemPrompt: string

    /** The thread list has no repeats and holds the current thread. */
    ghost predicate Valid()
      reads this
    {
      Distinct(chatThreads) && threadId in chatThreads
    }

    function Sidebar(): Store
      reads this
    {
      Store(chatThreads, chatMetadata)
    }

    /** The session set-up of a first run: an empty history, a newId current
        thread, the thread list from the checkpoints, no metadata, no system
        prompt, and then the current thread added. */
    constructor (freshId: ThreadId, listing: seq<CheckpointConfig>, raisesAt: Option<nat>, now: Stamp)
      ensures Valid()
      ensures threadId == freshId && messageHistory == [] && systemPrompt == ""
      ensures forall u :: u in chatThreads <==> u in ThreadIds(Listed(listing, raisesAt)) || u == freshId
      ensures freshId !in ThreadIds(Listed(listing, raisesAt)) ==>
        chatMetadata == map[freshId := FreshMeta(now)] && chatThreads[|chatThreads| - 1] == freshId
      ensures freshId in ThreadIds(Listed(listing, raisesAt)) ==> chatMetadata == map[]
    {
      var stored := RetrieveAllThreads(listing, raisesAt);
      var s := WithThread(Store(stored, map[]), freshId, now);
      WithThreadEffect(Store(stored, map[]), freshId, now);
      WithThreadKeepsDistinct(Store(stored, map[]), freshId, now);
      messageHistory := [];
      threadId := freshId;
      systemPrompt := "";
      chatThreads := s.threads;
      chatMetadata := s.meta;
    }

    /** `add_thread`. */
    method AddThread(t: ThreadId, now: Stamp)
      requires Distinct(chatThreads)
      modifies this
      ensures Distinct(chatThreads) && t in chatThreads
      ensures Sidebar() == WithThread(old(Sidebar()), t, now)
      ensures messageHistory == old(messageHistory) && threadId == old(threadId) && systemPrompt == old(systemPrompt)
    {
      WithThreadKeepsDistinct(Sidebar(), t, now);
      if t !in chatThreads {
        chatThreads := chatThreads + [t];
        if t !in chatMetadata {
          chatMetadata := chatMetadata[t := FreshMeta(now)];
        }
      }
    }

    /** `delete_thread`.  It may remove the current thread, which the
        sidebar's delete button never does (see `DeleteFromSidebar`). */
    method DeleteThread(t: ThreadId)
      requires Distinct(chatThreads)
      modifies this
      ensures Distinct(chatThreads)
      ensures Sidebar() == WithoutThread(old(Sidebar()), t)
      ensures messageHistory == old(messageHistory) && threadId == old(threadId) && systemPrompt == old(systemPrompt)
    {
      WithoutThreadKeepsDistinct(Sidebar(), t);
      if t in chatThreads {
        chatThreads := RemoveFirst(chatThreads, t);
      }
      if t in chatMetadata {
        chatMetadata := chatMetadata - {t};
      }
    }

    /** `reset_chat`, with the new id and the clock passed in. */
    method ResetChat(newId: ThreadId, now: Stamp)
      requires Valid()
      modifies this
      ensures Valid()
      ensures threadId == newId && messageHistory == []
      ensures Sidebar() == AfterReset(old(Sidebar()), newId, now)
      ensures systemPrompt == old(systemPrompt)
    {
      threadId := newId;
      AddThread(newId, now);
      messageHistory := [];
      chatMetadata := chatMetadata[newId := FreshMeta(now)];
    }

    /** `update_chat_metadata`: the stored messages of `t` are loaded and
        its record brought up to date. */
    method UpdateChatMetadata(t: ThreadId, loaded: map<ThreadId, seq<Message>>, now: Stamp)
      modifies this
      ensures chatMetadata == MetadataRefreshed(old(chatMetadata), t, Load(loaded, t), now)
      ensures chatThreads == old(chatThreads) && messageHistory == old(messageHistory)
      ensures threadId == old(threadId) && systemPrompt == old(systemPrompt)
    {
      var messages := Load(loaded, t);
      var title := FormatThreadName(t, messages);
      var createdAt := if t in chatMetadata then chatMetadata[t].createdAt else None;
      chatMetadata := chatMetadata[t := ThreadMeta(title, |messages|, createdAt, Some(now))];
    }

    /** The sidebar's thread list: the threads in the chosen order (computed
        from the metadata as it was before the loop), each thread's record
        brought up to date as it is shown.  Afterwards every listed thread
        has a record with its title and message count; other records stay. */
    method ShowThreads(option: SortOption, loaded: map<ThreadId, seq<Message>>, now: Stamp) returns (shown: seq<ThreadId>)
      modifies this
      ensures shown == SortThreads(old(chatThreads), old(chatMetadata), option)
      ensures chatMetadata == RefreshAll(old(chatMetadata), shown, loaded, now)
      ensures chatThreads == old(chatThreads) && messageHistory == old(messageHistory)
      ensures threadId == old(threadId) && systemPrompt == old(systemPrompt)
      ensures forall u :: u in chatMetadata <==> u in old(chatMetadata) || u in chatThreads
      ensures forall u :: u in chatThreads ==>
        chatMetadata[u].title == ThreadTitle(Load(loaded, u)) && chatMetadata[u].messageCount == |Load(loaded, u)|
      ensures forall u :: u in old(chatMetadata) ==> chatMetadata[u].createdAt == old(chatMetadata)[u].createdAt
      ensures forall u :: u in old(chatMetadata) && u !in chatThreads ==> chatMetadata[u] == old(chatMetadata)[u]
    {
      shown := SortThreads(chatThreads, chatMetadata, option);
      ghost var before := chatMetadata;
      for i := 0 to |shown|
        invariant chatMetadata == RefreshAll(before, shown[..i], loaded, now)
        invariant chatThreads == old(chatThreads) && messageHistory == old(messageHistory)
        invariant threadId == old(threadId) && systemPrompt == old(systemPrompt)
      {
        assert shown[..i + 1][..i] == shown[..i];
        UpdateChatMetadata(shown[i], loaded, now);
      }
      assert shown[..|shown|] == shown;
      RefreshAllKeys(before, shown, loaded, now);
      RefreshAllShows(before, shown, loaded, now);
      RefreshAllKeeps(before, shown, loaded, now);
      SortThreadsSameThreads(chatThreads, before, option);
    }

    /** 'Clear All Conversations': only the current thread stays listed, and
        all metadata goes. */
    method ClearAll()
      requires Valid()
      modifies this
      ensures Valid()
      ensures chatThreads == [threadId] && chatMetadata == map[]
      ensures threadId == old(threadId) && messageHistory == old(messageHistory) && systemPrompt == old(systemPrompt)
    {
      chatThreads := [threadId];
      chatMetadata := map[];
    }

    /** One run of the clear-all block in its corrected form: the
        confirmation box, ticked or not from `ticked`, is drawn ahead of the
        button, and the block clears only when the run's event is the click
        while the box is ticked. */
    method ClearAllBlock(ticked: bool, e: Widgets.Event) returns (tickedAfter: bool)
      requires Valid()
      modifies this
      ensures Valid()
      ensures tickedAfter == Widgets.ClearAllRunCorrected(ticked, e).ticked
      ensures e == Widgets.ClickClearAll && ticked ==> chatThreads == [threadId] && chatMetadata == map[]
      ensures !(e == Widgets.ClickClearAll && ticked) ==> chatThreads == old(chatThreads) && chatMetadata == old(chatMetadata)
      ensures threadId == old(threadId) && messageHistory == old(messageHistory) && systemPrompt == old(systemPrompt)
    {
      var o := Widgets.ClearAllRunCorrected(ticked, e);
      if o.clears {
        ClearAll();
      }
      tickedAfter := o.ticked;
    }

    /** 'Regenerate' on the entry at `idx`: that entry and every later one
        leave the history. */
    method Regenerate(idx: nat)
      modifies this
      ensures messageHistory == Take(old(messageHistory), idx)
      ensures messageHistory <= old(messageHistory)
      ensures idx < |old(messageHistory)| ==> |messageHistory| == idx
      ensures chatThreads == old(chatThreads) && chatMetadata == old(chatMetadata)
      ensures threadId == old(threadId) && systemPrompt == old(systemPrompt)
    {
      messageHistory := Take(messageHistory, idx);
    }

    /** Opening a thread from the sidebar or from a search result: it becomes
        the current thread and its stored messages become the history.  Both
        buttons exist only for listed threads. */
    method OpenThread(t: ThreadId, loaded: map<ThreadId, seq<Message>>)
      requires Valid()
      requires t in chatThreads
      modifies this
      ensures Valid()
      ensures threadId == t
      ensures |messageHistory| == |Load(loaded, t)|
      ensures forall i :: 0 <= i < |messageHistory| ==>
        messageHistory[i].content == Load(loaded, t)[i].content
        && (messageHistory[i].role == User <==> Load(loaded, t)[i].Human?)
      ensures chatThreads == old(chatThreads) && chatMetadata == old(chatMetadata) && systemPrompt == old(systemPrompt)
    {
      threadId := t;
      var messages := Load(loaded, t);
      messageHistory := ToChatRecords(messages);
    }

    /** The sidebar's delete button: deleting the current thread first
        starts a new chat (with the id `newId`, which is not `t`), so the
        current thread is always a listed one. */
    method DeleteFromSidebar(t: ThreadId, newId: ThreadId, now: Stamp)
      requires Valid()
      requires newId != t
      modifies this
      ensures Valid()
      ensures t !in chatThreads && t !in chatMetadata
      ensures old(threadId) != t ==>
        threadId == old(threadId) && messageHistory == old(messageHistory)
        && Sidebar() == WithoutThread(old(Sidebar()), t)
      ensures old(threadId) == t ==>
        threadId == newId && messageHistory == []
        && Sidebar() == WithoutThread(AfterReset(old(Sidebar()), newId, now), t)
      ensures systemPrompt == old(systemPrompt)
    {
      if t == threadId {
        ResetChat(newId, now);
      }
      assert threadId != t;
      RemoveFirstOfDistinct(chatThreads, t);
      DeleteThread(t);
    }

    /** One chat turn for a non-empty input (an empty input does nothing).
        The user's record is added; the messages handed to the graph are the
        input preceded by the system prompt when there is one.  The stream
        of the turn is `stream`: `None` when streaming raises, else the chunks
        it yields.  On success the streamed text becomes the assistant's
        record and the thread's metadata is brought up to date from the
        stored messages after the turn (`loaded`); on failure the assistant's
        record is the apology and the metadata is not touched. */
    method SendMessage(userInput: string, stream: Option<seq<Message>>, loaded: map<ThreadId, seq<Message>>, now: Stamp)
      returns (sent: seq<Message>)
      modifies this
      ensures userInput == "" ==> sent == [] && messageHistory == old(messageHistory) && chatMetadata == old(chatMetadata)
      ensures userInput != "" ==> sent == MessagesToSend(userInput, systemPrompt)
      ensures userInput != "" && stream.Some? ==>
        messageHistory == old(messageHistory) + [ChatRecord(User, userInput), ChatRecord(Assistant, StreamText(stream.value))]
        && chatMetadata == MetadataRefreshed(old(chatMetadata), threadId, Load(loaded, threadId), now)
      ensures userInput != "" && stream.None? ==>
        messageHistory == old(messageHistory) + [ChatRecord(User, userInput), ChatRecord(Assistant, ErrorReply)]
        && chatMetadata == old(chatMetadata)
      ensures chatThreads == old(chatThreads) && threadId == old(threadId) && systemPrompt == old(systemPrompt)
    {
      if userInput == "" {
        return [];
      }
      messageHistory := messageHistory + [ChatRecord(User, userInput)];
      sent := [Human(userInput)];
      if systemPrompt != "" {
        sent := [Human(SystemPrefix + systemPrompt)] + sent;
      }
      match stream
      case None =>
        messageHistory := messageHistory + [ChatRecord(Assistant, ErrorReply)];
      case Some(chunks) =>
        var response := AccumulateStream(chunks);
        messageHistory := messageHistory + [ChatRecord(Assistant, response)];
        UpdateChatMetadata(threadId, loaded, now);
    }
  }
}
