/** The frontend's helpers over stored conversations: thread titles, search,
    the conversion of stored messages into chat records (for display and for
    export), the thread list orderings, the messages sent for one turn and
    the accumulation of the streamed answer.

    `load_conversation` is an input here: a map from thread id to the stored
    messages of that thread; a thread the map does not hold loads as the empty
    list, as a failed load does in the source. */
module Conversations {
  import opened Wrappers
  import opened Text
  import opened Seqs
  import opened AgentGraph

  type ThreadId = string

  /** A clock reading, passed in where the source calls `datetime.now()`. */
  type Stamp = string

  /** The metadata record kept per thread: the keys `title`, `message_count`,
      `created_at` and `last_updated`; the last two are absent until set. */
  datatype ThreadMeta = ThreadMeta(title: string, messageCount: nat, createdAt: Option<Stamp>, lastUpdated: Option<Stamp>)

  /** The stored messages of a thread. */
  function Load(loaded: map<ThreadId, seq<Message>>, t: ThreadId): seq<Message> {
    if t in loaded then loaded[t] else []
  }

  // ---------------------------------------------------------------- format_thread_name

  const NewChatTitle := "New Chat"
  const EmptyChatTitle := "Empty Chat"
  const TitleLimit: nat := 50

  /** `c[:50] + "..."` when the content is longer than 50, else the content. */
  function Preview(content: string): (p: string)
    ensures |p| <= TitleLimit + 3
    ensures Take(content, TitleLimit) <= p
    ensures |content| <= TitleLimit ==> p == content
    ensures |content| > TitleLimit ==> |p| == TitleLimit + 3 && p[TitleLimit..] == "..."
  {
    if |content| > TitleLimit then content[..TitleLimit] + "..." else content
  }

  /** Message `i` is the first human message of `ms`. */
  predicate FirstHumanAt(ms: seq<Message>, i: nat) {
    i < |ms| && ms[i].Human? && forall j :: 0 <= j < i ==> !ms[j].Human?
  }

  /** The title a thread is shown with, given its stored messages. */
  function ThreadTitle(ms: seq<Message>): (title: string)
    ensures ms == [] ==> title == NewChatTitle
    ensures ms != [] && (forall j :: 0 <= j < |ms| ==> !ms[j].Human?) ==> title == EmptyChatTitle
    ensures forall i :: 0 <= i < |ms| && FirstHumanAt(ms, i) ==> title == Preview(ms[i].content)
    ensures |title| <= TitleLimit + 3
    decreases |ms|
  {
    if ms == [] then NewChatTitle
    else if ms[0].Human? then Preview(ms[0].content)
    else
      var rest := ThreadTitle(ms[1..]);
      assert forall i :: 1 <= i < |ms| && FirstHumanAt(ms, i) ==> FirstHumanAt(ms[1..], i - 1);
      if ms[1..] == [] then EmptyChatTitle else rest
  }

  /** `format_thread_name`: the thread id is not used; the loop returns at
      the first human message. */
  method FormatThreadName(threadId: ThreadId, messages: seq<Message>) returns (name: string)
    ensures name == ThreadTitle(messages)
  {
    if messages == [] {
      return NewChatTitle;
    }
    var i := 0;
    while i < |messages|
      invariant 0 <= i <= |messages|
      invariant forall j :: 0 <= j < i ==> !messages[j].Human?
    {
      if messages[i].Human? {
        assert FirstHumanAt(messages, i);
        return Preview(messages[i].content);
      }
      i := i + 1;
    }
    return EmptyChatTitle;
  }

  // ---------------------------------------------------------------- messages of one turn

  const SystemPrefix := "System: "

  /** The messages sent to the graph for one user input: the input, preceded
      by the system prompt as a human message when the prompt is not empty. */
  function MessagesToSend(userInput: string, systemPrompt: string): (ms: seq<Message>)
    ensures |ms| == if systemPrompt == "" then 1 else 2
    ensures ms[|ms| - 1] == Human(userInput)
    ensures systemPrompt != "" ==> ms[0] == Human(SystemPrefix + systemPrompt)
    ensures forall i :: 0 <= i < |ms| ==> ms[i].Human?
  {
    var sent := [Human(userInput)];
    if systemPrompt != "" then [Human(SystemPrefix + systemPrompt)] + sent else sent
  }

  /** In a thread whose first turn had a system prompt, the prompt is the
      first human message, so it, not the user's words, names the thread. */
  lemma SystemPromptNamesNewThread(userInput: string, systemPrompt: string, later: seq<Message>)
    ensures ThreadTitle(MessagesToSend(userInput, systemPrompt) + later)
      == Preview(if systemPrompt == "" then userInput else SystemPrefix + systemPrompt)
  {
    var ms := MessagesToSend(userInput, systemPrompt) + later;
    assert FirstHumanAt(ms, 0);
  }

  /** The user input an uploaded file becomes: its name and the first 1000
      characters of its decoded content. */
  function UploadedInput(fileName: string, fileContent: string): (input: string)
    ensures "[File: " + fileName + "]\n\n" <= input
    ensures input[|fileName| + 10..] <= fileContent
    ensures |input| == |fileName| + 10 + (if |fileContent| <= 1000 then |fileContent| else 1000)
    ensures |fileContent| <= 1000 ==> input == "[File: " + fileName + "]\n\n" + fileContent
  {
    "[File: " + fileName + "]\n\n" + Take(fileContent, 1000)
  }

  // ---------------------------------------------------------------- chat records

  datatype Role = User | Assistant

  /** An entry of the message history the chat window shows. */
  datatype ChatRecord = ChatRecord(role: Role, content: string)

  /** The conversion of stored messages into chat records, used when a
      thread is opened from the list or from a search result and by the
      export: one record per message, in order; human messages become user
      records, every other message an assistant record. */
  method ToChatRecords(messages: seq<Message>) returns (records: seq<ChatRecord>)
    ensures |records| == |messages|
    ensures forall i :: 0 <= i < |messages| ==>
      records[i].content == messages[i].content && (records[i].role == User <==> messages[i].Human?)
  {
    records := [];
    for i := 0 to |messages|
      invariant |records| == i
      invariant forall j :: 0 <= j < i ==>
        records[j].content == messages[j].content && (records[j].role == User <==> messages[j].Human?)
    {
      var msg := messages[i];
      var role := if msg.Human? then User else Assistant;
      records := records + [ChatRecord(role, msg.content)];
    }
  }

  /** What the export serialises (the serialisation itself and the export
      time are not modelled; every message's `timestamp` is `None`). */
  datatype ExportData = ExportData(threadId: ThreadId, messages: seq<ChatRecord>)

  method ExportConversation(threadId: ThreadId, loaded: map<ThreadId, seq<Message>>) returns (data: ExportData)
    ensures data.threadId == threadId
    ensures |data.messages| == |Load(loaded, threadId)|
    ensures forall i :: 0 <= i < |data.messages| ==>
      data.messages[i].content == Load(loaded, threadId)[i].content
      && (data.messages[i].role == User <==> Load(loaded, threadId)[i].Human?)
  {
    var messages := Load(loaded, threadId);
    var records := ToChatRecords(messages);
    data := ExportData(threadId, records);
  }

  // ---------------------------------------------------------------- search_conversations

  datatype SearchResult = SearchResult(threadId: ThreadId, preview: string, matched: string)

  const MatchLimit: nat := 100

  predicate Matches(m: Message, queryLower: string) {
    Contains(Lower(m.content), queryLower)
  }

  /** The index of the first message that matches. */
  function FirstMatch(ms: seq<Message>, queryLower: string): (r: Option<nat>)
    ensures r.Some? ==>
      r.value < |ms| && Matches(ms[r.value], queryLower) && forall j :: 0 <= j < r.value ==> !Matches(ms[j], queryLower)
    ensures r.None? ==> forall j :: 0 <= j < |ms| ==> !Matches(ms[j], queryLower)
    decreases |ms|
  {
    if ms == [] then None
    else if Matches(ms[0], queryLower) then Some(0)
    else match FirstMatch(ms[1..], queryLower)
      case None => None
      case Some(i) => Some(i + 1)
  }

  /** The result a thread contributes, if any. */
  function ResultFor(loaded: map<ThreadId, seq<Message>>, t: ThreadId, queryLower: string): seq<SearchResult> {
    var ms := Load(loaded, t);
    match FirstMatch(ms, queryLower)
    case None => []
    case Some(i) => [SearchResult(t, ThreadTitle(ms), Take(ms[i].content, MatchLimit))]
  }

  function Search(threads: seq<ThreadId>, loaded: map<ThreadId, seq<Message>>, queryLower: string): seq<SearchResult>
    decreases |threads|
  {
    if threads == [] then []
    else Search(threads[..|threads| - 1], loaded, queryLower) + ResultFor(loaded, threads[|threads| - 1], queryLower)
  }

  /** The inner loop of `search_conversations`: the first message whose
      lower-cased content holds the lower-cased query. */
  method FindFirstMatch(messages: seq<Message>, queryLower: string) returns (found: Option<nat>)
    ensures found == FirstMatch(messages, queryLower)
  {
    var j := 0;
    while j < |messages|
      invariant 0 <= j <= |messages|
      invariant forall k :: 0 <= k < j ==> !Matches(messages[k], queryLower)
    {
      if Contains(Lower(messages[j].content), queryLower) {
        return Some(j);
      }
      j := j + 1;
    }
    return None;
  }

  /** `search_conversations` over the thread list `chatThreads`. */
  method SearchConversations(chatThreads: seq<ThreadId>, loaded: map<ThreadId, seq<Message>>, query: string)
    returns (results: seq<SearchResult>)
    ensures results == Search(chatThreads, loaded, Lower(query))
  {
    results := [];
    var queryLower := Lower(query);
    for i := 0 to |chatThreads|
      invariant results == Search(chatThreads[..i], loaded, queryLower)
    {
      var t := chatThreads[i];
      assert chatThreads[..i + 1][..i] == chatThreads[..i];
      var messages := Load(loaded, t);
      var found := FindFirstMatch(messages, queryLower);
      if found.Some? {
        var preview := FormatThreadName(t, messages);
        results := results + [SearchResult(t, preview, Take(messages[found.value].content, MatchLimit))];
      }
    }
    assert chatThreads[..|chatThreads|] == chatThreads;
  }

  function ResultIds(rs: seq<SearchResult>): seq<ThreadId> {
    seq(|rs|, k requires 0 <= k < |rs| => rs[k].threadId)
  }

  /** `a` is `b` with some elements left out. */
  predicate Subsequence<T(==)>(a: seq<T>, b: seq<T>)
    decreases |b|
  {
    if a == [] then true
    else if b == [] then false
    else (a[|a| - 1] == b[|b| - 1] && Subsequence(a[..|a| - 1], b[..|b| - 1])) || Subsequence(a, b[..|b| - 1])
  }

  /** A thread contributes at most one result, carrying its own id, exactly
      when one of its messages matches. */
  lemma ResultForShape(loaded: map<ThreadId, seq<Message>>, t: ThreadId, queryLower: string)
    ensures |ResultFor(loaded, t, queryLower)| <= 1
    ensures ResultFor(loaded, t, queryLower) != [] <==> FirstMatch(Load(loaded, t), queryLower).Some?
    ensures ResultIds(ResultFor(loaded, t, queryLower)) == if ResultFor(loaded, t, queryLower) == [] then [] else [t]
  {
  }

  lemma ResultIdsAppend(a: seq<SearchResult>, b: seq<SearchResult>)
    ensures ResultIds(a + b) == ResultIds(a) + ResultIds(b)
  {
  }

  /** The results follow the thread list: no more of them than threads, in
      the list's order. */
  lemma {:induction false} SearchFollowsThreadOrder(threads: seq<ThreadId>, loaded: map<ThreadId, seq<Message>>, queryLower: string)
    ensures |ResultIds(Search(threads, loaded, queryLower))| <= |threads|
    ensures Subsequence(ResultIds(Search(threads, loaded, queryLower)), threads)
    decreases |threads|
  {
    if threads != [] {
      var front := threads[..|threads| - 1];
      var t := threads[|threads| - 1];
      SearchFollowsThreadOrder(front, loaded, queryLower);
      ResultForShape(loaded, t, queryLower);
      var before := ResultIds(Search(front, loaded, queryLower));
      var mine := ResultIds(ResultFor(loaded, t, queryLower));
      ResultIdsAppend(Search(front, loaded, queryLower), ResultFor(loaded, t, queryLower));
      var ids := before + mine;
      assert ids == ResultIds(Search(threads, loaded, queryLower));
      if mine == [] {
        assert ids == before;
        SubsequenceExtend(before, front, t);
      } else {
        assert ids[..|ids| - 1] == before;
        assert ids[|ids| - 1] == t;
      }
    }
  }

  lemma {:induction false} SubsequenceExtend<T>(a: seq<T>, b: seq<T>, x: T)
    requires Subsequence(a, b)
    ensures Subsequence(a, b + [x])
  {
    assert (b + [x])[..|b|] == b;
  }

  /** A thread is among the results exactly when it is in the list and one
      of its messages matches. */
  lemma {:induction false} SearchFindsMatchingThreads(threads: seq<ThreadId>, loaded: map<ThreadId, seq<Message>>, queryLower: string)
    ensures forall t :: t in ResultIds(Search(threads, loaded, queryLower)) <==>
      t in threads && FirstMatch(Load(loaded, t), queryLower).Some?
    decreases |threads|
  {
    if threads != [] {
      var front := threads[..|threads| - 1];
      var last := threads[|threads| - 1];
      SearchFindsMatchingThreads(front, loaded, queryLower);
      ResultForShape(loaded, last, queryLower);
      ResultIdsAppend(Search(front, loaded, queryLower), ResultFor(loaded, last, queryLower));
      assert threads == front + [last];
    }
  }

  /** Each thread of a list without repeats yields at most one result. */
  lemma {:induction false} SearchResultsDistinct(threads: seq<ThreadId>, loaded: map<ThreadId, seq<Message>>, queryLower: string)
    requires Distinct(threads)
    ensures Distinct(ResultIds(Search(threads, loaded, queryLower)))
    decreases |threads|
  {
    if threads != [] {
      var front := threads[..|threads| - 1];
      var last := threads[|threads| - 1];
      assert Distinct(front);
      assert last !in front;
      SearchResultsDistinct(front, loaded, queryLower);
      SearchFindsMatchingThreads(front, loaded, queryLower);
      ResultForShape(loaded, last, queryLower);
      ResultIdsAppend(Search(front, loaded, queryLower), ResultFor(loaded, last, queryLower));
    }
  }

  /** Each result carries the thread's title and the first matching message
      of the thread, cut to 100 characters. */
  lemma {:induction false} SearchResultsAreFirstMatches(threads: seq<ThreadId>, loaded: map<ThreadId, seq<Message>>, queryLower: string)
    ensures forall r :: r in Search(threads, loaded, queryLower) ==>
      var ms := Load(loaded, r.threadId);
      && FirstMatch(ms, queryLower).Some?
      && r.preview == ThreadTitle(ms)
      && r.matched == Take(ms[FirstMatch(ms, queryLower).value].content, MatchLimit)
      && |r.matched| <= MatchLimit
    decreases |threads|
  {
    if threads != [] {
      SearchResultsAreFirstMatches(threads[..|threads| - 1], loaded, queryLower);
    }
  }

  // ---------------------------------------------------------------- thread order in the sidebar

  datatype SortOption = Recent | Oldest | MostMessages

  /** `chat_metadata.get(t, {}).get('message_count', 0)`. */
  function MessageCount(meta: map<ThreadId, ThreadMeta>, t: ThreadId): nat {
    if t in meta then meta[t].messageCount else 0
  }

  function Reverse<T>(s: seq<T>): (r: seq<T>)
    ensures |r| == |s|
    ensures forall i :: 0 <= i < |s| ==> r[i] == s[|s| - 1 - i]
  {
    if s == [] then [] else [s[|s| - 1]] + Reverse(s[..|s| - 1])
  }

  lemma {:induction false} ReversePermutes<T>(s: seq<T>)
    ensures multiset(Reverse(s)) == multiset(s)
  {
    if s != [] {
      ReversePermutes(s[..|s| - 1]);
      assert s == s[..|s| - 1] + [s[|s| - 1]];
    }
  }

  /** Place `t` before the first thread that has no more messages than it:
      after those with more, before those with as many or fewer. */
  function InsertByCount(t: ThreadId, sorted: seq<ThreadId>, meta: map<ThreadId, ThreadMeta>): seq<ThreadId>
    decreases |sorted|
  {
    if sorted == [] || MessageCount(meta, sorted[0]) <= MessageCount(meta, t) then [t] + sorted
    else [sorted[0]] + InsertByCount(t, sorted[1..], meta)
  }

  /** Python's `sorted(..., key=count, reverse=True)`: a stable sort by
      decreasing message count. */
  function SortByCount(threads: seq<ThreadId>, meta: map<ThreadId, ThreadMeta>): seq<ThreadId>
    decreases |threads|
  {
    if threads == [] then [] else InsertByCount(threads[0], SortByCount(threads[1..], meta), meta)
  }

  function SortThreads(threads: seq<ThreadId>, meta: map<ThreadId, ThreadMeta>, option: SortOption): seq<ThreadId> {
    match option
    case Recent => Reverse(threads)
    case Oldest => threads
    case MostMessages => SortByCount(threads, meta)
  }

  predicate ByDecreasingCount(s: seq<ThreadId>, meta: map<ThreadId, ThreadMeta>) {
    forall i, j :: 0 <= i < j < |s| ==> MessageCount(meta, s[i]) >= MessageCount(meta, s[j])
  }

  /** The threads of `s` that have `n` messages, in the order of `s`. */
  function WithCount(s: seq<ThreadId>, meta: map<ThreadId, ThreadMeta>, n: nat): seq<ThreadId>
    decreases |s|
  {
    if s == [] then []
    else (if MessageCount(meta, s[0]) == n then [s[0]] else []) + WithCount(s[1..], meta, n)
  }

  lemma {:induction false} InsertByCountPermutes(t: ThreadId, sorted: seq<ThreadId>, meta: map<ThreadId, ThreadMeta>)
    ensures multiset(InsertByCount(t, sorted, meta)) == multiset(sorted) + multiset{t}
    decreases |sorted|
  {
    if !(sorted == [] || MessageCount(meta, sorted[0]) <= MessageCount(meta, t)) {
      InsertByCountPermutes(t, sorted[1..], meta);
      assert sorted == [sorted[0]] + sorted[1..];
    }
  }

  /** Inserting under a bound on the count stays under it. */
  lemma {:induction false} InsertByCountBelow(t: ThreadId, sorted: seq<ThreadId>, meta: map<ThreadId, ThreadMeta>, c: nat)
    requires MessageCount(meta, t) <= c
    requires forall k :: 0 <= k < |sorted| ==> MessageCount(meta, sorted[k]) <= c
    ensures forall k :: 0 <= k < |InsertByCount(t, sorted, meta)| ==> MessageCount(meta, InsertByCount(t, sorted, meta)[k]) <= c
    decreases |sorted|
  {
    if sorted != [] && MessageCount(meta, sorted[0]) > MessageCount(meta, t) {
      InsertByCountBelow(t, sorted[1..], meta, c);
      var rest := InsertByCount(t, sorted[1..], meta);
      assert forall k :: 0 < k < |[sorted[0]] + rest| ==> ([sorted[0]] + rest)[k] == rest[k - 1];
    } else {
      assert forall k :: 0 < k < |[t] + sorted| ==> ([t] + sorted)[k] == sorted[k - 1];
    }
  }

  lemma {:induction false} InsertByCountSorted(t: ThreadId, sorted: seq<ThreadId>, meta: map<ThreadId, ThreadMeta>)
    requires ByDecreasingCount(sorted, meta)
    ensures ByDecreasingCount(InsertByCount(t, sorted, meta), meta)
    decreases |sorted|
  {
    var r := InsertByCount(t, sorted, meta);
    if sorted == [] || MessageCount(meta, sorted[0]) <= MessageCount(meta, t) {
      assert r == [t] + sorted;
      forall i, j | 0 <= i < j < |r| ensures MessageCount(meta, r[i]) >= MessageCount(meta, r[j]) {
        if i > 0 { assert r[i] == sorted[i - 1]; }
        assert r[j] == sorted[j - 1];
      }
    } else {
      var head := sorted[0];
      var rest := InsertByCount(t, sorted[1..], meta);
      assert ByDecreasingCount(sorted[1..], meta);
      InsertByCountSorted(t, sorted[1..], meta);
      InsertByCountBelow(t, sorted[1..], meta, MessageCount(meta, head));
      assert r == [head] + rest;
      forall i, j | 0 <= i < j < |r| ensures MessageCount(meta, r[i]) >= MessageCount(meta, r[j]) {
        assert r[j] == rest[j - 1];
        if i > 0 { assert r[i] == rest[i - 1]; }
      }
    }
  }

  lemma {:induction false} InsertByCountStable(t: ThreadId, sorted: seq<ThreadId>, meta: map<ThreadId, ThreadMeta>, n: nat)
    ensures WithCount(InsertByCount(t, sorted, meta), meta, n)
      == (if MessageCount(meta, t) == n then [t] else []) + WithCount(sorted, meta, n)
    decreases |sorted|
  {
    var r := InsertByCount(t, sorted, meta);
    if sorted == [] || MessageCount(meta, sorted[0]) <= MessageCount(meta, t) {
      assert r == [t] + sorted;
      assert r[1..] == sorted;
    } else {
      var head := sorted[0];
      var rest := InsertByCount(t, sorted[1..], meta);
      InsertByCountStable(t, sorted[1..], meta, n);
      assert r == [head] + rest;
      assert r[1..] == rest;
      // `head` has more messages than `t`, so at most one of them has `n`.
      assert MessageCount(meta, head) == n ==> MessageCount(meta, t) != n;
    }
  }

  /** Sorting by message count keeps the threads, orders them by decreasing
      count and keeps threads with equal counts in their original order. */
  lemma {:induction false} SortByCountPermutes(threads: seq<ThreadId>, meta: map<ThreadId, ThreadMeta>)
    ensures multiset(SortByCount(threads, meta)) == multiset(threads)
    decreases |threads|
  {
    if threads != [] {
      SortByCountPermutes(threads[1..], meta);
      InsertByCountPermutes(threads[0], SortByCount(threads[1..], meta), meta);
      assert threads == [threads[0]] + threads[1..];
    }
  }

  lemma {:induction false} SortByCountSorted(threads: seq<ThreadId>, meta: map<ThreadId, ThreadMeta>)
    ensures ByDecreasingCount(SortByCount(threads, meta), meta)
    decreases |threads|
  {
    if threads != [] {
      SortByCountSorted(threads[1..], meta);
      InsertByCountSorted(threads[0], SortByCount(threads[1..], meta), meta);
    }
  }

  lemma {:induction false} SortByCountStable(threads: seq<ThreadId>, meta: map<ThreadId, ThreadMeta>, n: nat)
    ensures WithCount(SortByCount(threads, meta), meta, n) == WithCount(threads, meta, n)
    decreases |threads|
  {
    if threads != [] {
      SortByCountStable(threads[1..], meta, n);
      InsertByCountStable(threads[0], SortByCount(threads[1..], meta), meta, n);
    }
  }

  /** Every ordering lists exactly the threads of the list it orders. */
  lemma SortThreadsSameThreads(threads: seq<ThreadId>, meta: map<ThreadId, ThreadMeta>, option: SortOption)
    ensures forall u :: u in SortThreads(threads, meta, option) <==> u in threads
  {
    SortThreadsProperties(threads, meta, option);
    var sorted := SortThreads(threads, meta, option);
    forall u ensures u in sorted <==> u in threads {
      assert u in sorted <==> u in multiset(sorted);
      assert u in threads <==> u in multiset(threads);
    }
  }

  /** Every ordering of the sidebar shows each thread as often as the list
      holds it: 'Recent' is the list reversed, 'Oldest' the list itself and
      'Most Messages' the stable sort by decreasing message count, where a
      thread without metadata counts as 0. */
  lemma SortThreadsProperties(threads: seq<ThreadId>, meta: map<ThreadId, ThreadMeta>, option: SortOption)
    ensures multiset(SortThreads(threads, meta, option)) == multiset(threads)
    ensures option == Recent ==> forall i :: 0 <= i < |threads| ==>
      SortThreads(threads, meta, option)[i] == threads[|threads| - 1 - i]
    ensures option == Oldest ==> SortThreads(threads, meta, option) == threads
    ensures option == MostMessages ==>
      && ByDecreasingCount(SortThreads(threads, meta, option), meta)
      && forall n :: WithCount(SortThreads(threads, meta, option), meta, n) == WithCount(threads, meta, n)
  {
    ReversePermutes(threads);
    SortByCountPermutes(threads, meta);
    SortByCountSorted(threads, meta);
    forall n ensures WithCount(SortByCount(threads, meta), meta, n) == WithCount(threads, meta, n) {
      SortByCountStable(threads, meta, n);
    }
  }

  // ---------------------------------------------------------------- streamed answer

  /** The text of a streamed answer: the contents of the chunks, in order. */
  function StreamText(chunks: seq<Message>): string
    decreases |chunks|
  {
    if chunks == [] then "" else StreamText(chunks[..|chunks| - 1]) + chunks[|chunks| - 1].content
  }

  /** The answer of two parts of a stream is the two answers joined. */
  lemma {:induction false} StreamTextAppend(a: seq<Message>, b: seq<Message>)
    ensures StreamText(a + b) == StreamText(a) + StreamText(b)
    decreases |b|
  {
    if b == [] {
      assert a + b == a;
    } else {
      assert (a + b)[..|a + b| - 1] == a + b[..|b| - 1];
      StreamTextAppend(a, b[..|b| - 1]);
    }
  }

  /** The accumulation loop: every chunk with non-empty content is added.
      Chunks are not filtered by kind, so a tool message in the stream is
      added too. */
  method AccumulateStream(chunks: seq<Message>) returns (response: string)
    ensures response == StreamText(chunks)
  {
    response := "";
    for i := 0 to |chunks|
      invariant response == StreamText(chunks[..i])
    {
      var chunk := chunks[i];
      assert chunks[..i + 1][..i] == chunks[..i];
      if chunk.content != "" {
        response := response + chunk.content;
      }
    }
    assert chunks[..|chunks|] == chunks;
  }
}
