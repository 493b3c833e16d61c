# A verified model of the LangGraph chatbot's routing loop and session bookkeeping

The chatbot has two parts. A backend builds a LangGraph agent: an `agent` node asks a language model for the next message, and a `tools` node runs the tool calls that message carries. The routing rule `should_continue` decides whether the graph goes to the tools node or to the end. The backend also lists the threads stored by the checkpointer, and it defines a set of tools. A Streamlit frontend keeps a per-browser session store. The store holds:

- the list of chat threads;
- a metadata record per thread (title, message count, timestamps);
- the chat history shown on screen;
- the current thread and the system prompt.

The frontend adds, deletes, resets, refreshes, clears, searches, sorts, exports and opens threads. It also streams one chat turn.

The model is written in Dafny 4.11, one module per concern:

| module | file | contents |
|---|---|---|
| `Wrappers` | `wrappers.dfy` | `Option` |
| `Seqs` | `seqs.dfy` | `Distinct` |
| `Text` | `text.dfy` | the Python string operations the code uses: `split(sep)`, `split()`, `strip()`, `lower()`/`upper()`, `replace`, `in`, slicing, `str(n)` |
| `AgentGraph` | `agent_graph.dfy` | messages, `should_continue`, the graph's edges, and the agent/tools loop as an imperative method over an oracle of model replies |
| `Checkpoints` | `checkpoints.dfy` | `retrieve_all_threads` |
| `Tools` | `tools.dfy` | the parts of the tools that are plain string and integer computations |
| `Conversations` | `conversations.dfy` | the frontend's helpers over stored conversations: thread titles, the turn's messages, chat records and export, search, sidebar orderings, stream accumulation |
| `Widgets` | `widgets.dfy` | when the clear-all block fires under Streamlit's rerun rules, as written and corrected |
| `Session` | `session.dfy` | the session store, first as a value (`Store`) with its operations and lemmas, then as the class `SessionContext` whose methods change it in place and are proved to reach exactly the state the value functions describe |

How the environment is modelled:

- **The language model** is an oracle: the sequence of replies it gives, one per visit of the agent node.
- **The tool node** is a function from a tool call to its result text.
- **LangGraph's message reducer** appends.
- **`load_conversation`** is an input map from thread id to stored messages. A thread the map does not hold loads as the empty list, which is what the source returns when loading fails.
- **Fresh ids and clock readings** (`uuid4()`, `datetime.now()`) are parameters.

## Model

| member | source | states |
|---|---|---|
| AgentGraph.ShouldContinue | langgraph_database_backend.py:294-303 | the route is "tools" exactly when the last message is a model reply with a non-empty list of tool calls, otherwise "end"; defined only on a non-empty state |
| AgentGraph.Entry | langgraph_database_backend.py:322 | definition: the edge out of `START` leads to the agent; AgentGraph.WalkFollowsGraph states that every run starts there |
| AgentGraph.Edge | langgraph_database_backend.py:322-331 | definition: the graph's edges, agent to tools, agent to END and tools back to agent; AgentGraph.Successor and AgentGraph.WalkFollowsGraph state that runs follow them |
| AgentGraph.RoutingReadsOnlyLast | langgraph_database_backend.py:296-303 | two states with the same last message are routed alike |
| AgentGraph.Successor | langgraph_database_backend.py:322-331 | the next node is always along an edge of the graph; tools always goes back to agent; agent goes to END exactly when `should_continue` says "end" |
| AgentGraph.Round | langgraph_database_backend.py:288-292 | an agent step and the tool step after it add the reply, then one tool message per call, in call order, each carrying its call's id and the executor's result |
| AgentGraph.Rounds | langgraph_database_backend.py:288-292 | definition: the messages of a run of agent and tool steps, one `Round` per reply; its properties are in AgentGraph.RoundsCounts, AgentGraph.RoundsAnswerEarlierCalls and AgentGraph.RunGraph |
| AgentGraph.ToolMessages | langgraph_database_backend.py:306 | definition: the tool node's output, one tool message per call; its properties are in AgentGraph.Round and AgentGraph.ToolMessagesHoldNoReply |
| AgentGraph.StepsUsed | langgraph_database_backend.py:322-331 | a run consumes replies up to and including the first one without tool calls (every earlier one has calls), or all of them when none is plain |
| AgentGraph.HopsShape | langgraph_database_backend.py:322-331 | n round trips alternate tools and agent, and have length 2n |
| AgentGraph.WalkFollowsGraph | langgraph_database_backend.py:322-331 | a run's trace starts at the agent and follows edges of the graph; END occurs only last and is entered from the agent |
| AgentGraph.RunGraph | langgraph_database_backend.py:288-334 | the loop appends exactly the rounds of the consumed replies to history plus input; its trace is the walk with that many tool hops; the loop ends exactly when some reply has no tool calls, and then the last message is that reply and routing says "end" |
| AgentGraph.AgentStep | langgraph_database_backend.py:288-292 | an agent visit appends the next reply; with tool calls the run is at the tool node with that reply unanswered, without them it is at END with the reply's round complete |
| AgentGraph.ToolStep | langgraph_database_backend.py:306 | a tool visit answers the last reply's calls; control is back at the agent with one more complete round and a round trip added to the trace |
| AgentGraph.EndReached | langgraph_database_backend.py:294-303 | at END the run has used exactly the replies up to the first one without tool calls, that reply is the last message, and routing says "end" |
| AgentGraph.RoundsSnoc | langgraph_database_backend.py:284 | appending a reply appends its round: the reply, then its tool messages |
| AgentGraph.FirstPlainReply | langgraph_database_backend.py:322-331 | when the first reply without tool calls is at position k, the run uses k + 1 replies and finishes |
| AgentGraph.NoPlainReply | langgraph_database_backend.py:322-331 | when every reply calls tools, the run uses all of them and does not finish |
| AgentGraph.CountsDistribute | langgraph_database_backend.py:284 | reply counts add up over appended message lists (the reducer appends) |
| AgentGraph.ToolMessagesHoldNoReply | langgraph_database_backend.py:306 | the tool node adds no model reply |
| AgentGraph.RoundCounts | langgraph_database_backend.py:288-292 | each agent step contributes exactly one model reply, and a plain one exactly when it has no tool calls |
| AgentGraph.RoundsCounts | langgraph_database_backend.py:288-292 | k agent steps contribute k replies; while every reply calls tools, none is plain |
| AgentGraph.FinishedTurnShape | langgraph_database_backend.py:322-331 | a finished turn adds one reply per agent step, exactly one of them without tool calls, and that one is the last message |
| AgentGraph.RoundsAnswerEarlierCalls | langgraph_database_backend.py:319-331 | every tool message in a run answers a tool call of an earlier model reply |
| Checkpoints.Listed | langgraph_database_backend.py:341-347 | the loop sees a prefix of the listing: all of it, or the checkpoints before the one at which listing raises (all of them when that position is past the end) |
| Checkpoints.Truthy | langgraph_database_backend.py:344 | definition: a checkpoint whose thread id is present and non-empty (the `if thread_id` test); its property is in Checkpoints.OneThread |
| Checkpoints.ThreadIds | langgraph_database_backend.py:343-345 | definition: the set of truthy thread ids of a listing; its properties are in Checkpoints.ThreadIdsOfNothing, Checkpoints.ThreadIdsAppend and Checkpoints.OneThread |
| Checkpoints.ThreadIdsOfNothing | langgraph_database_backend.py:340 | an empty listing gives the empty set the loop starts from |
| Checkpoints.ThreadIdsAppend | langgraph_database_backend.py:342-345 | the id set of a listing is the union of the id sets of its parts |
| Checkpoints.OneThread | langgraph_database_backend.py:343-345 | a checkpoint with a non-empty id contributes exactly that id |
| Checkpoints.RetrieveAllThreads | langgraph_database_backend.py:338-349 | the result has no repeats and holds exactly the truthy thread ids of the checkpoints seen before any exception |
| Tools.TruncateScraped | langgraph_database_backend.py:40 | a text of at most 2000 characters is returned as is; a longer one becomes its first 2000 characters and "..."; never more than 2003 characters |
| Tools.WikipediaUrl | langgraph_database_backend.py:48 | the URL is the summary endpoint followed by the query, character by character, with each space replaced by an underscore and every other character kept |
| Tools.WikipediaUrlRoundTrip | langgraph_database_backend.py:48 | a query without underscores can be read back from its URL |
| Tools.WikipediaUrlMergesSpaceAndUnderscore | langgraph_database_backend.py:48 | two queries give the same URL exactly when they have the same length and differ only at positions holding a space in one and an underscore in the other |
| Tools.EqualUrlsSameTitle | langgraph_database_backend.py:48 | equal URLs come only from queries of equal length that agree except at space/underscore positions |
| Tools.SameTitleEqualUrls | langgraph_database_backend.py:48 | queries that agree except at space/underscore positions give equal URLs |
| Tools.WikipediaUrlOfSpellings | langgraph_database_backend.py:48 | "a b" and "a_b" produce the same URL |
| Tools.ApiCaller | langgraph_database_backend.py:157-161 | a request is sent exactly when the upper-cased method is "GET", to the given URL; otherwise the fixed refusal text is returned |
| Tools.ApiGateAcceptsAnyCaseOfGet | langgraph_database_backend.py:157 | the gate passes exactly the three-letter spellings of "get" in any letter case |
| Tools.FileAnalyzer | langgraph_database_backend.py:79-96 | csv input gives a csv report; json input is handed on unchanged; any other type gives a text report |
| Tools.CsvCounts | langgraph_database_backend.py:82-86 | rows = newlines + 1; columns = commas of the first line + 1 (so at least 1); preview = first 200 characters |
| Tools.TextCounts | langgraph_database_backend.py:92-96 | words = the whitespace-separated tokens (none exactly for blank text); characters = length; lines = newlines + 1; preview = first 300 characters |
| Tools.SentimentOf | langgraph_database_backend.py:181 | Positive iff more positive words; Negative iff more negative words; Neutral iff as many |
| Tools.Occurrences | langgraph_database_backend.py:178-179 | the number of words that are in the word list, never more than the number of words; how the two counts combine is in Tools.OccurrencesOfDisjointVocabularies |
| Tools.OccurrencesOfDisjointVocabularies | langgraph_database_backend.py:175-179 | with disjoint word lists, the positive and negative counts add up to at most the word count |
| Tools.VocabularyBound | langgraph_database_backend.py:171 | the number of distinct words is at most the word count, and at least 1 when there are words |
| Tools.Vocabulary | langgraph_database_backend.py:171 | definition: `set(words)`, the words that occur; its size bounds are in Tools.VocabularyBound |
| Tools.TextAnalyzer | langgraph_database_backend.py:166-190 | blank text (and only that) fails with the division-by-zero message; otherwise the word count is the number of lower-cased words, the unique count the size of their vocabulary, the positive and negative counts the occurrences of the two word lists, the counts are bounded as above and the sentiment rule holds |
| Tools.Items | langgraph_database_backend.py:104 | there is one item per comma plus one |
| Tools.DataProcessor | langgraph_database_backend.py:101-129 | 'count' reports the number of items; any operation outside the five gives the fixed list of supported operations |
| Tools.DataCountIsCommasPlusOne | langgraph_database_backend.py:104-124 | 'count' reports commas + 1, never zero; the empty string counts as one item |
| Text.Take | langgraph_database_backend.py:40 | `s[:n]`: a prefix of the text, of length n or the whole text when it is shorter |
| Text.Split | langgraph_database_backend.py:83 | `split(sep)` gives one piece per separator plus one, none holding the separator |
| Text.JoinSplit | langgraph_database_backend.py:83 | joining the pieces of a split gives the text back |
| Text.SplitFirst | langgraph_database_backend.py:85 | the first piece of a split is the text up to the first separator |
| Text.Words | langgraph_database_backend.py:93 | `split()` gives non-empty tokens without whitespace |
| Text.ScanWords | langgraph_database_backend.py:93 | definition: an independent left-to-right scan that collects characters into the current word and closes it at whitespace and at the end |
| Text.ScanBetweenWords | langgraph_database_backend.py:93 | started between words, the scan yields exactly the `split()` tokens |
| Text.ScanInWord | langgraph_database_backend.py:93 | started inside a word, the scan finishes that word with the rest of the token and then yields the `split()` tokens of what follows |
| Text.WordsIsScan | langgraph_database_backend.py:93 | `split()` is exactly the scan's list of words: every maximal run of non-whitespace characters, in order, and nothing else |
| Text.WordsEmptyIffBlank | langgraph_database_backend.py:93 | `split()` is empty exactly for empty or all-whitespace text |
| Text.LowerKeepsBlank | langgraph_database_backend.py:169 | lower-casing keeps text blank or non-blank |
| Text.Strip | langgraph_database_backend.py:104 | `strip()` cuts the text into leading whitespace, the result and trailing whitespace, and the result neither starts nor ends with whitespace: exactly the whitespace at both ends is removed and nothing else |
| Text.Lower | langgraph_database_backend.py:169 | the result has the input's length and is the input lower-cased character by character |
| Text.Contains | streamlit_frontend_database.py:93 | definition: Python's `in` on strings, some slice equal to the needle; its use is stated in Conversations.FirstMatch |
| Text.Upper | langgraph_database_backend.py:157 | the result has the input's length and is the input upper-cased character by character |
| Text.ReplaceChar | langgraph_database_backend.py:48 | `replace(" ", "_")`: the same length, each occurrence of the character replaced and every other character kept |
| Text.Decimal | langgraph_database_backend.py:124 | `str(n)`: at least one character, all decimal digits, no leading zero unless n is 0 |
| Text.DecimalValue | langgraph_database_backend.py:124 | reading the digits of `str(n)` back gives n, so the counts in the tools' reports are the numbers themselves |
| Text.DecimalInjective | langgraph_database_backend.py:124 | different numbers are printed differently |
| Conversations.Load | streamlit_frontend_database.py:38-45 | definition: `load_conversation`, the thread's stored messages, or the empty list when the store holds none, as the `except` branch returns; its uses are stated in Conversations.ExportConversation and the Session lemmas |
| Conversations.Preview | streamlit_frontend_database.py:55 | content of at most 50 characters is kept whole; longer content becomes its first 50 characters and "..."; at most 53 characters |
| Conversations.ThreadTitle | streamlit_frontend_database.py:47-58 | "New Chat" for no messages; "Empty Chat" when none is human; otherwise the preview of the first human message; at most 53 characters |
| Conversations.FormatThreadName | streamlit_frontend_database.py:47-58 | the early-return loop yields the thread title |
| Conversations.MessagesToSend | streamlit_frontend_database.py:341-343 | the input as a human message, preceded by "System: " and the prompt when the prompt is not empty |
| Conversations.SystemPromptNamesNewThread | streamlit_frontend_database.py:341-343 | when a turn starts a thread with a system prompt, the prompt line, not the user's words, becomes the thread's title |
| Conversations.UploadedInput | streamlit_frontend_database.py:324 | an upload becomes the file-name header followed by the first min(n, 1000) characters of the content, n being its length: the whole content when it has at most 1000 characters |
| Conversations.ToChatRecords | streamlit_frontend_database.py:192-195 | one record per message, in order, with the same content; role user exactly for human messages |
| Conversations.ExportConversation | streamlit_frontend_database.py:67-81 | the export names the thread and has one record per stored message, with the same content, role user exactly for human messages |
| Conversations.FirstMatch | streamlit_frontend_database.py:92-99 | the first message whose lower-cased content contains the lower-cased query, or none when no message does |
| Conversations.FindFirstMatch | streamlit_frontend_database.py:92-99 | the inner loop with its `break` finds that first match |
| Conversations.ResultFor | streamlit_frontend_database.py:92-99 | definition: a thread's contribution to the results, none or one; its properties are in Conversations.ResultForShape |
| Conversations.Search | streamlit_frontend_database.py:85-101 | definition: the results of a search, thread by thread; its properties are in Conversations.SearchFollowsThreadOrder, Conversations.SearchFindsMatchingThreads, Conversations.SearchResultsDistinct and Conversations.SearchResultsAreFirstMatches |
| Conversations.SearchConversations | streamlit_frontend_database.py:85-101 | the loop builds exactly the specified results for the lower-cased query |
| Conversations.ResultForShape | streamlit_frontend_database.py:92-99 | a thread gives at most one result, carrying its own id, exactly when one of its messages matches |
| Conversations.SearchFollowsThreadOrder | streamlit_frontend_database.py:90-99 | results are no more than threads and follow the order of `chat_threads` (a subsequence) |
| Conversations.SearchFindsMatchingThreads | streamlit_frontend_database.py:90-99 | a thread is among the results exactly when it is listed and one of its messages matches |
| Conversations.SearchResultsDistinct | streamlit_frontend_database.py:90-99 | with a repeat-free thread list, no thread is named twice |
| Conversations.SearchResultsAreFirstMatches | streamlit_frontend_database.py:94-98 | each result carries the thread's title and the first matching message, cut to 100 characters |
| Conversations.Reverse | streamlit_frontend_database.py:214 | element i of the result is element n-1-i of the list |
| Conversations.ReversePermutes | streamlit_frontend_database.py:214 | 'Recent' keeps every thread as often as the list holds it |
| Conversations.MessageCount | streamlit_frontend_database.py:218 | definition: the sort key, the record's count or 0 when the thread has no record; its use is stated in Conversations.SortByCountSorted |
| Conversations.InsertByCount | streamlit_frontend_database.py:216-220 | definition: insertion into a list ordered by decreasing count, before the first thread whose count is not larger; its properties are in the three lemmas below |
| Conversations.InsertByCountPermutes | streamlit_frontend_database.py:216-220 | inserting adds exactly one copy of the thread |
| Conversations.InsertByCountSorted | streamlit_frontend_database.py:216-220 | inserting into a list ordered by decreasing count keeps it ordered |
| Conversations.InsertByCountStable | streamlit_frontend_database.py:216-220 | inserting puts the thread before the others of its count |
| Conversations.SortByCount | streamlit_frontend_database.py:216-220 | definition: insertion sort by decreasing count; its properties are in the three lemmas below |
| Conversations.SortByCountPermutes | streamlit_frontend_database.py:216-220 | the 'Most Messages' sort is a permutation |
| Conversations.SortByCountSorted | streamlit_frontend_database.py:216-220 | the 'Most Messages' sort is non-increasing in message count, a missing record counting 0 |
| Conversations.SortByCountStable | streamlit_frontend_database.py:216-220 | threads with equal counts keep their original order (the sort is stable) |
| Conversations.SortThreads | streamlit_frontend_database.py:212-220 | definition: the three sidebar orderings; its properties are in Conversations.SortThreadsProperties |
| Conversations.SortThreadsProperties | streamlit_frontend_database.py:212-220 | every ordering is a permutation; 'Recent' is the reverse, 'Oldest' the list itself, 'Most Messages' the stable sort by decreasing count |
| Conversations.SortThreadsSameThreads | streamlit_frontend_database.py:212-220 | every ordering lists exactly the threads of the list it orders |
| Conversations.StreamText | streamlit_frontend_database.py:360-362 | definition: the concatenated contents of a stream's chunks; its properties are in Conversations.StreamTextAppend and Conversations.AccumulateStream |
| Conversations.StreamTextAppend | streamlit_frontend_database.py:360-362 | the text of a stream is the texts of its parts joined |
| Conversations.AccumulateStream | streamlit_frontend_database.py:348-362 | the loop yields the concatenated contents of the chunks, in order |
| Session.FreshMeta | streamlit_frontend_database.py:32-36 | definition: the new record `add_thread` creates (and `reset_chat` writes at lines 21-25): title 'New Chat', count 0, the creation time, no update time; its use is stated in Session.WithThreadEffect and Session.AfterResetEffect |
| Session.WithThread | streamlit_frontend_database.py:27-36 | definition: the store after `add_thread`; its properties are in Session.WithThreadEffect, Session.WithThreadIdempotent and Session.WithThreadKeepsDistinct |
| Session.WithThreadEffect | streamlit_frontend_database.py:27-36 | a listed id changes nothing, even when it has no record; otherwise the id is appended at the end and gets a 'New Chat' record with count 0 only if it had none; no existing record is replaced |
| Session.WithThreadIdempotent | streamlit_frontend_database.py:27-36 | adding a thread twice is adding it once |
| Session.WithThreadKeepsDistinct | streamlit_frontend_database.py:29-30 | adding keeps the list free of repeats |
| Session.RemoveFirst | streamlit_frontend_database.py:63 | definition: `list.remove`, cutting out the first occurrence; its properties are in the four lemmas below |
| Session.IndexOf | streamlit_frontend_database.py:63 | the position of the first occurrence of the id |
| Session.RemoveFirstSplices | streamlit_frontend_database.py:63 | removing cuts out exactly the first occurrence; the threads before and after keep their order |
| Session.RemoveFirstOfAbsent | streamlit_frontend_database.py:62-63 | removing an id not listed changes nothing |
| Session.RemoveFirstMultiset | streamlit_frontend_database.py:63 | removing takes away one copy of the id and nothing else |
| Session.RemoveFirstOfDistinct | streamlit_frontend_database.py:63 | from a repeat-free list, removing keeps it repeat-free and takes the id out entirely |
| Session.WithoutThread | streamlit_frontend_database.py:60-65 | definition: the store after `delete_thread`; its properties are in Session.WithoutThreadEffect, Session.WithoutThreadKeepsDistinct and Session.WithoutAfterWith |
| Session.WithoutThreadEffect | streamlit_frontend_database.py:60-65 | deleting drops that thread's record and no other; the list loses the first occurrence and keeps the rest in order; nothing changes in the list when the id is absent |
| Session.WithoutThreadKeepsDistinct | streamlit_frontend_database.py:60-65 | deleting keeps the list repeat-free and leaves exactly the other threads |
| Session.WithoutAfterWith | streamlit_frontend_database.py:60-65 | deleting a thread just added, which had no record, gives back the store as it was |
| Session.AfterReset | streamlit_frontend_database.py:15-25 | definition: the store after `reset_chat`; its properties are in Session.AfterResetEffect |
| Session.AfterResetEffect | streamlit_frontend_database.py:15-25 | the new thread is listed (appended when new) with a fresh 'New Chat' record and count 0; every other record stays |
| Session.MetadataRefreshed | streamlit_frontend_database.py:103-113 | definition: the metadata after `update_chat_metadata`; its properties are in Session.MetadataRefreshedEffect and Session.MetadataRefreshedTwice |
| Session.MetadataRefreshedEffect | streamlit_frontend_database.py:103-113 | the record is created when missing; title = the thread title (at most 53 characters), count = number of stored messages, update time set, creation time kept; other records unchanged |
| Session.MetadataRefreshedTwice | streamlit_frontend_database.py:103-113 | refreshing again from the same messages changes only the update time |
| Session.RefreshAll | streamlit_frontend_database.py:223-225 | definition: the metadata after refreshing every shown thread in turn; its properties are in the three lemmas below and Session.SessionContext.ShowThreads |
| Session.RefreshAllKeys | streamlit_frontend_database.py:223-225 | refreshing every shown thread adds a record for each of them and no other |
| Session.RefreshAllShows | streamlit_frontend_database.py:223-229 | afterwards each shown thread's record gives its title and message count |
| Session.RefreshAllKeeps | streamlit_frontend_database.py:223-225 | refreshing keeps creation times and leaves records of unshown threads as they were |
| Session.SessionContext.constructor | streamlit_frontend_database.py:117-141 | setup: empty history, the fresh id as current thread, the stored thread ids plus the current one (repeat-free), metadata only for the new current thread |
| Session.SessionContext.AddThread | streamlit_frontend_database.py:27-36 | in place, the store becomes the `add_thread` result |
| Session.SessionContext.DeleteThread | streamlit_frontend_database.py:60-65 | in place, the store becomes the `delete_thread` result |
| Session.SessionContext.ResetChat | streamlit_frontend_database.py:15-25 | the new id is the current thread, the history is empty, the store is the reset result |
| Session.SessionContext.UpdateChatMetadata | streamlit_frontend_database.py:103-113 | only the metadata changes, to the refreshed map for the thread's stored messages |
| Session.SessionContext.ShowThreads | streamlit_frontend_database.py:212-229 | the threads are listed in the chosen order, computed from the metadata before the loop; afterwards every listed thread has an up-to-date record, and other records keep their values |
| Session.SessionContext.ClearAll | streamlit_frontend_database.py:170-174 | only the current thread stays listed and all metadata is dropped |
| Session.SessionContext.ClearAllBlock | streamlit_frontend_database.py:170-174 | one run of the clear-all block in its corrected form: it clears exactly when the run is the click with the box ticked, and otherwise leaves the store alone; the box's new value is the corrected rule's |
| Session.SessionContext.Regenerate | streamlit_frontend_database.py:302-304 | the history becomes its first idx entries, a prefix of the old one |
| Session.SessionContext.OpenThread | streamlit_frontend_database.py:243-248 | the thread becomes current and its stored messages become the history, one record per message with the role mapping |
| Session.SessionContext.DeleteFromSidebar | streamlit_frontend_database.py:264-268 | deleting the current thread first starts a new chat; afterwards the thread and its record are gone and the current thread is still listed |
| Session.SessionContext.SendMessage | streamlit_frontend_database.py:327-378 | an empty input does nothing; otherwise the user's record is appended, the prompt-prefixed messages are sent, and then either the streamed text is appended and the thread's record refreshed, or the fixed apology is appended and the metadata left alone |
| Widgets.ClearAllRunAsWritten | streamlit_frontend_database.py:170-174 | definition: one run of the block as written; the box is drawn only in the run the click triggers, holding what the previous run kept |
| Widgets.AsWrittenNeverClearsFrom | streamlit_frontend_database.py:170-174 | from any state with the box unticked, no sequence of interactions makes the block clear |
| Widgets.ClearAllNeverFires | streamlit_frontend_database.py:170-174 | as written, the block never clears, whatever the user does |
| Widgets.TickThenClickDoesNotClear | streamlit_frontend_database.py:170-174 | ticking the box and then clicking does not clear |
| Widgets.ClearAllRunCorrected | streamlit_frontend_database.py:170-174 | corrected: a run clears exactly when it is the click while the box is ticked; a box event sets the box, any other keeps it |
| Widgets.CorrectedClearsIffConfirmed | streamlit_frontend_database.py:170-174 | corrected: some run clears exactly when some click comes after events that leave the box ticked |
| Widgets.TickThenClickClears | streamlit_frontend_database.py:170-174 | corrected: ticking the box and then clicking clears |

## Left out

- The Streamlit UI is not modelled: widgets, layout, `st.rerun`, toasts, spinners, download buttons, the metrics bar and the 40-character cut of search result labels. Which button a user clicks is a choice of which method to call. The clear-all block's checkbox is modelled in `Widgets` (see Findings).
- The language model (`ChatGoogleGenerativeAI`, `bind_tools`) is an oracle sequence of replies. `ToolNode` is a total function from a call to its result text. `add_messages` is plain append; its replacement of messages with an existing id is not modelled.
- AgentGraph.RunGraph: the oracle is finite, so a run whose replies all call tools stops when the replies run out (`finished` false). The graph itself declares no bound. LangGraph's default recursion limit of 25 steps ends such a run with `GraphRecursionError`, which the frontend's `except` turns into the apology. That limit and its exception are not modelled.
- Which checkpoints are stored is not modelled: `SqliteSaver`, `InMemorySaver`, sqlite and `get_state`. `load_conversation` and its error path are an input map; a missing thread loads as the empty list.
- Checkpoints.RetrieveAllThreads: the order of the returned list is Python's set order, which is unspecified. The model lets it be any order.
- Checkpoints.RetrieveAllThreads: the error message printed when listing raises is output and is left out.
- Network and parsing are not modelled: `requests`, BeautifulSoup, the HTML cleaning in `web_scraper`, and the JSON answers of Wikipedia and other APIs. So are the failure strings of those tools. Only the truncation, the URL string and the method gate are modelled.
- `calculate` (`eval`), `python_code_executor` (`exec`), `regex_matcher` (a regex engine), `create_chart_data` (random), `get_current_time` (the clock) and `get_available_tools` are not modelled.
- Floating-point values are not modelled. This covers the `sum`, `average` and float-keyed `sort` of `data_processor`, its set-ordered `unique` (those four return `NotModelled`), and the average word length and vocabulary richness of `text_analyzer`. The temperature slider is not modelled either.
- Tools.FileAnalyzer: a json file is reported as handed on to `analyze_json`. JSON parsing and its error text are not modelled.
- Tools.FileReport.Render: writes out the report text for csv and text files. It has no contract of its own.
- Text.Lower: only ASCII letters are lower-cased. Python's full Unicode case mapping is not modelled.
- Text.Upper: only ASCII letters are upper-cased, for the same reason.
- Tools.ApiCaller: the default argument `method="GET"` is not modelled; the method is always passed.
- Tools.ApiCaller: `upper()` is modelled for ASCII letters only. Non-ASCII spellings that Python would upper-case to "GET" are not considered.
- Session.RefreshAll and Session.SessionContext.ShowThreads: one clock reading stands for the whole sidebar loop. The source calls `datetime.now()` once per shown thread, so its update times may differ slightly between threads; the model gives them all the same one.
- Timestamps are opaque clock readings passed as parameters. `datetime.now().isoformat()` formatting is not modelled. The export's `exported_at` and per-message `timestamp` (always `None`) are left out, and so is the JSON text of the export.
- `uuid4()` is the parameter `newId`. Session.SessionContext.DeleteFromSidebar requires the new id to differ from the deleted one, as a fresh `uuid4` does.
- Session.SessionContext.SendMessage: an exception raised after the answer was appended is not modelled. The only possible source is `update_chat_metadata`, whose loading already catches. The stream is given as its chunks, or as `None` when streaming raises. The stored messages after the turn are an input. Their link to AgentGraph.RunGraph is not stated.
- Conversations.AccumulateStream: following the code, chunks are not filtered by kind. Every chunk with non-empty content is added, including a tool message's content.
- Session.SessionContext.OpenThread requires the thread to be listed. The two buttons that call it exist only for listed threads.
- The UTF-8 decoding of an upload is not modelled: the content is given as text.
- `langgraph_backend.py` is not part of this model. It is a single-node wrapper with no logic of its own.

## Findings

| source | as written | input that shows it | evidently intended | confidence | as-written member | corrected member |
|---|---|---|---|---|---|---|
| streamlit_frontend_database.py:170-174 | the 'Are you sure?' checkbox is created only inside the branch of the 'Clear All Conversations' button; a button reads true only in the run its click triggers, and ticking the box triggers a run in which the button reads false, so the box is not drawn and loses its value | tick the box, then click the button: `[SetConfirm(true), ClickClearAll]` | clearing when the button is clicked while the box is ticked | not executed; rests on Streamlit's rerun and widget-state rules | Widgets.ClearAllNeverFires | Widgets.CorrectedClearsIffConfirmed |

The session uses the corrected rule: Session.SessionContext.ClearAllBlock runs one corrected block run and calls Session.SessionContext.ClearAll when it fires.
