/** `retrieve_all_threads`: the thread ids named by the stored checkpoints.
    The checkpointer's listing is given as the sequence of checkpoint
    configurations it yields, together with the position (if any) at which
    iterating it raises. */
module Checkpoints {
  import opened Wrappers
  import opened Seqs

  /** The part of a checkpoint's configuration the function reads:
      `config['configurable']['thread_id']`, `None` when either key is absent. */
  datatype CheckpointConfig = CheckpointConfig(threadId: Option<string>)

  /** Python truthiness of the looked-up id: present and not the empty string. */
  predicate Truthy(c: CheckpointConfig) {
    c.threadId.Some? && c.threadId.value != ""
  }

  /** The checkpoints the loop gets to see: all of them, or those before the
      position at which the listing raises. */
  function Listed(listing: seq<CheckpointConfig>, raisesAt: Option<nat>): (seen: seq<CheckpointConfig>)
    ensures seen <= listing
    ensures raisesAt.None? ==> seen == listing
    ensures raisesAt.Some? ==> |seen| == if raisesAt.value < |listing| then raisesAt.value else |listing|
  {
    if raisesAt.Some? && raisesAt.value < |listing| then listing[..raisesAt.value] else listing
  }

  /** The set of truthy thread ids among `cs`. */
  function ThreadIds(cs: seq<CheckpointConfig>): set<string> {
    set i | 0 <= i < |cs| && Truthy(cs[i]) :: cs[i].threadId.value
  }

  lemma ThreadIdsOfNothing()
    ensures ThreadIds([]) == {}
  {
  }

  /** Adding checkpoints adds exactly their ids: the id set of a longer
      listing is the union of the id sets of its parts. */
  lemma {:induction false} ThreadIdsAppend(a: seq<CheckpointConfig>, b: seq<CheckpointConfig>)
    ensures ThreadIds(a + b) == ThreadIds(a) + ThreadIds(b)
  {
    var ab := a + b;
    forall t | t in ThreadIds(ab) ensures t in ThreadIds(a) + ThreadIds(b) {
      var i :| 0 <= i < |ab| && Truthy(ab[i]) && ab[i].threadId.value == t;
      if i < |a| {
        assert ab[i] == a[i];
      } else {
        assert ab[i] == b[i - |a|];
      }
    }
    forall t | t in ThreadIds(a) + ThreadIds(b) ensures t in ThreadIds(ab) {
      if t in ThreadIds(a) {
        var i :| 0 <= i < |a| && Truthy(a[i]) && a[i].threadId.value == t;
        assert ab[i] == a[i];
      } else {
        var i :| 0 <= i < |b| && Truthy(b[i]) && b[i].threadId.value == t;
        assert ab[|a| + i] == b[i];
      }
    }
  }

  /** A single checkpoint of thread `t` makes the listing name exactly `t`. */
  lemma OneThread(t: string)
    requires t != ""
    ensures ThreadIds([CheckpointConfig(Some(t))]) == {t}
  {
    assert Truthy([CheckpointConfig(Some(t))][0]);
  }

  /** Collect the truthy ids into a set while iterating the listing (an
      exception ends the iteration and is swallowed), then return the set as
      a list.  The order of that list is that of Python's set iteration,
      which is unspecified; here it is any order. */
  method RetrieveAllThreads(listing: seq<CheckpointConfig>, raisesAt: Option<nat>) returns (ids: seq<string>)
    ensures Distinct(ids)
    ensures forall t :: t in ids <==> t in ThreadIds(Listed(listing, raisesAt))
    ensures |ids| == |ThreadIds(Listed(listing, raisesAt))|
  {
    var all: set<string> := {};
    var i := 0;
    ThreadIdsOfNothing();
    assert listing[..0] == [];
    while i < |listing|
      invariant 0 <= i <= |listing|
      invariant all == ThreadIds(listing[..i])
      invariant raisesAt.Some? ==> i <= raisesAt.value
    {
      if raisesAt == Some(i) {
        break;
      }
      var c := listing[i];
      assert listing[..i + 1] == listing[..i] + [c];
      ThreadIdsAppend(listing[..i], [c]);
      if c.threadId.Some? && c.threadId.value != "" {
        OneThread(c.threadId.value);
        all := all + {c.threadId.value};
      } else {
        assert ThreadIds([c]) == {};
      }
      i := i + 1;
    }
    assert listing[..i] == Listed(listing, raisesAt);
    ids := [];
    var rest := all;
    while rest != {}
      invariant rest <= all
      invariant Distinct(ids)
      invariant forall t :: t in ids <==> t in all - rest
      invariant |ids| + |rest| == |all|
      decreases |rest|
    {
      var t :| t in rest;
      assert t !in ids;
      ids := ids + [t];
      rest := rest - {t};
    }
  }
}
