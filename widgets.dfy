/** When the 'Clear All Conversations' block fires.  Streamlit runs the whole
    script again after every interaction; a button reads `True` only in the
    run its own click triggers, and a widget that a run does not draw loses
    its state.  The block draws its confirmation checkbox only inside the
    button's branch, so the box cannot already be ticked in a run in which
    the button reads `True`.  The corrected form draws the box on every run,
    ahead of the button. */
module Widgets {

  /** The interaction that triggers a run of the script. */
  datatype Event = ClickClearAll | SetConfirm(ticked: bool) | OtherInteraction

  /** What Streamlit keeps of the confirmation box from the previous run:
      whether that run drew it, and its value. */
  datatype Confirm = Confirm(drawn: bool, ticked: bool)

  /** A fresh session: the box has never been drawn. */
  const Start := Confirm(false, false)

  /** Whether the block's assignments run, and the box's state afterwards. */
  datatype Outcome = Outcome(clears: bool, after: Confirm)

  /** One run of the block as written.  Only a run triggered by the click
      draws the box; that run was not triggered by the box, so the box holds
      the value it kept from the previous run, if that run drew it. */
  function ClearAllRunAsWritten(c: Confirm, e: Event): Outcome {
    if e == ClickClearAll then
      var ticked := c.drawn && c.ticked;
      Outcome(ticked, Confirm(true, ticked))
    else
      Outcome(false, Confirm(false, false))
  }

  /** Whether some run of the sequence `events` clears, starting from `c`. */
  function AsWrittenClears(c: Confirm, events: seq<Event>): bool
    decreases |events|
  {
    events != [] &&
      var o := ClearAllRunAsWritten(c, events[0]);
      o.clears || AsWrittenClears(o.after, events[1..])
  }

  /** No run ever leaves the box ticked, so no run clears. */
  lemma {:induction false} AsWrittenNeverClearsFrom(c: Confirm, events: seq<Event>)
    requires !c.ticked
    ensures !AsWrittenClears(c, events)
    decreases |events|
  {
    if events != [] {
      AsWrittenNeverClearsFrom(ClearAllRunAsWritten(c, events[0]).after, events[1..]);
    }
  }

  /** Whatever the user does, the block as written never clears. */
  lemma ClearAllNeverFires(events: seq<Event>)
    ensures !AsWrittenClears(Start, events)
  {
    AsWrittenNeverClearsFrom(Start, events);
  }

  /** An attempt as a user would make it: tick the box, then click. */
  lemma TickThenClickDoesNotClear()
    ensures !AsWrittenClears(Start, [SetConfirm(true), ClickClearAll])
  {
    ClearAllNeverFires([SetConfirm(true), ClickClearAll]);
  }

  /** The box's value and whether the run clears, when the box is drawn on
      every run ahead of the button. */
  datatype CorrectedOutcome = CorrectedOutcome(clears: bool, ticked: bool)

  function ClearAllRunCorrected(ticked: bool, e: Event): (o: CorrectedOutcome)
    ensures o.clears <==> e == ClickClearAll && ticked
    ensures o.ticked == if e.SetConfirm? then e.ticked else ticked
  {
    var now := if e.SetConfirm? then e.ticked else ticked;
    CorrectedOutcome(e == ClickClearAll && now, now)
  }

  function CorrectedClears(ticked: bool, events: seq<Event>): bool
    decreases |events|
  {
    events != [] &&
      var o := ClearAllRunCorrected(ticked, events[0]);
      o.clears || CorrectedClears(o.ticked, events[1..])
  }

  /** Corrected, a run clears exactly when the click comes while the box is
      ticked: the box's last setting before the click was a tick. */
  lemma {:induction false} CorrectedClearsIffConfirmed(ticked: bool, events: seq<Event>)
    ensures CorrectedClears(ticked, events) <==>
      exists k :: 0 <= k < |events| && events[k] == ClickClearAll && TickedBefore(ticked, events[..k])
    decreases |events|
  {
    if events != [] {
      var e := events[0];
      var next := ClearAllRunCorrected(ticked, e).ticked;
      CorrectedClearsIffConfirmed(next, events[1..]);
      if CorrectedClears(next, events[1..]) {
        var k :| 0 <= k < |events[1..]| && events[1..][k] == ClickClearAll && TickedBefore(next, events[1..][..k]);
        assert events[1..][..k] == events[..k + 1][1..];
        TickedBeforeStep(ticked, events[..k + 1]);
      }
      if e == ClickClearAll && ticked {
        assert events[..0] == [];
      }
      forall k | 0 <= k < |events| && events[k] == ClickClearAll && TickedBefore(ticked, events[..k])
        ensures CorrectedClears(ticked, events)
      {
        if k > 0 {
          assert events[1..][..k - 1] == events[..k][1..];
          TickedBeforeStep(ticked, events[..k]);
          assert events[1..][k - 1] == events[k];
        }
      }
    }
  }

  /** The box's value after the events `es`, starting from `ticked`. */
  function TickedBefore(ticked: bool, es: seq<Event>): bool
    decreases |es|
  {
    if es == [] then ticked
    else TickedBefore(if es[0].SetConfirm? then es[0].ticked else ticked, es[1..])
  }

  lemma TickedBeforeStep(ticked: bool, es: seq<Event>)
    requires es != []
    ensures TickedBefore(ticked, es) == TickedBefore(ClearAllRunCorrected(ticked, es[0]).ticked, es[1..])
  {
  }

  /** Corrected, ticking the box and then clicking clears. */
  lemma TickThenClickClears()
    ensures CorrectedClears(Start.ticked, [SetConfirm(true), ClickClearAll])
  {
  }
}
