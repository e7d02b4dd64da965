/**
 What becomes of a patch, a search, an MCP call and a generic call, from Started to Finished,
 inside any interleaved stream.  Source: core/src/app.rs.
 */
module TranscriptCalls {
  import opened Wrappers
  import opened Transcript
  import opened TranscriptIsolation
  import opened TranscriptBrackets
  import opened TranscriptEffects

  /** A call that adds its entry to a transcript leaves the others be. */
  lemma FinishOnTop(base: seq<Entry>, start: Event, finish: Event, x: Entry, y: Entry)
    requires Apply(App, base, start) == base + [x]
    requires Scans(finish) && !EmptyDelta(finish) && Hits(App, finish, x) && y == Rewritten(App, finish, x)
    ensures Fold(App, base, [start, finish]) == base + [y]
  {
    FoldSnoc(App, base, [], start);
    FoldSnoc(App, base, [start], finish);
    assert [] + [start] == [start] && [start] + [finish] == [start, finish];
    TrySnoc(App, base, x, finish);
  }

  // ----- Searches, MCP calls, generic calls -----

  /** A search that is started and finished, whatever other calls do in between. */
  lemma SearchMatching(t: seq<Entry>, es: seq<Event>, c: string, start: Event, finish: Event)
    requires NoAnonymous(t) && Admissible(es) && EventsOf(es, c) == [start, finish]
    requires start.SearchStarted? && start.callId == Some(c) && finish.SearchFinished? && finish.callId == Some(c)
    ensures EntriesOf(Fold(App, t, es), c) ==
      EntriesOf(t, c) + [WebSearch(Some(c), finish.query, finish.action, false)]
  {
    CallIsolation(App, t, es, c);
    var x := WebSearch(Some(c), start.query, None, true);
    FinishOnTop(EntriesOf(t, c), start, finish, x, Rewritten(App, finish, x));
  }

  lemma McpMatching(t: seq<Entry>, es: seq<Event>, c: string, start: Event, finish: Event)
    requires NoAnonymous(t) && Admissible(es) && EventsOf(es, c) == [start, finish]
    requires start.McpStarted? && start.callId == Some(c) && finish.McpFinished? && finish.callId == Some(c)
    ensures EntriesOf(Fold(App, t, es), c) == EntriesOf(t, c)
      + [McpToolCall(Some(c), finish.invocation, finish.resultBlocks, finish.error, finish.status, finish.isError)]
  {
    CallIsolation(App, t, es, c);
    var x := McpToolCall(Some(c), start.invocation, [], None, InProgress, false);
    FinishOnTop(EntriesOf(t, c), start, finish, x, Rewritten(App, finish, x));
  }

  /** A generic call finished right after its start keeps the start's name and input. */
  lemma GenericCall(t: seq<Entry>, start: Event, finish: Event)
    requires start.GenericStarted? && finish.GenericFinished?
    requires start.name == finish.name || (finish.callId.Some? && start.callId == finish.callId)
    ensures Fold(App, t, [start, finish]) ==
      t + [GenericToolCall(start.name, if start.callId.Some? then start.callId else finish.callId, start.inputPreview,
                           finish.outputPreview, finish.success, false, finish.exitCode, finish.durationMs)]
  {
    var x := GenericToolCall(start.name, start.callId, start.inputPreview, None, true, true, None, None);
    FinishOnTop(t, start, finish, x, Rewritten(App, finish, x));
  }

  // ----- Patches -----

  predicate PatchEnd(e: Event) {
    e.PatchFinished? && e.status != InProgress
  }

  /** A patch is started once and afterwards gets output and at most one Finished. */
  predicate PatchBracketed(es: seq<Event>, c: string) {
    && es != [] && es[0].PatchStarted? && es[0].callId == Some(c)
    && (forall i | 0 < i < |es| :: (es[i].PatchDelta? || PatchEnd(es[i])) && es[i].callId == Some(c))
    && (forall i, j | 0 <= i < j < |es| :: !(PatchEnd(es[i]) && PatchEnd(es[j])))
  }

  /** All output of the stream, in order. */
  function PatchText(es: seq<Event>): string {
    if es == [] then ""
    else
      var e := es[|es| - 1];
      PatchText(es[..|es| - 1]) + if e.PatchDelta? then e.delta else ""
  }

  /** The one entry such a patch leaves: the output before and after its end, the end's status and changes. */
  predicate PatchSums(x: Entry, es: seq<Event>, c: string)
    requires es != [] && es[0].PatchStarted?
  {
    && x.PatchApply? && x.callId == Some(c)
    && x.outputPreview == (if PatchText(es) == "" then None else Some(PatchText(es)))
    && ((forall i | 0 <= i < |es| :: !PatchEnd(es[i])) ==> x.status == InProgress && x.changes == es[0].changes)
    && (forall i | 0 <= i < |es| && PatchEnd(es[i]) ::
          x.status == es[i].status && x.changes == if es[i].changes == [] then es[0].changes else es[i].changes)
  }

  lemma PatchFront(es: seq<Event>, c: string)
    requires PatchBracketed(es, c) && |es| > 1
    ensures var front := es[..|es| - 1];
      && PatchBracketed(front, c) && front[0] == es[0]
      && (PatchEnd(es[|es| - 1]) ==> forall i | 0 <= i < |front| :: !PatchEnd(front[i]))
  {
  }

  lemma PatchHit(base: seq<Entry>, x: Entry, e: Event)
    requires (e.PatchDelta? || e.PatchFinished?) && !EmptyDelta(e) && Hits(App, e, x)
    ensures Apply(App, base + [x], e) == base + [Rewritten(App, e, x)]
  {
    TrySnoc(App, base, x, e);
  }

  lemma OutputStep(before: Option<string>, text: string, delta: string)
    requires before == if text == "" then None else Some(text)
    ensures delta != "" ==> Appended(before, delta) == Some(text + delta) && text + delta != ""
    ensures text + "" == text
  {
  }

  lemma PatchStep(base: seq<Entry>, x: Entry, es: seq<Event>, c: string) returns (y: Entry)
    requires PatchBracketed(es, c) && |es| > 1 && PatchSums(x, es[..|es| - 1], c)
    ensures Apply(App, base + [x], es[|es| - 1]) == base + [y] && PatchSums(y, es, c)
  {
    var n := |es| - 1;
    var front, e := es[..n], es[n];
    PatchFront(es, c);
    OutputStep(x.outputPreview, PatchText(front), if e.PatchDelta? then e.delta else "");
    assert PatchText(es) == PatchText(front) + if e.PatchDelta? then e.delta else "";
    if EmptyDelta(e) {
      y := x;
    } else {
      PatchHit(base, x, e);
      y := Rewritten(App, e, x);
    }
    if PatchEnd(e) {
      assert PatchEnd(es[n]);
    } else if i :| 0 <= i < n && PatchEnd(es[i]) {
      assert PatchEnd(front[i]);
    }
    forall i | 0 <= i < |es| && PatchEnd(es[i])
      ensures y.status == es[i].status
      ensures y.changes == if es[i].changes == [] then es[0].changes else es[i].changes
    {
      if i < n { assert front[i] == es[i]; }
    }
  }

  lemma {:induction false} PatchOnTop(base: seq<Entry>, es: seq<Event>, c: string) returns (x: Entry)
    requires PatchBracketed(es, c)
    ensures Fold(App, base, es) == base + [x] && PatchSums(x, es, c)
    decreases |es|
  {
    var n := |es| - 1;
    var front, e := es[..n], es[n];
    assert es == front + [e];
    FoldSnoc(App, base, front, e);
    if n == 0 {
      assert Fold(App, base, front) == base && PatchText(front) == "";
      StartedPushes(App, base, e);
      x := PatchApply(Some(c), e.changes, InProgress, None);
    } else {
      PatchFront(es, c);
      var before := PatchOnTop(base, front, c);
      x := PatchStep(base, before, es, c);
    }
  }

  /**
   In any admissible stream in which the events of call c are a bracketed patch, the call has the
   entries it had and one more, which sums up those events.
   */
  lemma PatchMatching(t: seq<Entry>, es: seq<Event>, c: string) returns (x: Entry)
    requires NoAnonymous(t) && Admissible(es) && PatchBracketed(EventsOf(es, c), c)
    ensures EntriesOf(Fold(App, t, es), c) == EntriesOf(t, c) + [x]
    ensures PatchSums(x, EventsOf(es, c), c)
    ensures InFlight(x) <==> forall i | 0 <= i < |EventsOf(es, c)| :: !PatchEnd(EventsOf(es, c)[i])
  {
    CallIsolation(App, t, es, c);
    x := PatchOnTop(EntriesOf(t, c), EventsOf(es, c), c);
    if i :| 0 <= i < |EventsOf(es, c)| && PatchEnd(EventsOf(es, c)[i]) {
      assert x.status == EventsOf(es, c)[i].status;
    }
  }
}
