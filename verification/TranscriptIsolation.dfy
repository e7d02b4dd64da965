/**
 Calls do not interfere: for an event stream that identifies its calls, the entries of one
 call are those of running that call's events alone.  And what no event does to any entry.
 */
module TranscriptIsolation {
  import opened Wrappers
  import opened BackwardScan
  import opened Transcript

  // ----- Call isolation -----

  /** An entry of call c.  Generic tool calls are also matched by name, so they are not counted. */
  predicate OfCall(x: Entry, c: string) {
    match x
    case ExecCommand(callId, _, _, _, _, _, _, _) => callId == Some(c)
    case PatchApply(callId, _, _, _) => callId == Some(c)
    case WebSearch(callId, _, _, _) => callId == Some(c)
    case ViewImage(callId, _) => callId == Some(c)
    case ImageGeneration(callId, _, _, _) => callId == Some(c)
    case McpToolCall(callId, _, _, _, _, _) => callId == Some(c)
    case _ => false
  }

  /** The call an event belongs to, if it is an event of an identifiable call. */
  function CallOf(e: Event): Option<string> {
    match e
    case ExecStarted(callId, _, _) => callId
    case ExecFinished(callId, _, _, _, _, _) => callId
    case ExecDelta(callId, _) => callId
    case SearchStarted(callId, _) => callId
    case SearchFinished(callId, _, _) => callId
    case ImageViewed(callId, _) => callId
    case ImageFinished(callId, _, _, _) => callId
    case McpStarted(callId, _) => callId
    case McpFinished(callId, _, _, _, _, _) => callId
    case PatchStarted(callId, _) => callId
    case PatchDelta(callId, _) => callId
    case PatchFinished(callId, _, _) => callId
    case _ => None
  }

  predicate CallEvent(e: Event) {
    || e.ExecStarted? || e.ExecFinished? || e.ExecDelta? || e.SearchStarted? || e.SearchFinished?
    || e.ImageViewed? || e.ImageFinished? || e.McpStarted? || e.McpFinished?
    || e.PatchStarted? || e.PatchDelta? || e.PatchFinished?
  }

  function Keeper(c: string): (Entry -> bool) {
    x => OfCall(x, c)
  }

  function EntriesOf(t: seq<Entry>, c: string): (r: seq<Entry>)
    ensures forall x :: x in r <==> x in t && OfCall(x, c)
  {
    Filter(t, Keeper(c))
  }

  function EventsOf(es: seq<Event>, c: string): seq<Event>
    decreases |es|
  {
    if es == [] then []
    else (if CallOf(es[0]) == Some(c) then [es[0]] else []) + EventsOf(es[1..], c)
  }

  predicate InFlight(x: Entry) {
    match x
    case ExecCommand(_, _, _, _, _, status, _, _) => status.InProgress?
    case PatchApply(_, _, status, _) => status.InProgress?
    case WebSearch(_, _, _, started) => started
    case McpToolCall(_, _, _, _, status, _) => status.InProgress?
    case _ => false
  }

  /** An in-flight entry with no call id: the next Finished of its kind would claim it. */
  predicate Anonymous(x: Entry) {
    InFlight(x) && x.callId.None?
  }

  predicate NoAnonymous(t: seq<Entry>) {
    forall x | x in t :: !Anonymous(x)
  }

  predicate Identified(e: Event) {
    CallEvent(e) ==> CallOf(e).Some?
  }

  predicate Admissible(es: seq<Event>) {
    forall e | e in es :: Identified(e) && !Resets(e)
  }

  lemma EntriesSnoc(t: seq<Entry>, x: Entry, c: string)
    ensures EntriesOf(t + [x], c) == EntriesOf(t, c) + if OfCall(x, c) then [x] else []
  {
  }

  /** Entries that are all of call c, or none, at the end of a transcript. */
  lemma EntriesAppend(t: seq<Entry>, more: seq<Entry>, c: string, own: bool)
    requires forall x | x in more :: OfCall(x, c) == own
    ensures EntriesOf(t + more, c) == if own then EntriesOf(t, c) + more else EntriesOf(t, c)
  {
    FilterAppend(t, more, Keeper(c));
    FilterUniform(more, Keeper(c));
    assert EntriesOf(t, c) + [] == EntriesOf(t, c);
  }

  /** What an event pushes is its own call's and not anonymous. */
  lemma PushesOwnEntries(impl: Impl, e: Event, c: string)
    requires Identified(e)
    ensures forall x | x in Pushed(e) :: !Anonymous(x) && OfCall(x, c) == (CallOf(e) == Some(c))
    ensures Scans(e) ==> forall x | x in Missed(impl, e) :: !Anonymous(x) && OfCall(x, c) == (CallOf(e) == Some(c))
  {
  }

  /** An identified scan on a transcript without anonymous entries hits entries of its own call only. */
  lemma HitsOwnCall(impl: Impl, e: Event, x: Entry)
    requires Scans(e) && CallEvent(e) && CallOf(e).Some? && !Anonymous(x) && Hits(impl, e, x)
    ensures OfCall(x, CallOf(e).value)
    ensures OfCall(Rewritten(impl, e, x), CallOf(e).value)
    ensures !Anonymous(Rewritten(impl, e, x))
  {
  }

  /** What a scan does to the entries of its own call, and of any other. */
  lemma ScanIsolated(impl: Impl, t: seq<Entry>, e: Event, c: string)
    requires Scans(e) && Identified(e) && NoAnonymous(t)
    ensures var r := TryRewrite(impl, t, e);
      && (r.Some? ==> NoAnonymous(r.value))
      && (CallOf(e) == Some(c) ==>
            TryRewrite(impl, EntriesOf(t, c), e) == if r.Some? then Some(EntriesOf(r.value, c)) else None)
      && (CallOf(e) != Some(c) && r.Some? ==> EntriesOf(r.value, c) == EntriesOf(t, c))
  {
    var hits, rewrite := Hitter(impl, e), Rewriter(impl, e);
    forall x | x in t && hits(x)
      ensures !Anonymous(rewrite(x))
      ensures CallOf(e) == Some(c) ==> OfCall(x, c) && OfCall(rewrite(x), c)
      ensures CallOf(e) != Some(c) ==> !OfCall(x, c) && !OfCall(rewrite(x), c)
    {
      if CallEvent(e) { HitsOwnCall(impl, e, x); }
    }
    if CallOf(e) == Some(c) {
      ScanCommutes(t, hits, rewrite, Keeper(c));
    } else if TryRewrite(impl, t, e).Some? {
      ScanInvisible(t, hits, rewrite, Keeper(c));
    }
    if TryRewrite(impl, t, e).Some? {
      ScanPreserves(t, hits, rewrite, x => !Anonymous(x));
    }
  }

  lemma ChunkIsolated(impl: Impl, t: seq<Entry>, e: Event, c: string)
    requires NoAnonymous(t) && (e.AssistantChunk? || e.ThinkingChunk?)
    ensures NoAnonymous(Apply(impl, t, e)) && EntriesOf(Apply(impl, t, e), c) == EntriesOf(t, c)
  {
    var u := Apply(impl, t, e);
    if |u| == |t| {
      var n := |t| - 1;
      assert u == t[..n] + [u[n]];
      EntriesSnoc(t[..n], u[n], c);
    } else {
      EntriesSnoc(t, u[|t|], c);
    }
  }

  lemma ScanEventIsolated(impl: Impl, t: seq<Entry>, e: Event, c: string)
    requires NoAnonymous(t) && Identified(e) && Scans(e)
    ensures NoAnonymous(Scan(impl, t, e))
    ensures EntriesOf(Scan(impl, t, e), c) ==
      if CallOf(e) == Some(c) then Scan(impl, EntriesOf(t, c), e) else EntriesOf(t, c)
  {
    ScanIsolated(impl, t, e, c);
    if TryRewrite(impl, t, e).None? {
      PushesOwnEntries(impl, e, c);
      EntriesAppend(t, Missed(impl, e), c, CallOf(e) == Some(c));
    }
  }

  lemma PushIsolated(impl: Impl, t: seq<Entry>, e: Event, c: string)
    requires NoAnonymous(t) && Identified(e)
    ensures NoAnonymous(t + Pushed(e))
    ensures EntriesOf(t + Pushed(e), c) == if CallOf(e) == Some(c) then EntriesOf(t, c) + Pushed(e) else EntriesOf(t, c)
  {
    PushesOwnEntries(impl, e, c);
    EntriesAppend(t, Pushed(e), c, CallOf(e) == Some(c));
  }

  lemma EventIsolated(impl: Impl, t: seq<Entry>, e: Event, c: string)
    requires NoAnonymous(t) && Identified(e) && !Resets(e)
    ensures NoAnonymous(Apply(impl, t, e))
    ensures EntriesOf(Apply(impl, t, e), c) ==
      if CallOf(e) == Some(c) then Apply(impl, EntriesOf(t, c), e) else EntriesOf(t, c)
  {
    if EmptyDelta(e) {
    } else if Scans(e) {
      ScanEventIsolated(impl, t, e, c);
    } else if e.AssistantChunk? || e.ThinkingChunk? {
      ChunkIsolated(impl, t, e, c);
    } else {
      PushIsolated(impl, t, e, c);
    }
  }

  lemma FoldCons(impl: Impl, t: seq<Entry>, e: Event, es: seq<Event>)
    ensures Fold(impl, t, [e] + es) == Fold(impl, Apply(impl, t, e), es)
  {
  }

  /** Running an interleaved stream and then looking at call c is running c's events on c's entries. */
  lemma {:induction false} CallIsolation(impl: Impl, t: seq<Entry>, es: seq<Event>, c: string)
    requires NoAnonymous(t) && Admissible(es)
    ensures NoAnonymous(Fold(impl, t, es))
    ensures EntriesOf(Fold(impl, t, es), c) == Fold(impl, EntriesOf(t, c), EventsOf(es, c))
    decreases |es|
  {
    if es != [] {
      var e, rest := es[0], es[1..];
      assert e in es && forall d | d in rest :: d in es;
      EventIsolated(impl, t, e, c);
      CallIsolation(impl, Apply(impl, t, e), rest, c);
      if CallOf(e) == Some(c) {
        FoldCons(impl, EntriesOf(t, c), e, EventsOf(rest, c));
      } else {
        assert [] + EventsOf(rest, c) == EventsOf(rest, c);
      }
    }
  }

  /**
   Without the condition on anonymous entries the law fails: an in-flight command with no call
   id is claimed by the Finished of call c, though call c has no entry of its own.
   */
  lemma AnonymousEntryIsStolen(x: Entry, e: Event, c: string)
    requires x.ExecCommand? && Anonymous(x) && x.inputPreview.Some?
    requires e.ExecFinished? && e.callId == Some(c)
    ensures EntriesOf([x], c) == []
    ensures EntriesOf(Apply(App, [x], e), c) != Apply(App, EntriesOf([x], c), e)
  {
    var y := Rewritten(App, e, x);
    EntriesAppend([], [x], c, false);
    EntriesAppend([], [y], c, true);
    assert [] + [x] == [x] && [] + [y] == [y];
    RewriteAt(App, [x], e, 0);
    assert [x][0 := y] == [y];
    var missed := Scan(App, [], e);
    assert missed == Missed(App, e) && missed[0].inputPreview == None;
    assert [y][0].inputPreview == x.inputPreview;
  }

  // ----- What no event does to an entry -----

  /** The same entry later on: same kind and call, same input and grouping, and never in flight again. */
  predicate Successor(x: Entry, y: Entry) {
    && (x.ExecCommand? <==> y.ExecCommand?) && (x.PatchApply? <==> y.PatchApply?)
    && (x.WebSearch? <==> y.WebSearch?) && (x.McpToolCall? <==> y.McpToolCall?)
    && (x.GenericToolCall? <==> y.GenericToolCall?) && (x.Assistant? <==> y.Assistant?)
    && (x.Thinking? <==> y.Thinking?)
    && (x.StatusLine? || x.ErrorLine? || x.ViewImage? || x.ImageGeneration? ==> x == y)
    && (InFlight(y) ==> InFlight(x))
    && (x.ExecCommand? ==>
          && x.inputPreview == y.inputPreview && x.allowExploringGroup == y.allowExploringGroup
          && (x.source.Some? ==> y.source == x.source))
    && (x.GenericToolCall? ==> x.inputPreview == y.inputPreview && x.name == y.name && (y.started ==> x.started))
    && (x.ExecCommand? || x.PatchApply? || x.WebSearch? || x.McpToolCall? || x.GenericToolCall? ==>
          x.callId.Some? ==> y.callId == x.callId)
    && (x.Assistant? ==> x.text <= y.text) && (x.Thinking? ==> x.text <= y.text)
  }

  predicate Extends(t: seq<Entry>, u: seq<Entry>) {
    && |t| <= |u|
    && forall k | 0 <= k < |t| :: Successor(t[k], u[k])
  }

  lemma RewrittenIsSuccessor(impl: Impl, e: Event, x: Entry)
    requires Scans(e) && Hits(impl, e, x)
    ensures Successor(x, Rewritten(impl, e, x))
  {
  }

  lemma EventExtends(impl: Impl, t: seq<Entry>, e: Event)
    requires !Resets(e)
    ensures Extends(t, Apply(impl, t, e))
  {
    if EmptyDelta(e) {
    } else if Scans(e) {
      ScanExtends(impl, t, e);
    } else if e.AssistantChunk? || e.ThinkingChunk? {
      ChunkExtends(impl, t, e);
    } else {
      var u := Apply(impl, t, e);
      assert forall k | 0 <= k < |t| :: u[k] == t[k];
    }
  }

  lemma ScanExtends(impl: Impl, t: seq<Entry>, e: Event)
    requires Scans(e)
    ensures Extends(t, Scan(impl, t, e))
  {
    var u := Scan(impl, t, e);
    if TryRewrite(impl, t, e).Some? {
      var i := LastHit(impl, t, e);
      RewriteAt(impl, t, e, i);
      RewrittenIsSuccessor(impl, e, t[i]);
      assert forall k | 0 <= k < |t| && k != i :: u[k] == t[k];
    } else {
      assert forall k | 0 <= k < |t| :: u[k] == t[k];
    }
  }

  lemma ChunkExtends(impl: Impl, t: seq<Entry>, e: Event)
    requires e.AssistantChunk? || e.ThinkingChunk?
    ensures Extends(t, Apply(impl, t, e))
  {
  }

  /** Entries keep their position and kind, and a finished entry is never in flight again. */
  lemma {:induction false} StreamExtends(impl: Impl, t: seq<Entry>, es: seq<Event>)
    requires forall e | e in es :: !Resets(e)
    ensures Extends(t, Fold(impl, t, es))
    decreases |es|
  {
    if es != [] {
      EventExtends(impl, t, es[0]);
      var u := Apply(impl, t, es[0]);
      StreamExtends(impl, u, es[1..]);
      var v := Fold(impl, u, es[1..]);
      forall k | 0 <= k < |t| ensures Successor(t[k], v[k]) {
        assert Successor(t[k], u[k]) && Successor(u[k], v[k]);
      }
    }
  }
}
