/**
 What consuming a provider's stream leaves besides the calls: which session handles are known,
 and how each of the three endings reads. Source: core/src/loop_runner.rs, core/src/app.rs.
 */
module StreamEffects {
  import opened Wrappers
  import opened Transcript
  import opened TranscriptState

  // ----- Session handles -----

  /** Events that set or clear the handle of one provider. */
  predicate Touches(e: Event, claude: bool) {
    || (e.SessionHandle? && e.handle.ClaudeSession? == claude)
    || (e.ErrorText? && SessionExpired(e.message))
  }

  function HandleOf(s: Sessions, claude: bool): Option<string> {
    if claude then s.claude else s.codex
  }

  lemma TouchOne(s: Sessions, e: Event, claude: bool)
    ensures HandleOf(ApplySession(s, e), claude)
         == if !Touches(e, claude) then HandleOf(s, claude)
            else if e.SessionHandle? then Some(e.handle.id) else None
  {
  }

  predicate LastTouch(es: seq<Event>, i: nat, claude: bool) {
    && i < |es| && Touches(es[i], claude)
    && forall j | i < j < |es| :: !Touches(es[j], claude)
  }

  ghost predicate AppliesSessions(handle: Handler) {
    forall w, e :: handle(w, e).sessions == ApplySession(w.sessions, e)
  }

  /** What one event makes of a handle. */
  function Touched(before: Option<string>, e: Event, claude: bool): Option<string> {
    if !Touches(e, claude) then before else if e.SessionHandle? then Some(e.handle.id) else None
  }

  lemma HandleLast(handle: Handler, v: View, es: seq<Event>, n: nat, claude: bool)
    requires AppliesSessions(handle) && |es| == n + 1
    ensures HandleOf(HandleWith(handle, v, es).sessions, claude)
         == Touched(HandleOf(HandleWith(handle, v, es[..n]).sessions, claude), es[n], claude)
  {
    TouchOne(HandleWith(handle, v, es[..n]).sessions, es[n], claude);
  }

  lemma {:induction false} UntouchedFrom(handle: Handler, v: View, es: seq<Event>, i: nat, claude: bool)
    requires AppliesSessions(handle) && i <= |es| && forall j | i <= j < |es| :: !Touches(es[j], claude)
    ensures HandleOf(HandleWith(handle, v, es).sessions, claude)
         == HandleOf(HandleWith(handle, v, es[..i]).sessions, claude)
  {
    if i == |es| {
      assert es[..i] == es;
    } else {
      var n := |es| - 1;
      assert es[..n][..i] == es[..i];
      UntouchedFrom(handle, v, es[..n], i, claude);
      HandleLast(handle, v, es, n, claude);
    }
  }

  /**
   Each provider's handle is the last one the stream gave, unless the session expired after
   that, which forgets both; a stream that says nothing about it leaves it.
   */
  lemma LastHandleCounts(v: View, es: seq<Event>, claude: bool)
    ensures forall i: nat | LastTouch(es, i, claude) ::
      HandleOf(HandleAll(v, es).sessions, claude) == if es[i].SessionHandle? then Some(es[i].handle.id) else None
    ensures (forall j | 0 <= j < |es| :: !Touches(es[j], claude)) ==>
      HandleOf(HandleAll(v, es).sessions, claude) == HandleOf(v.sessions, claude)
  {
    var handle := (w: View, e: Event) => HandleOne(w, e);
    forall i: nat | LastTouch(es, i, claude)
      ensures HandleOf(HandleAll(v, es).sessions, claude) == if es[i].SessionHandle? then Some(es[i].handle.id) else None
    {
      UntouchedFrom(handle, v, es, i + 1, claude);
      assert es[..i + 1][..i] == es[..i];
      HandleLast(handle, v, es[..i + 1], i, claude);
    }
    if forall j | 0 <= j < |es| :: !Touches(es[j], claude) {
      UntouchedFrom(handle, v, es, 0, claude);
    }
  }

  // ----- How a stream ends -----

  /** Neither a Finished event nor a failing state hook among the first n events. */
  predicate RunsOn(es: seq<Event>, fails: nat -> bool, n: nat)
    requires n <= |es|
  {
    forall j | 0 <= j < n :: !es[j].Finished? && !((es[j].SessionHandle? || es[j].ErrorText?) && fails(j))
  }

  /** The transcript and the error mark after some events. */
  predicate Shows(v: View, es: seq<Event>, w: View) {
    && w.transcript == Fold(App, v.transcript, es)
    && (w.hadError <==> v.hadError || exists j :: 0 <= j < |es| && es[j].ErrorText?)
    && w.sessions == HandleAll(v, es).sessions
  }

  /** At a Finished event: the events before it, no response awaited any more; its hook may fail. */
  lemma EndsAtFinished(v: View, responding: bool, es: seq<Event>, fails: nat -> bool, n: nat)
    requires n < |es| && es[n].Finished? && RunsOn(es, fails, n)
    ensures var c := Consume(v, responding, es, fails);
      Shows(v, es[..n], c.view) && !c.responding && c.ok == !fails(n)
  {
    assert Handled(es, fails, 0) == n;
    HandleAllFolds(v, es[..n]);
  }

  /** At a failing hook: the events up to that one, the response still awaited, an error return. */
  lemma EndsAtHook(v: View, responding: bool, es: seq<Event>, fails: nat -> bool, n: nat)
    requires n < |es| && RunsOn(es, fails, n) && (es[n].SessionHandle? || es[n].ErrorText?) && fails(n)
    ensures var c := Consume(v, responding, es, fails);
      Shows(v, es[..n + 1], c.view) && c.responding == responding && !c.ok
  {
    assert HookFails(es, fails, n);
    assert Handled(es, fails, 0) == n + 1;
    HandleAllFolds(v, es[..n + 1]);
  }

  /** At the end of a stream that never finished: all events, then an error line, and the task is in error. */
  lemma EndsDisconnected(v: View, responding: bool, es: seq<Event>, fails: nat -> bool)
    requires RunsOn(es, fails, |es|)
    ensures var c := Consume(v, responding, es, fails);
      && c.view.transcript == Fold(App, v.transcript, es) + [ErrorLine("provider event stream disconnected")]
      && c.view.hadError && c.view.sessions == HandleAll(v, es).sessions
      && !c.responding && c.ok == !fails(|es|)
  {
    assert Handled(es, fails, 0) == |es|;
    assert es[..|es|] == es;
    HandleAllFolds(v, es);
  }
}
