/**
 The two owners of a transcript, with the source's backward loops, each proved against the
 fold of Transcript: the application state, which consumes a provider's whole event stream,
 and the worker handle.
 */
module TranscriptState {
  import opened Wrappers
  import opened Transcript

  datatype Sessions = Sessions(claude: Option<string>, codex: Option<string>)

  /** The session handles after one event: a handle is kept, an expired session clears both. */
  function ApplySession(s: Sessions, e: Event): Sessions {
    match e
    case SessionHandle(ClaudeSession(id)) => s.(claude := Some(id))
    case SessionHandle(CodexThread(id)) => s.(codex := Some(id))
    case ErrorText(message) => if SessionExpired(message) then Sessions(None, None) else s
    case _ => s
  }

  /** Everything an event stream changes in the application state. */
  datatype View = View(transcript: seq<Entry>, sessions: Sessions, hadError: bool)

  function HandleOne(v: View, e: Event): View {
    View(Apply(App, v.transcript, e), ApplySession(v.sessions, e), v.hadError || e.ErrorText?)
  }

  type Handler = (View, Event) -> View

  /** Events handled one after the other, by any handler. */
  function HandleWith(handle: Handler, v: View, es: seq<Event>): View {
    if es == [] then v else handle(HandleWith(handle, v, es[..|es| - 1]), es[|es| - 1])
  }

  function HandleAll(v: View, es: seq<Event>): View {
    HandleWith((w: View, e: Event) => HandleOne(w, e), v, es)
  }

  /** One more event handled. */
  lemma HandleNext(handle: Handler, v: View, es: seq<Event>, k: nat)
    requires k < |es|
    ensures HandleWith(handle, v, es[..k + 1]) == handle(HandleWith(handle, v, es[..k]), es[k])
  {
    assert es[..k + 1][..k] == es[..k];
  }

  /** Events applied one after the other, by any rule. */
  function ApplyWith(apply: (seq<Entry>, Event) -> seq<Entry>, t: seq<Entry>, es: seq<Event>): seq<Entry> {
    if es == [] then t else apply(ApplyWith(apply, t, es[..|es| - 1]), es[|es| - 1])
  }

  lemma {:induction false} HandledTranscript(handle: Handler, apply: (seq<Entry>, Event) -> seq<Entry>,
      v: View, es: seq<Event>)
    requires forall w, e :: handle(w, e).transcript == apply(w.transcript, e)
    ensures HandleWith(handle, v, es).transcript == ApplyWith(apply, v.transcript, es)
  {
    if es != [] {
      HandledTranscript(handle, apply, v, es[..|es| - 1]);
    }
  }

  lemma {:induction false} AppliedIsFold(apply: (seq<Entry>, Event) -> seq<Entry>, t: seq<Entry>, es: seq<Event>)
    requires apply == ((u: seq<Entry>, e: Event) => Apply(App, u, e))
    ensures ApplyWith(apply, t, es) == Fold(App, t, es)
  {
    if es != [] {
      var n := |es| - 1;
      AppliedIsFold(apply, t, es[..n]);
      FoldSnoc(App, t, es[..n], es[n]);
      assert es == es[..n] + [es[n]];
    }
  }

  lemma {:induction false} HandledError(handle: Handler, v: View, es: seq<Event>)
    requires forall w, e :: handle(w, e).hadError <==> w.hadError || e.ErrorText?
    ensures HandleWith(handle, v, es).hadError <==> v.hadError || HasError(es)
  {
    if es != [] {
      var n := |es| - 1;
      HandledError(handle, v, es[..n]);
      assert es == es[..n] + [es[n]];
      assert HasError(es) <==> HasError(es[..n]) || es[n].ErrorText?;
    }
  }

  /** Handling a stream folds the transcript, and marks the task in error exactly on an error event. */
  lemma HandleAllFolds(v: View, es: seq<Event>)
    ensures HandleAll(v, es).transcript == Fold(App, v.transcript, es)
    ensures HandleAll(v, es).hadError <==> v.hadError || HasError(es)
  {
    var handle := (w: View, e: Event) => HandleOne(w, e);
    var apply := (u: seq<Entry>, e: Event) => Apply(App, u, e);
    HandledTranscript(handle, apply, v, es);
    AppliedIsFold(apply, v.transcript, es);
    HandledError(handle, v, es);
  }

  predicate HasError(es: seq<Event>) {
    exists i :: 0 <= i < |es| && es[i].ErrorText?
  }

  /** Events after which the caller's state hook is called. */
  predicate CallsHook(e: Event) {
    e.SessionHandle? || e.ErrorText?
  }

  predicate HookFails(es: seq<Event>, fails: nat -> bool, k: nat)
    requires k < |es|
  {
    CallsHook(es[k]) && fails(k)
  }

  /**
   How many events from the k-th on are handled: those before the first Finished, or up to and
   including the first whose hook fails, or all of them.
   */
  function Handled(es: seq<Event>, fails: nat -> bool, k: nat): (n: nat)
    requires k <= |es|
    ensures k <= n <= |es|
    ensures forall j | k <= j < n :: !es[j].Finished?
    ensures forall j | k <= j < n - 1 :: !HookFails(es, fails, j)
    ensures n < |es| ==> es[n].Finished? || (n > k && HookFails(es, fails, n - 1))
    decreases |es| - k
  {
    if k == |es| || es[k].Finished? then k
    else if HookFails(es, fails, k) then k + 1
    else Handled(es, fails, k + 1)
  }

  const DISCONNECTED_MESSAGE := "provider event stream disconnected"

  /** How consuming a stream ends: the state, whether a response is still awaited, and no error return. */
  datatype Consumption = Consumption(view: View, responding: bool, ok: bool)

  function Consume(v: View, responding: bool, es: seq<Event>, fails: nat -> bool): Consumption {
    var n := Handled(es, fails, 0);
    var w := HandleAll(v, es[..n]);
    if n > 0 && HookFails(es, fails, n - 1) then Consumption(w, responding, false)
    else if n < |es| then Consumption(w, false, !fails(n))
    else
      Consumption(w.(transcript := w.transcript + [ErrorLine(DISCONNECTED_MESSAGE)], hadError := true), false, !fails(n))
  }

  class AppState {
    var transcript: seq<Entry>
    var claudeSessionId: Option<string>
    var codexThreadId: Option<string>
    var activeTaskHadError: bool
    var responding: bool

    constructor ()
      ensures transcript == [] && claudeSessionId == None && codexThreadId == None
      ensures !activeTaskHadError && !responding
    {
      transcript, claudeSessionId, codexThreadId := [], None, None;
      activeTaskHadError, responding := false, false;
    }

    method AppendAssistantChunk(chunk: string)
      modifies this`transcript
      ensures transcript == Apply(App, old(transcript), AssistantChunk(chunk))
    {
      var n := |transcript| - 1;
      if n >= 0 && transcript[n].Assistant? {
        transcript := transcript[n := Assistant(transcript[n].text + chunk)];
      } else {
        transcript := transcript + [Assistant(chunk)];
      }
    }

    method AppendThinkingChunk(chunk: string)
      modifies this`transcript
      ensures transcript == Apply(App, old(transcript), ThinkingChunk(chunk))
    {
      var n := |transcript| - 1;
      if n >= 0 && transcript[n].Thinking? {
        transcript := transcript[n := Thinking(transcript[n].text + chunk)];
      } else {
        transcript := transcript + [Thinking(chunk)];
      }
    }

    method PushExecCommandFinished(callId: Option<string>, outputPreview: Option<string>, status: CallStatus,
                                   exitCode: Option<int>, durationMs: Option<nat>, source: Option<string>)
      modifies this`transcript
      ensures transcript ==
        Apply(App, old(transcript), ExecFinished(callId, outputPreview, status, exitCode, durationMs, source))
    {
      ghost var e := ExecFinished(callId, outputPreview, status, exitCode, durationMs, source);
      var i := |transcript|;
      while i > 0
        invariant 0 <= i <= |transcript| && transcript == old(transcript)
        invariant forall j | i <= j < |transcript| :: !Hits(App, e, transcript[j])
      {
        i := i - 1;
        var x := transcript[i];
        if x.ExecCommand? && x.status.InProgress? {
          var matchesCallId := callId.Some? && x.callId == callId;
          var matchesName := x.callId.None?;
          if matchesCallId || matchesName {
            RewriteAt(App, transcript, e, i);
            transcript := transcript[i :=
              ExecCommand(x.callId.Or(callId), x.source.Or(source), x.allowExploringGroup, x.inputPreview,
                          outputPreview, status, exitCode, durationMs)];
            return;
          }
        }
      }
      transcript := transcript +
        [ExecCommand(callId, source, false, None, outputPreview, status, exitCode, durationMs)];
    }

    method AppendExecCommandOutput(callId: Option<string>, delta: string)
      modifies this`transcript
      ensures transcript == Apply(App, old(transcript), ExecDelta(callId, delta))
    {
      if delta == "" {
        return;
      }
      ghost var e := ExecDelta(callId, delta);
      var i := |transcript|;
      while i > 0
        invariant 0 <= i <= |transcript| && transcript == old(transcript)
        invariant forall j | i <= j < |transcript| :: !Hits(App, e, transcript[j])
      {
        i := i - 1;
        var x := transcript[i];
        if x.ExecCommand? {
          var matchesCallId := callId.Some? && x.callId == callId;
          var matchesLatestInFlight := callId.None?;
          if matchesCallId || matchesLatestInFlight {
            RewriteAt(App, transcript, e, i);
            transcript := transcript[i :=
              ExecCommand(x.callId, x.source, x.allowExploringGroup, x.inputPreview,
                          Some(x.outputPreview.GetOr("") + delta), x.status, x.exitCode, x.durationMs)];
            return;
          }
        }
      }
      transcript := transcript + [ExecCommand(callId, None, false, None, Some(delta), InProgress, None, None)];
    }

    method PushGenericToolCallFinished(name: string, callId: Option<string>, outputPreview: Option<string>,
                                       success: bool, exitCode: Option<int>, durationMs: Option<nat>)
      modifies this`transcript
      ensures transcript == Apply(App, old(transcript), GenericFinished(name, callId, outputPreview, success, exitCode, durationMs))
    {
      ghost var e := GenericFinished(name, callId, outputPreview, success, exitCode, durationMs);
      var i := |transcript|;
      while i > 0
        invariant 0 <= i <= |transcript| && transcript == old(transcript)
        invariant forall j | i <= j < |transcript| :: !Hits(App, e, transcript[j])
      {
        i := i - 1;
        var x := transcript[i];
        if x.GenericToolCall? && x.started {
          var matchesCallId := callId.Some? && x.callId == callId;
          var matchesName := x.name == name;
          if matchesCallId || matchesName {
            RewriteAt(App, transcript, e, i);
            transcript := transcript[i := 
              GenericToolCall(x.name, x.callId.Or(callId), x.inputPreview, outputPreview, success, false, exitCode, durationMs)];
            return;
          }
        }
      }
      transcript := transcript + [GenericToolCall(name, callId, None, outputPreview, success, false, exitCode, durationMs)];
    }

    method PushPatchApplyFinished(callId: Option<string>, changes: seq<string>, status: CallStatus)
      modifies this`transcript
      ensures transcript == Apply(App, old(transcript), PatchFinished(callId, changes, status))
    {
      ghost var e := PatchFinished(callId, changes, status);
      var i := |transcript|;
      while i > 0
        invariant 0 <= i <= |transcript| && transcript == old(transcript)
        invariant forall j | i <= j < |transcript| :: !Hits(App, e, transcript[j])
      {
        i := i - 1;
        var x := transcript[i];
        if x.PatchApply? && x.status.InProgress? {
          var matchesCallId := callId.Some? && x.callId == callId;
          var matchesName := x.callId.None?;
          if matchesCallId || matchesName {
            RewriteAt(App, transcript, e, i);
            transcript := transcript[i := 
              PatchApply(x.callId.Or(callId), if changes == [] then x.changes else changes, status, x.outputPreview)];
            return;
          }
        }
      }
      transcript := transcript + [PatchApply(callId, changes, status, None)];
    }

    /** Patch output without an entry to go to is dropped. */
    method AppendPatchApplyOutput(callId: Option<string>, delta: string)
      modifies this`transcript
      ensures transcript == Apply(App, old(transcript), PatchDelta(callId, delta))
    {
      if delta == "" {
        return;
      }
      ghost var e := PatchDelta(callId, delta);
      var i := |transcript|;
      while i > 0
        invariant 0 <= i <= |transcript| && transcript == old(transcript)
        invariant forall j | i <= j < |transcript| :: !Hits(App, e, transcript[j])
      {
        i := i - 1;
        var x := transcript[i];
        if x.PatchApply? {
          var matchesCallId := callId.Some? && x.callId == callId;
          var matchesLatest := callId.None?;
          if matchesCallId || matchesLatest {
            RewriteAt(App, transcript, e, i);
            transcript := transcript[i := 
              PatchApply(x.callId, x.changes, x.status, Some(x.outputPreview.GetOr("") + delta))];
            return;
          }
        }
      }
    }

    method PushWebSearchFinished(callId: Option<string>, query: string, action: Option<string>)
      modifies this`transcript
      ensures transcript == Apply(App, old(transcript), SearchFinished(callId, query, action))
    {
      ghost var e := SearchFinished(callId, query, action);
      var i := |transcript|;
      while i > 0
        invariant 0 <= i <= |transcript| && transcript == old(transcript)
        invariant forall j | i <= j < |transcript| :: !Hits(App, e, transcript[j])
      {
        i := i - 1;
        var x := transcript[i];
        if x.WebSearch? && x.started {
          var matchesCallId := callId.Some? && x.callId == callId;
          var matchesName := x.callId.None?;
          if matchesCallId || matchesName {
            RewriteAt(App, transcript, e, i);
            transcript := transcript[i := WebSearch(x.callId.Or(callId), query, action, false)];
            return;
          }
        }
      }
      transcript := transcript + [WebSearch(callId, query, action, false)];
    }

    method PushMcpToolCallFinished(callId: Option<string>, invocation: string, resultBlocks: seq<string>,
                                   error: Option<string>, status: CallStatus, isError: bool)
      modifies this`transcript
      ensures transcript == Apply(App, old(transcript), McpFinished(callId, invocation, resultBlocks, error, status, isError))
    {
      ghost var e := McpFinished(callId, invocation, resultBlocks, error, status, isError);
      var i := |transcript|;
      while i > 0
        invariant 0 <= i <= |transcript| && transcript == old(transcript)
        invariant forall j | i <= j < |transcript| :: !Hits(App, e, transcript[j])
      {
        i := i - 1;
        var x := transcript[i];
        if x.McpToolCall? && x.status.InProgress? {
          var matchesCallId := callId.Some? && x.callId == callId;
          var matchesName := x.callId.None?;
          if matchesCallId || matchesName {
            RewriteAt(App, transcript, e, i);
            transcript := transcript[i := 
              McpToolCall(x.callId.Or(callId), invocation, resultBlocks, error, status, isError)];
            return;
          }
        }
      }
      transcript := transcript + [McpToolCall(callId, invocation, resultBlocks, error, status, isError)];
    }

    method ApplySessionHandle(handle: Handle)
      modifies this`claudeSessionId, this`codexThreadId
      ensures Sessions(claudeSessionId, codexThreadId) ==
        ApplySession(old(Sessions(claudeSessionId, codexThreadId)), SessionHandle(handle))
    {
      match handle
      case ClaudeSession(id) => claudeSessionId := Some(id);
      case CodexThread(id) => codexThreadId := Some(id);
    }

    function State(): View
      reads this
    {
      View(transcript, Sessions(claudeSessionId, codexThreadId), activeTaskHadError)
    }

    method HandleEvent(e: Event)
      modifies this
      ensures State() == HandleOne(old(State()), e)
      ensures responding == old(responding)
    {
      if e.AssistantChunk? {
        AppendAssistantChunk(e.chunk);
      } else if e.ThinkingChunk? {
        AppendThinkingChunk(e.chunk);
      } else if e.ExecFinished? {
        PushExecCommandFinished(e.callId, e.outputPreview, e.status, e.exitCode, e.durationMs, e.source);
      } else if e.ExecDelta? {
        AppendExecCommandOutput(e.callId, e.delta);
      } else if e.SessionHandle? {
        ApplySessionHandle(e.handle);
        assert transcript + [] == transcript;
      } else if e.ErrorText? {
        activeTaskHadError := true;
        if SessionExpired(e.message) {
          claudeSessionId, codexThreadId, transcript := None, None, [];
          transcript := transcript + [ErrorLine(SESSION_EXPIRED_MESSAGE)];
        } else {
          transcript := transcript + [ErrorLine(e.message)];
        }
      } else if e.GenericFinished? {
        PushGenericToolCallFinished(e.name, e.callId, e.outputPreview, e.success, e.exitCode, e.durationMs);
      } else if e.PatchFinished? {
        PushPatchApplyFinished(e.callId, e.changes, e.status);
      } else if e.PatchDelta? {
        AppendPatchApplyOutput(e.callId, e.delta);
      } else if e.SearchFinished? {
        PushWebSearchFinished(e.callId, e.query, e.action);
      } else if e.McpFinished? {
        PushMcpToolCallFinished(e.callId, e.invocation, e.resultBlocks, e.error, e.status, e.isError);
      } else {
        transcript := transcript + Pushed(e);
      }
    }

    method HandleNextEvent(events: seq<Event>, n: nat, ghost start: View)
      requires n < |events| && State() == HandleAll(start, events[..n])
      modifies this
      ensures State() == HandleAll(start, events[..n + 1]) && responding == old(responding)
    {
      HandleNext((w: View, e: Event) => HandleOne(w, e), start, events, n);
      HandleEvent(events[n]);
    }

    /** The loop over the events: how many it handles, and whether it ends without an error return. */
    method HandleUntilStopped(events: seq<Event>, fails: nat -> bool) returns (n: nat, ok: bool)
      modifies this
      ensures n == Handled(events, fails, 0) && ok == !(n > 0 && HookFails(events, fails, n - 1))
      ensures State() == HandleAll(old(State()), events[..n]) && responding == old(responding)
    {
      ghost var start := State();
      n := 0;
      while n < |events| && !events[n].Finished?
        invariant n <= |events| && Handled(events, fails, 0) == Handled(events, fails, n)
        invariant n > 0 ==> !HookFails(events, fails, n - 1)
        invariant State() == HandleAll(start, events[..n]) && responding == old(responding)
      {
        HandleNextEvent(events, n, start);
        n := n + 1;
        if HookFails(events, fails, n - 1) {
          return n, false;
        }
      }
      return n, true;
    }

    /**
     Handle events until Finished, or until the stream ends without one: then the task is marked
     in error and the transcript says that the provider disconnected.  A state hook that fails
     ends it there and then; `fails(k)` says whether the one called for event k does.
     */
    method ConsumeProviderUntilFinished(events: seq<Event>, fails: nat -> bool) returns (ok: bool)
      modifies this
      ensures Consumption(State(), responding, ok) == Consume(old(State()), old(responding), events, fails)
    {
      var n, handled := HandleUntilStopped(events, fails);
      if !handled {
        return false;
      }
      if n == |events| {
        activeTaskHadError := true;
        transcript := transcript + [ErrorLine(DISCONNECTED_MESSAGE)];
      }
      responding := false;
      return !fails(n);
    }
  }

  class WorkerHandle {
    var transcript: seq<Entry>

    constructor ()
      ensures transcript == []
    {
      transcript := [];
    }

    method UpdateLastExecCommand(callId: Option<string>, outputPreview: Option<string>, status: CallStatus,
                                 exitCode: Option<int>, durationMs: Option<nat>)
      modifies this`transcript
      ensures transcript ==
        Apply(Worker, old(transcript), ExecFinished(callId, outputPreview, status, exitCode, durationMs, None))
    {
      ghost var e := ExecFinished(callId, outputPreview, status, exitCode, durationMs, None);
      var i := |transcript|;
      while i > 0
        invariant 0 <= i <= |transcript| && transcript == old(transcript)
        invariant forall j | i <= j < |transcript| :: !Hits(Worker, e, transcript[j])
      {
        i := i - 1;
        var x := transcript[i];
        if x.ExecCommand? && x.status.InProgress? {
          var matchesCallId := callId.Some? && x.callId == callId;
          var matchesLatestInFlight := callId.None?;
          if matchesCallId || matchesLatestInFlight {
            RewriteAt(Worker, transcript, e, i);
            transcript := transcript[i :=
              ExecCommand(x.callId.Or(callId), x.source, x.allowExploringGroup, x.inputPreview,
                          outputPreview, status, exitCode, durationMs)];
            return;
          }
        }
      }
      transcript := transcript +
        [ExecCommand(callId, None, false, None, outputPreview, status, exitCode, durationMs)];
    }

    method AppendExecCommandOutputDelta(callId: Option<string>, delta: string)
      modifies this`transcript
      ensures transcript == Apply(Worker, old(transcript), ExecDelta(callId, delta))
    {
      if delta == "" {
        return;
      }
      ghost var e := ExecDelta(callId, delta);
      var i := |transcript|;
      while i > 0
        invariant 0 <= i <= |transcript| && transcript == old(transcript)
        invariant forall j | i <= j < |transcript| :: !Hits(Worker, e, transcript[j])
      {
        i := i - 1;
        var x := transcript[i];
        if x.ExecCommand? && x.status.InProgress? {
          var matchesCallId := callId.Some? && x.callId == callId;
          var matchesLatestInFlight := callId.None?;
          if matchesCallId || matchesLatestInFlight {
            RewriteAt(Worker, transcript, e, i);
            transcript := transcript[i :=
              ExecCommand(x.callId, x.source, x.allowExploringGroup, x.inputPreview,
                          Some(x.outputPreview.GetOr("") + delta), x.status, x.exitCode, x.durationMs)];
            return;
          }
        }
      }
      transcript := transcript + [ExecCommand(callId, None, false, None, Some(delta), InProgress, None, None)];
    }
  }
}
