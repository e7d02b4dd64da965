/**
 The transcript as a fold over provider events.

 A call's Started event pushes an in-flight entry; its Finished and output events scan the
 transcript backwards for the entry to rewrite, and push one when there is none.  The
 application state and the worker handle each implement the scan for shell commands, with
 different matching rules; Impl says which of the two is meant.
 */
module Transcript {
  import opened Wrappers
  import opened BackwardScan

  datatype CallStatus = InProgress | Completed | Failed | Declined

  datatype Entry =
    | Assistant(text: string)
    | Thinking(text: string)
    | StatusLine(text: string)
    | ErrorLine(text: string)
    | ExecCommand(callId: Option<string>, source: Option<string>, allowExploringGroup: bool,
                  inputPreview: Option<string>, outputPreview: Option<string>,
                  status: CallStatus, exitCode: Option<int>, durationMs: Option<nat>)
    | PatchApply(callId: Option<string>, changes: seq<string>, status: CallStatus, outputPreview: Option<string>)
    | WebSearch(callId: Option<string>, query: string, action: Option<string>, started: bool)
    | ViewImage(callId: Option<string>, path: string)
    | ImageGeneration(callId: Option<string>, revisedPrompt: Option<string>, result: Option<string>, savedPath: Option<string>)
    | McpToolCall(callId: Option<string>, invocation: string, resultBlocks: seq<string>,
                  error: Option<string>, status: CallStatus, isError: bool)
    | GenericToolCall(name: string, callId: Option<string>, inputPreview: Option<string>, outputPreview: Option<string>,
                      success: bool, started: bool, exitCode: Option<int>, durationMs: Option<nat>)

  datatype Handle = ClaudeSession(id: string) | CodexThread(id: string)

  datatype Event =
    | StatusText(text: string)
    | AssistantChunk(chunk: string)
    | ThinkingChunk(chunk: string)
    | ExecStarted(callId: Option<string>, inputPreview: Option<string>, source: Option<string>)
    | ExecFinished(callId: Option<string>, outputPreview: Option<string>, status: CallStatus,
                   exitCode: Option<int>, durationMs: Option<nat>, source: Option<string>)
    | ExecDelta(callId: Option<string>, delta: string)
    | GenericStarted(name: string, callId: Option<string>, inputPreview: Option<string>)
    | GenericFinished(name: string, callId: Option<string>, outputPreview: Option<string>, success: bool,
                      exitCode: Option<int>, durationMs: Option<nat>)
    | SearchStarted(callId: Option<string>, query: string)
    | SearchFinished(callId: Option<string>, query: string, action: Option<string>)
    | ImageViewed(callId: Option<string>, path: string)
    | ImageFinished(callId: Option<string>, revisedPrompt: Option<string>, result: Option<string>, savedPath: Option<string>)
    | McpStarted(callId: Option<string>, invocation: string)
    | McpFinished(callId: Option<string>, invocation: string, resultBlocks: seq<string>,
                  error: Option<string>, status: CallStatus, isError: bool)
    | PatchStarted(callId: Option<string>, changes: seq<string>)
    | PatchDelta(callId: Option<string>, delta: string)
    | PatchFinished(callId: Option<string>, changes: seq<string>, status: CallStatus)
    | SessionHandle(handle: Handle)
    | ErrorText(message: string)
    | ProviderPid(pid: nat)
    | Finished

  /** Which of the two implementations: the application state or the worker handle. */
  datatype Impl = App | Worker

  predicate OccursAt(s: string, part: string, i: nat) {
    i + |part| <= |s| && s[i..i + |part|] == part
  }

  predicate Contains(s: string, part: string) {
    exists i | 0 <= i <= |s| :: OccursAt(s, part, i)
  }

  /** An error that says the provider no longer knows the conversation. */
  predicate SessionExpired(error: string) {
    || Contains(error, "No conversation found with session ID")
    || Contains(error, "No conversation found")
    || Contains(error, "thread not found")
    || Contains(error, "session not found")
  }

  const SESSION_EXPIRED_MESSAGE :=
    "session expired - starting fresh conversation. Please retry your request."

  // ----- The backward scan -----

  /** Events that look for an entry to rewrite. */
  predicate Scans(e: Event) {
    || e.ExecFinished? || e.ExecDelta? || e.GenericFinished? || e.SearchFinished?
    || e.McpFinished? || e.PatchDelta? || e.PatchFinished?
  }

  predicate SameCall(wanted: Option<string>, existing: Option<string>) {
    wanted.Some? && existing == wanted
  }

  /** The entry is one the event would rewrite. */
  predicate Hits(impl: Impl, e: Event, x: Entry)
    requires Scans(e)
  {
    match e
    case ExecFinished(callId, _, _, _, _, _) =>
      && x.ExecCommand? && x.status.InProgress?
      && (SameCall(callId, x.callId) || (if impl.App? then x.callId.None? else callId.None?))
    case ExecDelta(callId, _) =>
      && x.ExecCommand? && (impl.Worker? ==> x.status.InProgress?)
      && (SameCall(callId, x.callId) || callId.None?)
    case GenericFinished(name, callId, _, _, _, _) =>
      x.GenericToolCall? && x.started && (SameCall(callId, x.callId) || x.name == name)
    case SearchFinished(callId, _, _) =>
      x.WebSearch? && x.started && (SameCall(callId, x.callId) || x.callId.None?)
    case McpFinished(callId, _, _, _, _, _) =>
      x.McpToolCall? && x.status.InProgress? && (SameCall(callId, x.callId) || x.callId.None?)
    case PatchDelta(callId, _) =>
      x.PatchApply? && (SameCall(callId, x.callId) || callId.None?)
    case PatchFinished(callId, _, _) =>
      x.PatchApply? && x.status.InProgress? && (SameCall(callId, x.callId) || x.callId.None?)
  }

  function Appended(preview: Option<string>, delta: string): Option<string> {
    Some(preview.GetOr("") + delta)
  }

  function Rewritten(impl: Impl, e: Event, x: Entry): Entry
    requires Scans(e) && Hits(impl, e, x)
  {
    match e
    case ExecFinished(callId, outputPreview, status, exitCode, durationMs, source) =>
      ExecCommand(x.callId.Or(callId), if impl.App? then x.source.Or(source) else x.source,
                  x.allowExploringGroup, x.inputPreview, outputPreview, status, exitCode, durationMs)
    case ExecDelta(_, delta) =>
      ExecCommand(x.callId, x.source, x.allowExploringGroup, x.inputPreview, Appended(x.outputPreview, delta),
                  x.status, x.exitCode, x.durationMs)
    case GenericFinished(_, callId, outputPreview, success, exitCode, durationMs) =>
      GenericToolCall(x.name, x.callId.Or(callId), x.inputPreview, outputPreview, success, false, exitCode, durationMs)
    case SearchFinished(callId, query, action) => WebSearch(x.callId.Or(callId), query, action, false)
    case McpFinished(callId, invocation, resultBlocks, error, status, isError) =>
      McpToolCall(x.callId.Or(callId), invocation, resultBlocks, error, status, isError)
    case PatchDelta(_, delta) => PatchApply(x.callId, x.changes, x.status, Appended(x.outputPreview, delta))
    case PatchFinished(callId, changes, status) =>
      PatchApply(x.callId.Or(callId), if changes == [] then x.changes else changes, status, x.outputPreview)
  }

  /** What is pushed when no entry is hit: nothing for patch output. */
  function Missed(impl: Impl, e: Event): seq<Entry>
    requires Scans(e)
  {
    match e
    case ExecFinished(callId, outputPreview, status, exitCode, durationMs, source) =>
      [ExecCommand(callId, if impl.App? then source else None, false, None, outputPreview, status, exitCode, durationMs)]
    case ExecDelta(callId, delta) =>
      [ExecCommand(callId, None, false, None, Some(delta), InProgress, None, None)]
    case GenericFinished(name, callId, outputPreview, success, exitCode, durationMs) =>
      [GenericToolCall(name, callId, None, outputPreview, success, false, exitCode, durationMs)]
    case SearchFinished(callId, query, action) => [WebSearch(callId, query, action, false)]
    case McpFinished(callId, invocation, resultBlocks, error, status, isError) =>
      [McpToolCall(callId, invocation, resultBlocks, error, status, isError)]
    case PatchDelta(_, _) => []
    case PatchFinished(callId, changes, status) => [PatchApply(callId, changes, status, None)]
  }

  function Hitter(impl: Impl, e: Event): (Entry -> bool)
    requires Scans(e)
  {
    x => Hits(impl, e, x)
  }

  function Rewriter(impl: Impl, e: Event): (Entry -> Entry)
    requires Scans(e)
  {
    x => if Hits(impl, e, x) then Rewritten(impl, e, x) else x
  }

  /** Rewrite the last entry that the event hits, if there is one. */
  function TryRewrite(impl: Impl, t: seq<Entry>, e: Event): (r: Option<seq<Entry>>)
    requires Scans(e)
    ensures r.Some? ==> |r.value| == |t|
    ensures r.None? <==> forall x | x in t :: !Hits(impl, e, x)
  {
    RewriteLast(t, Hitter(impl, e), Rewriter(impl, e))
  }

  function Scan(impl: Impl, t: seq<Entry>, e: Event): seq<Entry>
    requires Scans(e)
  {
    match TryRewrite(impl, t, e)
    case None => t + Missed(impl, e)
    case Some(u) => u
  }

  function AppendAssistant(t: seq<Entry>, chunk: string): seq<Entry> {
    var n := |t| - 1;
    if t != [] && t[n].Assistant? then t[..n] + [Assistant(t[n].text + chunk)] else t + [Assistant(chunk)]
  }

  function AppendThinking(t: seq<Entry>, chunk: string): seq<Entry> {
    var n := |t| - 1;
    if t != [] && t[n].Thinking? then t[..n] + [Thinking(t[n].text + chunk)] else t + [Thinking(chunk)]
  }

  /** Output events without text change nothing. */
  predicate EmptyDelta(e: Event) {
    (e.ExecDelta? || e.PatchDelta?) && e.delta == ""
  }

  /** What an event that neither scans nor extends the last entry pushes. */
  function Pushed(e: Event): seq<Entry> {
    match e
    case StatusText(text) => [StatusLine(text)]
    case ExecStarted(callId, inputPreview, source) =>
      [ExecCommand(callId, source, true, inputPreview, None, InProgress, None, None)]
    case GenericStarted(name, callId, inputPreview) =>
      [GenericToolCall(name, callId, inputPreview, None, true, true, None, None)]
    case SearchStarted(callId, query) => [WebSearch(callId, query, None, true)]
    case ImageViewed(callId, path) => [ViewImage(callId, path)]
    case ImageFinished(callId, revisedPrompt, result, savedPath) =>
      [ImageGeneration(callId, revisedPrompt, result, savedPath)]
    case McpStarted(callId, invocation) => [McpToolCall(callId, invocation, [], None, InProgress, false)]
    case PatchStarted(callId, changes) => [PatchApply(callId, changes, InProgress, None)]
    case ErrorText(message) => [ErrorLine(if SessionExpired(message) then SESSION_EXPIRED_MESSAGE else message)]
    case _ => []
  }

  /** An error that ends the session also clears the transcript. */
  predicate Resets(e: Event) {
    e.ErrorText? && SessionExpired(e.message)
  }

  /** The transcript after one event. */
  function Apply(impl: Impl, t: seq<Entry>, e: Event): seq<Entry> {
    if EmptyDelta(e) then t
    else if Scans(e) then Scan(impl, t, e)
    else if e.AssistantChunk? then AppendAssistant(t, e.chunk)
    else if e.ThinkingChunk? then AppendThinking(t, e.chunk)
    else (if Resets(e) then [] else t) + Pushed(e)
  }

  function Fold(impl: Impl, t: seq<Entry>, es: seq<Event>): seq<Entry>
    decreases |es|
  {
    if es == [] then t else Fold(impl, Apply(impl, t, es[0]), es[1..])
  }

  lemma {:induction false} FoldSnoc(impl: Impl, t: seq<Entry>, es: seq<Event>, e: Event)
    ensures Fold(impl, t, es + [e]) == Apply(impl, Fold(impl, t, es), e)
    decreases |es|
  {
    if es == [] {
      assert (es + [e])[1..] == [];
    } else {
      assert (es + [e])[1..] == es[1..] + [e];
      FoldSnoc(impl, Apply(impl, t, es[0]), es[1..], e);
    }
  }

  // ----- What the scan does, by position -----

  /** The scan rewrites position i, the last one hit, and nothing else. */
  lemma RewriteAt(impl: Impl, t: seq<Entry>, e: Event, i: nat)
    requires Scans(e) && i < |t| && Hits(impl, e, t[i])
    requires forall j | i < j < |t| :: !Hits(impl, e, t[j])
    ensures TryRewrite(impl, t, e) == Some(t[i := Rewritten(impl, e, t[i])])
  {
    RewriteLastAt(t, Hitter(impl, e), Rewriter(impl, e), i);
  }

  /** The position the scan stops at. */
  lemma LastHit(impl: Impl, t: seq<Entry>, e: Event) returns (i: nat)
    requires Scans(e) && TryRewrite(impl, t, e).Some?
    ensures i < |t| && Hits(impl, e, t[i]) && forall j | i < j < |t| :: !Hits(impl, e, t[j])
  {
    i := LastHitAt(t, Hitter(impl, e), Rewriter(impl, e));
    forall j | i < j < |t| ensures !Hits(impl, e, t[j]) {
      assert !Hitter(impl, e)(t[j]);
    }
  }

  /** One more entry at the end: hit and rewritten, or left alone. */
  lemma TrySnoc(impl: Impl, t: seq<Entry>, x: Entry, e: Event)
    requires Scans(e)
    ensures TryRewrite(impl, t + [x], e) ==
      if Hits(impl, e, x) then Some(t + [Rewritten(impl, e, x)])
      else match TryRewrite(impl, t, e) case None => None case Some(u) => Some(u + [x])
  {
  }
}
