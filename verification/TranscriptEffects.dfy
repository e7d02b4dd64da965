/**
 What each kind of event leaves in the transcript: which entry it changes, what that entry then
 says, and what is pushed when there is none.  Source: core/src/app.rs, core/src/agent_slot.rs.
 */
module TranscriptEffects {
  import opened Wrappers
  import opened Transcript

  // ----- Started -----

  predicate SameId(x: Option<string>, callId: Option<string>) {
    callId.Some? && x == callId
  }

  /** A Started event pushes one entry: of its kind and call, in flight, with no result yet. */
  lemma StartedPushes(impl: Impl, t: seq<Entry>, e: Event)
    requires e.ExecStarted? || e.GenericStarted? || e.SearchStarted? || e.McpStarted? || e.PatchStarted?
    ensures e.ExecStarted? ==>
      Apply(impl, t, e) == t + [ExecCommand(e.callId, e.source, true, e.inputPreview, None, InProgress, None, None)]
    ensures e.PatchStarted? ==>
      Apply(impl, t, e) == t + [PatchApply(e.callId, e.changes, InProgress, None)]
    ensures e.SearchStarted? ==>
      Apply(impl, t, e) == t + [WebSearch(e.callId, e.query, None, true)]
    ensures e.McpStarted? ==>
      Apply(impl, t, e) == t + [McpToolCall(e.callId, e.invocation, [], None, InProgress, false)]
    ensures e.GenericStarted? ==>
      Apply(impl, t, e) == t + [GenericToolCall(e.name, e.callId, e.inputPreview, None, true, true, None, None)]
  {
  }

  /** Images and status lines are pushed as they come. */
  lemma PlainPushes(impl: Impl, t: seq<Entry>, e: Event)
    ensures e.ImageViewed? ==> Apply(impl, t, e) == t + [ViewImage(e.callId, e.path)]
    ensures e.ImageFinished? ==>
      Apply(impl, t, e) == t + [ImageGeneration(e.callId, e.revisedPrompt, e.result, e.savedPath)]
    ensures e.StatusText? ==> Apply(impl, t, e) == t + [StatusLine(e.text)]
    ensures e.SessionHandle? || e.ProviderPid? || e.Finished? ==> Apply(impl, t, e) == t
  {
  }

  // ----- Finished and output -----

  /** Only the i-th entry differs. */
  predicate OnlyAt(t: seq<Entry>, u: seq<Entry>, i: nat) {
    i < |t| == |u| && forall j | 0 <= j < |t| && j != i :: u[j] == t[j]
  }

  /** The last entry that may be claimed is. */
  predicate LastClaimed(t: seq<Entry>, u: seq<Entry>, i: nat, may: Entry -> bool) {
    OnlyAt(t, u, i) && may(t[i]) && forall j | i < j < |t| :: !may(t[j])
  }

  lemma ScanEffect(impl: Impl, t: seq<Entry>, e: Event, may: Entry -> bool) returns (i: Option<nat>)
    requires Scans(e) && !EmptyDelta(e) && forall x :: may(x) <==> Hits(impl, e, x)
    ensures i.Some? ==> LastClaimed(t, Apply(impl, t, e), i.value, may)
    ensures i.Some? ==> Hits(impl, e, t[i.value]) && Apply(impl, t, e)[i.value] == Rewritten(impl, e, t[i.value])
    ensures i.None? ==> (forall j | 0 <= j < |t| :: !may(t[j])) && Apply(impl, t, e) == t + Missed(impl, e)
  {
    if TryRewrite(impl, t, e).Some? {
      var k := LastHit(impl, t, e);
      RewriteAt(impl, t, e, k);
      i := Some(k);
    } else {
      i := None;
    }
  }

  /** A patch in progress, of this call or of none. */
  function PatchMay(callId: Option<string>): (Entry -> bool) {
    (x: Entry) => x.PatchApply? && x.status == InProgress && (SameId(x.callId, callId) || x.callId == None)
  }

  lemma PatchFinishes(t: seq<Entry>, callId: Option<string>, changes: seq<string>, status: CallStatus)
    returns (i: Option<nat>)
    ensures var u := Apply(App, t, PatchFinished(callId, changes, status));
      && (i.Some? ==>
            && LastClaimed(t, u, i.value, PatchMay(callId))
            && var x, y := t[i.value], u[i.value];
               && y.PatchApply? && y.status == status && y.outputPreview == x.outputPreview
               && y.changes == (if changes == [] then x.changes else changes)
               && y.callId == (if x.callId.Some? then x.callId else callId))
      && (i.None? ==>
            && (forall j | 0 <= j < |t| :: !PatchMay(callId)(t[j]))
            && u == t + [PatchApply(callId, changes, status, None)])
  {
    i := ScanEffect(App, t, PatchFinished(callId, changes, status), PatchMay(callId));
  }

  /** Patch output goes to the last patch of its call, or the last of all without an id; else nowhere. */
  function PatchOutputMay(callId: Option<string>): (Entry -> bool) {
    (x: Entry) => x.PatchApply? && (SameId(x.callId, callId) || callId == None)
  }

  lemma PatchOutputs(t: seq<Entry>, callId: Option<string>, delta: string) returns (i: Option<nat>)
    requires delta != ""
    ensures var u := Apply(App, t, PatchDelta(callId, delta));
      && (i.Some? ==>
            && LastClaimed(t, u, i.value, PatchOutputMay(callId))
            && var x, y := t[i.value], u[i.value];
               && y.PatchApply? && y.callId == x.callId && y.changes == x.changes && y.status == x.status
               && y.outputPreview == Some((if x.outputPreview.Some? then x.outputPreview.value else "") + delta))
      && (i.None? ==> (forall j | 0 <= j < |t| :: !PatchOutputMay(callId)(t[j])) && u == t)
  {
    i := ScanEffect(App, t, PatchDelta(callId, delta), PatchOutputMay(callId));
    assert t + [] == t;
  }

  function SearchMay(callId: Option<string>): (Entry -> bool) {
    (x: Entry) => x.WebSearch? && x.started && (SameId(x.callId, callId) || x.callId == None)
  }

  lemma SearchFinishes(t: seq<Entry>, callId: Option<string>, query: string, action: Option<string>)
    returns (i: Option<nat>)
    ensures var u := Apply(App, t, SearchFinished(callId, query, action));
      && (i.Some? ==>
            && LastClaimed(t, u, i.value, SearchMay(callId))
            && var x, y := t[i.value], u[i.value];
               && y.WebSearch? && !y.started && y.query == query && y.action == action
               && y.callId == (if x.callId.Some? then x.callId else callId))
      && (i.None? ==>
            && (forall j | 0 <= j < |t| :: !SearchMay(callId)(t[j]))
            && u == t + [WebSearch(callId, query, action, false)])
  {
    i := ScanEffect(App, t, SearchFinished(callId, query, action), SearchMay(callId));
  }

  function McpMay(callId: Option<string>): (Entry -> bool) {
    (x: Entry) => x.McpToolCall? && x.status == InProgress && (SameId(x.callId, callId) || x.callId == None)
  }

  lemma McpFinishes(t: seq<Entry>, callId: Option<string>, invocation: string, blocks: seq<string>,
      error: Option<string>, status: CallStatus, isError: bool) returns (i: Option<nat>)
    ensures var u := Apply(App, t, McpFinished(callId, invocation, blocks, error, status, isError));
      && (i.Some? ==>
            && LastClaimed(t, u, i.value, McpMay(callId))
            && var x, y := t[i.value], u[i.value];
               && y.McpToolCall? && y.invocation == invocation && y.resultBlocks == blocks && y.error == error
               && y.status == status && y.isError == isError
               && y.callId == (if x.callId.Some? then x.callId else callId))
      && (i.None? ==>
            && (forall j | 0 <= j < |t| :: !McpMay(callId)(t[j]))
            && u == t + [McpToolCall(callId, invocation, blocks, error, status, isError)])
  {
    i := ScanEffect(App, t, McpFinished(callId, invocation, blocks, error, status, isError), McpMay(callId));
  }

  /** A generic call still running, of this call or of this name. */
  function GenericMay(name: string, callId: Option<string>): (Entry -> bool) {
    (x: Entry) => x.GenericToolCall? && x.started && (SameId(x.callId, callId) || x.name == name)
  }

  lemma GenericFinishes(t: seq<Entry>, name: string, callId: Option<string>, output: Option<string>,
      success: bool, exitCode: Option<int>, durationMs: Option<nat>) returns (i: Option<nat>)
    ensures var u := Apply(App, t, GenericFinished(name, callId, output, success, exitCode, durationMs));
      && (i.Some? ==>
            && LastClaimed(t, u, i.value, GenericMay(name, callId))
            && var x, y := t[i.value], u[i.value];
               && y.GenericToolCall? && !y.started && y.outputPreview == output && y.success == success
               && y.exitCode == exitCode && y.durationMs == durationMs
               && y.name == x.name && y.inputPreview == x.inputPreview
               && y.callId == (if x.callId.Some? then x.callId else callId))
      && (i.None? ==>
            && (forall j | 0 <= j < |t| :: !GenericMay(name, callId)(t[j]))
            && u == t + [GenericToolCall(name, callId, None, output, success, false, exitCode, durationMs)])
  {
    i := ScanEffect(App, t, GenericFinished(name, callId, output, success, exitCode, durationMs),
                    GenericMay(name, callId));
  }

  /** A running command: in the application of this call or of none; in the worker of this call, or any if it has no id. */
  function CommandMay(impl: Impl, callId: Option<string>): (Entry -> bool) {
    (x: Entry) => x.ExecCommand? && x.status == InProgress
      && (SameId(x.callId, callId) || (if impl == App then x.callId == None else callId == None))
  }

  lemma CommandFinishes(impl: Impl, t: seq<Entry>, callId: Option<string>, output: Option<string>, status: CallStatus,
      exitCode: Option<int>, durationMs: Option<nat>, source: Option<string>) returns (i: Option<nat>)
    ensures var u := Apply(impl, t, ExecFinished(callId, output, status, exitCode, durationMs, source));
      && (i.Some? ==>
            && LastClaimed(t, u, i.value, CommandMay(impl, callId))
            && var x, y := t[i.value], u[i.value];
               && y.ExecCommand? && y.status == status && y.outputPreview == output
               && y.exitCode == exitCode && y.durationMs == durationMs
               && y.inputPreview == x.inputPreview && y.allowExploringGroup == x.allowExploringGroup
               && y.source == (if x.source.Some? || impl == Worker then x.source else source)
               && y.callId == (if x.callId.Some? then x.callId else callId))
      && (i.None? ==>
            && (forall j | 0 <= j < |t| :: !CommandMay(impl, callId)(t[j]))
            && u == t + [ExecCommand(callId, if impl == App then source else None, false, None, output, status,
                                     exitCode, durationMs)])
  {
    i := ScanEffect(impl, t, ExecFinished(callId, output, status, exitCode, durationMs, source), CommandMay(impl, callId));
  }

  /** Output goes to a command of the call, in the worker only while it runs; or to the last one without an id. */
  function OutputMay(impl: Impl, callId: Option<string>): (Entry -> bool) {
    (x: Entry) => x.ExecCommand? && (impl == Worker ==> x.status == InProgress)
      && (SameId(x.callId, callId) || callId == None)
  }

  lemma CommandOutputs(impl: Impl, t: seq<Entry>, callId: Option<string>, delta: string) returns (i: Option<nat>)
    requires delta != ""
    ensures var u := Apply(impl, t, ExecDelta(callId, delta));
      && (i.Some? ==>
            && LastClaimed(t, u, i.value, OutputMay(impl, callId))
            && var x, y := t[i.value], u[i.value];
               && y.ExecCommand? && y.callId == x.callId && y.source == x.source && y.status == x.status
               && y.allowExploringGroup == x.allowExploringGroup && y.inputPreview == x.inputPreview
               && y.exitCode == x.exitCode && y.durationMs == x.durationMs
               && y.outputPreview == Some((if x.outputPreview.Some? then x.outputPreview.value else "") + delta))
      && (i.None? ==>
            && (forall j | 0 <= j < |t| :: !OutputMay(impl, callId)(t[j]))
            && u == t + [ExecCommand(callId, None, false, None, Some(delta), InProgress, None, None)])
  {
    i := ScanEffect(impl, t, ExecDelta(callId, delta), OutputMay(impl, callId));
  }

  lemma EmptyOutputs(impl: Impl, t: seq<Entry>, callId: Option<string>)
    ensures Apply(impl, t, ExecDelta(callId, "")) == t == Apply(impl, t, PatchDelta(callId, ""))
  {
  }

  // ----- Errors -----

  /** An error is shown; one that ends the session leaves nothing but a line that says so. */
  lemma ErrorsShow(impl: Impl, t: seq<Entry>, message: string)
    ensures !SessionExpired(message) ==> Apply(impl, t, ErrorText(message)) == t + [ErrorLine(message)]
    ensures SessionExpired(message) ==>
      Apply(impl, t, ErrorText(message)) ==
        [ErrorLine("session expired - starting fresh conversation. Please retry your request.")]
  {
  }

  /** Which errors those are: any that contains one of four phrases. */
  lemma ExpiryPhrases(before: string, phrase: string, after: string)
    requires phrase in {"No conversation found with session ID", "No conversation found", "thread not found", "session not found"}
    ensures SessionExpired(before + phrase + after)
  {
    assert OccursAt(before + phrase + after, phrase, |before|);
    assert Contains(before + phrase + after, phrase);
  }

  // ----- Text -----

  /** All assistant, or all thinking, text of a transcript. */
  function Text(t: seq<Entry>, thinking: bool): string {
    if t == [] then ""
    else
      var x := t[|t| - 1];
      Text(t[..|t| - 1], thinking) + if (if thinking then x.Thinking? else x.Assistant?) then x.text else ""
  }

  /** All that a stream says, or thinks. */
  function Said(es: seq<Event>, thinking: bool): string {
    if es == [] then ""
    else
      var e := es[|es| - 1];
      Said(es[..|es| - 1], thinking) + if (if thinking then e.ThinkingChunk? else e.AssistantChunk?) then e.chunk else ""
  }

  lemma {:induction false} TextAppend(x: seq<Entry>, y: seq<Entry>, thinking: bool)
    ensures Text(x + y, thinking) == Text(x, thinking) + Text(y, thinking)
  {
    if y == [] {
      assert x + y == x;
    } else {
      assert (x + y)[..|x + y| - 1] == x + y[..|y| - 1];
      TextAppend(x, y[..|y| - 1], thinking);
    }
  }

  predicate IsSpeech(x: Entry) {
    x.Assistant? || x.Thinking?
  }

  lemma {:induction false} SameText(x: seq<Entry>, y: seq<Entry>, thinking: bool)
    requires |x| == |y| && forall i | 0 <= i < |x| :: x[i] == y[i] || (!IsSpeech(x[i]) && !IsSpeech(y[i]))
    ensures Text(x, thinking) == Text(y, thinking)
  {
    if x != [] {
      SameText(x[..|x| - 1], y[..|y| - 1], thinking);
    }
  }

  lemma {:induction false} NoText(t: seq<Entry>, thinking: bool)
    requires forall i | 0 <= i < |t| :: !IsSpeech(t[i])
    ensures Text(t, thinking) == ""
  {
    if t != [] {
      NoText(t[..|t| - 1], thinking);
    }
  }

  lemma ScanText(impl: Impl, t: seq<Entry>, e: Event, thinking: bool)
    requires Scans(e)
    ensures Text(Scan(impl, t, e), thinking) == Text(t, thinking)
  {
    if TryRewrite(impl, t, e).Some? {
      var k := LastHit(impl, t, e);
      RewriteAt(impl, t, e, k);
      SameText(t[k := Rewritten(impl, e, t[k])], t, thinking);
    } else {
      PushText(t, Missed(impl, e), thinking);
    }
  }

  lemma ChunkText(impl: Impl, t: seq<Entry>, e: Event, thinking: bool)
    requires e.AssistantChunk? || e.ThinkingChunk?
    ensures Text(Apply(impl, t, e), thinking) == Text(t, thinking) + if thinking == e.ThinkingChunk? then e.chunk else ""
  {
    var u := Apply(impl, t, e);
    if |u| == |t| {
      assert u[..|u| - 1] == t[..|t| - 1];
    } else {
      assert u[..|t|] == t;
    }
  }

  lemma SaidOne(e: Event, thinking: bool)
    ensures Said([e], thinking) == if (if thinking then e.ThinkingChunk? else e.AssistantChunk?) then e.chunk else ""
  {
    assert [e][..0] == [];
  }

  lemma PushText(t: seq<Entry>, pushed: seq<Entry>, thinking: bool)
    requires forall i | 0 <= i < |pushed| :: !IsSpeech(pushed[i])
    ensures Text(t + pushed, thinking) == Text(t, thinking)
  {
    NoText(pushed, thinking);
    TextAppend(t, pushed, thinking);
  }

  /** Text is never lost, repeated or reordered: a stream adds exactly what it says. */
  lemma EventText(impl: Impl, t: seq<Entry>, e: Event, thinking: bool)
    requires !Resets(e)
    ensures Text(Apply(impl, t, e), thinking) == Text(t, thinking) + Said([e], thinking)
  {
    SaidOne(e, thinking);
    if EmptyDelta(e) {
    } else if Scans(e) {
      ScanText(impl, t, e, thinking);
    } else if e.AssistantChunk? || e.ThinkingChunk? {
      ChunkText(impl, t, e, thinking);
    } else {
      PushText(t, Pushed(e), thinking);
    }
  }

  lemma {:induction false} SaidAppend(x: seq<Event>, y: seq<Event>, thinking: bool)
    ensures Said(x + y, thinking) == Said(x, thinking) + Said(y, thinking)
  {
    if y == [] {
      assert x + y == x;
    } else {
      assert (x + y)[..|x + y| - 1] == x + y[..|y| - 1];
      SaidAppend(x, y[..|y| - 1], thinking);
    }
  }

  lemma SaidFirst(before: string, between: string, after: string, es: seq<Event>, thinking: bool)
    requires es != [] && between == before + Said([es[0]], thinking) && after == between + Said(es[1..], thinking)
    ensures after == before + Said(es, thinking)
  {
    assert es == [es[0]] + es[1..];
    SaidAppend([es[0]], es[1..], thinking);
  }

  lemma {:induction false} StreamText(impl: Impl, t: seq<Entry>, es: seq<Event>, thinking: bool)
    requires forall e | e in es :: !Resets(e)
    ensures Text(Fold(impl, t, es), thinking) == Text(t, thinking) + Said(es, thinking)
    decreases |es|
  {
    if es != [] {
      assert es[0] in es && (forall e | e in es[1..] :: e in es);
      var u := Apply(impl, t, es[0]);
      EventText(impl, t, es[0], thinking);
      StreamText(impl, u, es[1..], thinking);
      SaidFirst(Text(t, thinking), Text(u, thinking), Text(Fold(impl, u, es[1..]), thinking), es, thinking);
      assert Fold(impl, t, es) == Fold(impl, u, es[1..]);
    }
  }
}
