/**
 Whose text a turn is judged by: the summary is the last assistant text of the whole transcript,
 so a turn that says nothing is judged by what was said before it.
 Source: core/src/app.rs, core/src/task_engine.rs, core/src/loop_runner.rs.
 */
module TurnSummary {
  import opened Wrappers
  import opened Transcript
  import TranscriptState
  import AL = AutonomousLoop
  import Backlog
  import TaskLockstep

  predicate IsText(x: Entry) {
    x.Assistant? && x.text != ""
  }

  /** The last assistant entry that is not empty. */
  function Summary(t: seq<Entry>): Option<string> {
    if t == [] then None
    else if IsText(t[|t| - 1]) then Some(t[|t| - 1].text)
    else Summary(t[..|t| - 1])
  }

  lemma {:induction false} SummaryAppend(x: seq<Entry>, y: seq<Entry>)
    ensures Summary(x + y) == Summary(y).Or(Summary(x))
  {
    if y == [] {
      assert x + y == x;
    } else {
      assert (x + y)[..|x + y| - 1] == x + y[..|y| - 1];
      SummaryAppend(x, y[..|y| - 1]);
    }
  }

  lemma {:induction false} SummaryIsSome(t: seq<Entry>)
    ensures Summary(t).Some? <==> exists i :: 0 <= i < |t| && IsText(t[i])
  {
    if t != [] {
      var n := |t| - 1;
      SummaryIsSome(t[..n]);
      if i :| 0 <= i < n && IsText(t[i]) { assert IsText(t[..n][i]); }
      if i :| 0 <= i < n && IsText(t[..n][i]) { assert IsText(t[i]); }
    }
  }

  /** Summaries see the texts only. */
  lemma {:induction false} SameTexts(x: seq<Entry>, y: seq<Entry>)
    requires |x| == |y| && forall i | 0 <= i < |x| :: x[i] == y[i] || (!x[i].Assistant? && !y[i].Assistant?)
    ensures Summary(x) == Summary(y)
  {
    if x != [] {
      SameTexts(x[..|x| - 1], y[..|y| - 1]);
    }
  }

  /** The stream says something. */
  predicate Speaks(e: Event) {
    e.AssistantChunk? && e.chunk != ""
  }

  predicate Spoken(es: seq<Event>) {
    exists e :: e in es && Speaks(e)
  }

  // ----- What a turn leaves of the entries before it -----

  /** The first n entries' texts are as they were, and there is own text after them exactly if `spoken`. */
  predicate OwnAfter(t: seq<Entry>, n: nat, u: seq<Entry>, spoken: bool) {
    && n == |t| <= |u|
    && (forall i | 0 <= i < n :: u[i] == t[i] || (!u[i].Assistant? && !t[i].Assistant?))
    && (spoken <==> exists i :: n <= i < |u| && IsText(u[i]))
  }

  /** Scans rewrite no assistant entry. */
  lemma ScanKeepsTexts(u: seq<Entry>, e: Event, i: nat)
    requires Scans(e) && !EmptyDelta(e) && i < |Apply(App, u, e)|
    ensures |Apply(App, u, e)| >= |u|
    ensures i < |u| ==> Apply(App, u, e)[i] == u[i] || (!Apply(App, u, e)[i].Assistant? && !u[i].Assistant?)
    ensures i >= |u| ==> !Apply(App, u, e)[i].Assistant?
  {
    if TryRewrite(App, u, e).Some? {
      var k := LastHit(App, u, e);
      RewriteAt(App, u, e, k);
    }
  }

  lemma QuietEvent(u: seq<Entry>, e: Event)
    requires !e.AssistantChunk? && !Resets(e)
    ensures var v := Apply(App, u, e);
      && |v| >= |u|
      && (forall i | 0 <= i < |u| :: v[i] == u[i] || (!v[i].Assistant? && !u[i].Assistant?))
      && (forall i | |u| <= i < |v| :: !v[i].Assistant?)
  {
    if Scans(e) && !EmptyDelta(e) {
      var v := Apply(App, u, e);
      assert |v| >= |u| by {
        if TryRewrite(App, u, e).Some? { var k := LastHit(App, u, e); RewriteAt(App, u, e, k); }
      }
      forall i | 0 <= i < |v|
        ensures i < |u| ==> v[i] == u[i] || (!v[i].Assistant? && !u[i].Assistant?)
        ensures i >= |u| ==> !v[i].Assistant?
      {
        ScanKeepsTexts(u, e, i);
      }
    }
  }

  /** A transcript that ends in something else than assistant text. */
  predicate Closed(t: seq<Entry>) {
    t == [] || !t[|t| - 1].Assistant?
  }

  lemma OwnAfterEvent(t: seq<Entry>, u: seq<Entry>, e: Event, spoken: bool)
    requires Closed(t) && OwnAfter(t, |t|, u, spoken) && !Resets(e)
    ensures OwnAfter(t, |t|, Apply(App, u, e), spoken || Speaks(e))
  {
    var n, v := |t|, Apply(App, u, e);
    if e.AssistantChunk? {
      if |v| == |u| {
        assert |u| > n;
        forall i | n <= i < |u| && IsText(u[i]) ensures IsText(v[i]) {}
        if Speaks(e) { assert IsText(v[|u| - 1]); }
        if i :| n <= i < |v| && IsText(v[i]) {
          if !Speaks(e) { assert IsText(u[i]); }
        }
      } else {
        forall i | n <= i < |u| && IsText(u[i]) ensures IsText(v[i]) {}
        if Speaks(e) { assert IsText(v[|u|]); }
        if i :| n <= i < |v| && IsText(v[i]) {
          if !Speaks(e) { assert i < |u| && IsText(u[i]); }
        }
      }
    } else {
      QuietEvent(u, e);
      forall i | n <= i < |u| && IsText(u[i]) ensures IsText(v[i]) {}
      if i :| n <= i < |v| && IsText(v[i]) { assert i < |u| && IsText(u[i]); }
    }
  }

  lemma {:induction false} OwnAfterStream(t: seq<Entry>, u: seq<Entry>, es: seq<Event>, spoken: bool)
    requires Closed(t) && OwnAfter(t, |t|, u, spoken) && forall e | e in es :: !Resets(e)
    ensures OwnAfter(t, |t|, Fold(App, u, es), spoken || Spoken(es))
    decreases |es|
  {
    if es != [] {
      var e, rest := es[0], es[1..];
      assert e in es && (forall d | d in rest :: d in es) && es == [e] + rest;
      OwnAfterEvent(t, u, e, spoken);
      OwnAfterStream(t, Apply(App, u, e), rest, spoken || Speaks(e));
      assert Spoken(es) <==> Speaks(e) || Spoken(rest);
    }
  }

  // ----- The summary after a turn -----

  lemma OwnSummary(u: seq<Entry>, n: nat)
    requires n <= |u|
    ensures Summary(u[n..]).Some? <==> exists i :: n <= i < |u| && IsText(u[i])
  {
    SummaryIsSome(u[n..]);
    if i :| n <= i < |u| && IsText(u[i]) { assert IsText(u[n..][i - n]); }
    if i :| 0 <= i < |u[n..]| && IsText(u[n..][i]) { assert IsText(u[n + i]); }
  }

  lemma SummaryWithOwn(t: seq<Entry>, u: seq<Entry>, spoken: bool)
    requires OwnAfter(t, |t|, u, spoken)
    ensures Summary(u) == Summary(u[|t|..]).Or(Summary(t))
    ensures Summary(u[|t|..]).Some? <==> spoken
  {
    assert u == u[..|t|] + u[|t|..];
    SummaryAppend(u[..|t|], u[|t|..]);
    SameTexts(u[..|t|], t);
    OwnSummary(u, |t|);
  }

  /**
   After a turn's events the summary is the turn's own last text exactly if the turn said
   anything; otherwise it is the one there was before, from whatever task.
   */
  lemma SummaryAfterTurn(t: seq<Entry>, es: seq<Event>)
    requires Closed(t) && forall e | e in es :: !Resets(e)
    ensures var u := Fold(App, t, es);
      && |u| >= |t|
      && Summary(u) == Summary(u[|t|..]).Or(Summary(t))
      && (Summary(u[|t|..]).Some? <==> Spoken(es))
  {
    OwnAfterStream(t, t, es, false);
    SummaryWithOwn(t, Fold(App, t, es), Spoken(es));
  }

  // ----- The verdict -----

  /** The turn of the loop that a provider's events make: its error flag and its summary follow from them. */
  function TurnOf(rest: AL.Turn, t: seq<Entry>, es: seq<Event>): AL.Turn {
    rest.(starts := true, failed := TranscriptState.HasError(es), summary := Summary(Fold(App, t, es)))
  }

  /**
   A turn that says nothing and reports no error fails for want of a summary if and only if
   nothing was said before it either; otherwise its task is judged by an earlier text.
   */
  lemma SilentTurn(app: AL.App, rest: AL.Turn, t: seq<Entry>, es: seq<Event>, maxContinuations: nat)
    requires AL.Current(app).Some? && !app.hadError && rest.abort == AL.NoAbort
    requires Closed(t) && (forall e | e in es :: !Resets(e))
    requires !Spoken(es) && !TranscriptState.HasError(es)
    ensures TurnOf(rest, t, es).summary == Summary(t)
    ensures AL.Resolve(app, TurnOf(rest, t, es), maxContinuations).1 == AL.TaskFailed(false) <==> Summary(t) == None
  {
    SummaryAfterTurn(t, es);
  }

  /** With earlier text that is judged complete and verified, the silent turn's task is done. */
  lemma SilentTurnCompletes(app: AL.App, rest: AL.Turn, t: seq<Entry>, es: seq<Event>, maxContinuations: nat)
    requires TaskLockstep.Lockstep(app) && app.active.Some? && !app.hadError && rest.abort == AL.NoAbort
    requires Closed(t) && (forall e | e in es :: !Resets(e))
    requires !Spoken(es) && !TranscriptState.HasError(es)
    requires Summary(t).Some? && !rest.continues && rest.complete && rest.verified
    ensures var (later, r) := AL.Resolve(app, TurnOf(rest, t, es), maxContinuations);
      && r == AL.Completed
      && later.tasks[|app.tasks| - 1].status.Done? && later.tasks[|app.tasks| - 1].summary == Summary(t)
  {
    SummaryAfterTurn(t, es);
    TaskLockstep.ActiveIsLast(app.tasks, app.active);
    var checking := AL.Marked(app.(phase := AL.Checking), Backlog.Verifying);
    TaskLockstep.MarkKept(app, app.(phase := AL.Checking), Backlog.Verifying);
    TaskLockstep.ActiveIsLast(checking.tasks, checking.active);
  }
}
