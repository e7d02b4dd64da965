/**
 What becomes of one shell command, from its Started to its Finished, inside any interleaved
 stream; and which commands are in flight at the end.  Source: core/src/app.rs.
 */
module TranscriptBrackets {
  import opened Wrappers
  import opened Transcript
  import opened TranscriptIsolation

  // ----- One command -----

  predicate IsFinish(e: Event) {
    e.ExecFinished? && !e.status.InProgress?
  }

  /** A command is started once and afterwards gets output and at most one Finished. */
  predicate Bracketed(es: seq<Event>, c: string) {
    && es != [] && es[0].ExecStarted?
    && (forall e | e in es :: CallOf(e) == Some(c))
    && (forall i | 0 < i < |es| :: es[i].ExecDelta? || IsFinish(es[i]))
    && (forall i, j | 0 <= i < j < |es| :: !(IsFinish(es[i]) && IsFinish(es[j])))
  }

  predicate Open(es: seq<Event>) {
    forall e | e in es :: !IsFinish(e)
  }

  /** The output a call shows: its deltas, replaced by what its Finished says, then later deltas. */
  function OutputOf(es: seq<Event>): Option<string> {
    if es == [] then None
    else
      var n := |es| - 1;
      match es[n]
      case ExecDelta(_, delta) => if delta == "" then OutputOf(es[..n]) else Appended(OutputOf(es[..n]), delta)
      case ExecFinished(_, outputPreview, _, _, _, _) => outputPreview
      case _ => None
  }

  /** The one entry a bracketed call leaves. */
  predicate Summarizes(x: Entry, es: seq<Event>, c: string)
    requires es != [] && es[0].ExecStarted?
  {
    && x.ExecCommand? && x.callId == Some(c)
    && x.inputPreview == es[0].inputPreview && x.allowExploringGroup
    && x.outputPreview == OutputOf(es)
    && (Open(es) ==> x.status.InProgress? && x.source == es[0].source && x.exitCode == None && x.durationMs == None)
    && (forall e | e in es && IsFinish(e) ::
          x.status == e.status && x.exitCode == e.exitCode && x.durationMs == e.durationMs
          && x.source == es[0].source.Or(e.source))
  }

  /** A bracketed call without its last event is bracketed, and open if that event is its Finished. */
  lemma BracketedFront(es: seq<Event>, c: string)
    requires Bracketed(es, c) && |es| > 1
    ensures var front := es[..|es| - 1];
      && Bracketed(front, c) && front[0] == es[0]
      && (IsFinish(es[|es| - 1]) ==> Open(front))
  {
  }

  /** One more output or Finished event on the call's entry. */
  lemma BracketedStep(x: Entry, es: seq<Event>, c: string)
    requires Bracketed(es, c) && |es| > 1
    requires Summarizes(x, es[..|es| - 1], c)
    ensures |Apply(App, [x], es[|es| - 1])| == 1
    ensures Summarizes(Apply(App, [x], es[|es| - 1])[0], es, c)
  {
    var n := |es| - 1;
    var front, e := es[..n], es[n];
    BracketedFront(es, c);
    assert e in es && es[0] == front[0];
    assert forall d | d in es :: d in front || d == e;
    if !EmptyDelta(e) {
      RewriteAt(App, [x], e, 0);
      assert [x][0 := Rewritten(App, e, x)] == [Rewritten(App, e, x)];
    }
  }

  lemma BracketedStart(e: Event, c: string)
    requires Bracketed([e], c)
    ensures |Apply(App, [], e)| == 1 && Summarizes(Apply(App, [], e)[0], [e], c)
  {
    assert e in [e];
    assert Apply(App, [], e) == [ExecCommand(Some(c), e.source, true, e.inputPreview, None, InProgress, None, None)];
  }

  lemma {:induction false} BracketedCall(es: seq<Event>, c: string)
    requires Bracketed(es, c)
    ensures |Fold(App, [], es)| == 1
    ensures Summarizes(Fold(App, [], es)[0], es, c)
    decreases |es|
  {
    var n := |es| - 1;
    var front, e := es[..n], es[n];
    assert es == front + [e];
    FoldSnoc(App, [], front, e);
    if n == 0 {
      assert front == [] && es == [e];
      BracketedStart(e, c);
    } else {
      BracketedFront(es, c);
      BracketedCall(front, c);
      var t := Fold(App, [], front);
      assert t == [t[0]];
      BracketedStep(t[0], es, c);
    }
  }

  lemma SummaryShowsOpen(x: Entry, es: seq<Event>, c: string)
    requires Bracketed(es, c) && Summarizes(x, es, c)
    ensures InFlight(x) <==> Open(es)
  {
  }

  // ----- On top of what was there -----

  /** A scan that hits the last entry does not look at those before. */
  lemma ScanOnTop(base: seq<Entry>, x: Entry, e: Event)
    requires Scans(e) && Hits(App, e, x)
    ensures Scan(App, base + [x], e) == base + Scan(App, [x], e)
  {
    TrySnoc(App, base, x, e);
    TrySnoc(App, [], x, e);
    assert [] + [x] == [x];
  }

  lemma StepOnTop(base: seq<Entry>, x: Entry, es: seq<Event>, c: string)
    requires Bracketed(es, c) && |es| > 1
    requires Summarizes(x, es[..|es| - 1], c)
    ensures Apply(App, base + [x], es[|es| - 1]) == base + Apply(App, [x], es[|es| - 1])
  {
    BracketedFront(es, c);
    assert es[|es| - 1] in es;
    if !EmptyDelta(es[|es| - 1]) {
      ScanOnTop(base, x, es[|es| - 1]);
    }
  }

  /** A bracketed command adds its entry to those there were, whatever they are. */
  lemma {:induction false} BracketedOnTop(base: seq<Entry>, es: seq<Event>, c: string)
    requires Bracketed(es, c)
    ensures Fold(App, base, es) == base + Fold(App, [], es)
    decreases |es|
  {
    var n := |es| - 1;
    var front, e := es[..n], es[n];
    assert es == front + [e];
    FoldSnoc(App, base, front, e);
    FoldSnoc(App, [], front, e);
    if n == 0 {
      assert Fold(App, base, front) == base && Fold(App, [], front) == [];
    } else {
      BracketedFront(es, c);
      BracketedOnTop(base, front, c);
      BracketedCall(front, c);
      var x := Fold(App, [], front)[0];
      assert Fold(App, [], front) == [x];
      StepOnTop(base, x, es, c);
    }
  }

  /**
   After any admissible stream in which the events of call c are a bracketed command, whatever
   the other calls do: call c has the entries it had and one more, which sums up those events.
   */
  lemma BracketMatching(t: seq<Entry>, es: seq<Event>, c: string)
    requires NoAnonymous(t) && Admissible(es) && Bracketed(EventsOf(es, c), c)
    ensures var mine, before := EntriesOf(Fold(App, t, es), c), EntriesOf(t, c);
      |mine| == |before| + 1 && mine[..|before|] == before && Summarizes(mine[|before|], EventsOf(es, c), c)
  {
    CallIsolation(App, t, es, c);
    BracketedOnTop(EntriesOf(t, c), EventsOf(es, c), c);
    BracketedCall(EventsOf(es, c), c);
  }

  // ----- All commands in flight -----

  predicate CommandEvent(e: Event) {
    e.ExecStarted? || e.ExecFinished? || e.ExecDelta?
  }

  predicate CommandInFlight(x: Entry) {
    x.ExecCommand? && x.status.InProgress?
  }

  predicate NoCommandInFlight(t: seq<Entry>) {
    forall x | x in t :: !CommandInFlight(x)
  }

  /** The transcript has an in-flight command of call c. */
  predicate Running(t: seq<Entry>, c: string) {
    exists x :: x in t && CommandInFlight(x) && x.callId == Some(c)
  }

  predicate StartedIn(es: seq<Event>, c: string) {
    exists e :: e in es && e.ExecStarted? && e.callId == Some(c)
  }

  /** Every command the stream speaks of is bracketed; other calls may do as they like. */
  predicate CommandsBracketed(es: seq<Event>) {
    forall e | e in es && CommandEvent(e) && CallOf(e).Some? :: Bracketed(EventsOf(es, CallOf(e).value), CallOf(e).value)
  }

  lemma {:induction false} EventsOfElements(es: seq<Event>, c: string)
    ensures forall e :: e in EventsOf(es, c) <==> e in es && CallOf(e) == Some(c)
    decreases |es|
  {
    if es != [] {
      EventsOfElements(es[1..], c);
      assert es == [es[0]] + es[1..];
    }
  }

  /** An event that is not a command's puts no command in flight. */
  lemma NonCommandKeeps(t: seq<Entry>, e: Event)
    requires NoCommandInFlight(t) && !CommandEvent(e)
    ensures NoCommandInFlight(Apply(App, t, e))
  {
    if Scans(e) && TryRewrite(App, t, e).Some? {
      var i := LastHit(App, t, e);
      RewriteAt(App, t, e, i);
    }
  }

  lemma {:induction false} NonCommandsKeep(t: seq<Entry>, es: seq<Event>)
    requires NoCommandInFlight(t) && forall e | e in es :: !CommandEvent(e)
    ensures NoCommandInFlight(Fold(App, t, es))
    decreases |es|
  {
    if es != [] {
      NonCommandKeeps(t, es[0]);
      assert forall e | e in es[1..] :: e in es;
      NonCommandsKeep(Apply(App, t, es[0]), es[1..]);
    }
  }

  lemma RunningOfCall(t: seq<Entry>, c: string)
    ensures Running(t, c) <==> exists x :: x in EntriesOf(t, c) && CommandInFlight(x)
  {
    if x :| x in t && CommandInFlight(x) && x.callId == Some(c) {
      assert x in EntriesOf(t, c);
    }
    if x :| x in EntriesOf(t, c) && CommandInFlight(x) {
      assert x in t && OfCall(x, c);
    }
  }

  /** A call of which the stream has no command event gets no command in flight. */
  lemma SilentCall(t: seq<Entry>, es: seq<Event>, c: string)
    requires NoAnonymous(t) && NoCommandInFlight(t) && Admissible(es)
    requires forall e | e in EventsOf(es, c) :: !CommandEvent(e)
    ensures !Running(Fold(App, t, es), c)
  {
    CallIsolation(App, t, es, c);
    assert NoCommandInFlight(EntriesOf(t, c));
    NonCommandsKeep(EntriesOf(t, c), EventsOf(es, c));
    RunningOfCall(Fold(App, t, es), c);
  }

  lemma BracketedRuns(t: seq<Entry>, es: seq<Event>, c: string)
    requires NoAnonymous(t) && NoCommandInFlight(t) && Admissible(es) && Bracketed(EventsOf(es, c), c)
    ensures Running(Fold(App, t, es), c) <==> Open(EventsOf(es, c))
  {
    BracketMatching(t, es, c);
    var mine, before := EntriesOf(Fold(App, t, es), c), EntriesOf(t, c);
    var x := mine[|before|];
    SummaryShowsOpen(x, EventsOf(es, c), c);
    RunningOfCall(Fold(App, t, es), c);
    assert mine == before + [x];
    assert forall y | y in before :: y in t;
  }

  /**
   Started from a transcript with no command in flight, a stream whose commands are bracketed
   leaves exactly the commands in flight that it started and did not finish.
   */
  lemma OpenCommandsExactly(t: seq<Entry>, es: seq<Event>, c: string)
    requires NoAnonymous(t) && NoCommandInFlight(t) && Admissible(es) && CommandsBracketed(es)
    ensures Running(Fold(App, t, es), c) <==> StartedIn(es, c) && Open(EventsOf(es, c))
  {
    EventsOfElements(es, c);
    var mine := EventsOf(es, c);
    if e :| e in es && e.ExecStarted? && e.callId == Some(c) {
      assert e in mine && CommandEvent(e);
    }
    if d :| d in mine && CommandEvent(d) {
      assert Bracketed(mine, c);
      assert mine[0] in mine && StartedIn(es, c);
      BracketedRuns(t, es, c);
    } else {
      SilentCall(t, es, c);
    }
  }

  /** Each of them has a call id, and so is one of those. */
  lemma CommandsInFlightAreOpen(t: seq<Entry>, es: seq<Event>, x: Entry)
    requires NoAnonymous(t) && NoCommandInFlight(t) && Admissible(es) && CommandsBracketed(es)
    requires x in Fold(App, t, es) && CommandInFlight(x)
    ensures x.callId.Some? && StartedIn(es, x.callId.value) && Open(EventsOf(es, x.callId.value))
  {
    CallIsolation(App, t, es, "");
    assert !Anonymous(x);
    OpenCommandsExactly(t, es, x.callId.value);
  }
}
