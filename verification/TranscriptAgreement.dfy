/**
 The application state and the worker handle keep the same shell-command transcript: exactly
 when, for one event, and a condition on streams under which they always do.
 */
module TranscriptAgreement {
  import opened Wrappers
  import opened Transcript
  import opened TranscriptIsolation

  /** A command event with a call id; the worker's Finished carries no source. */
  predicate WorkerEvent(e: Event) {
    match e
    case ExecStarted(callId, _, _) => callId.Some?
    case ExecFinished(callId, _, _, _, _, source) => callId.Some? && source.None?
    case ExecDelta(callId, _) => callId.Some?
    case _ => false
  }

  /** The last command entry of call c, if there is one, is in flight. */
  predicate LastOfCallOpen(t: seq<Entry>, c: string) {
    if t == [] then true
    else
      var x := t[|t| - 1];
      if x.ExecCommand? && x.callId == Some(c) then x.status.InProgress? else LastOfCallOpen(t[..|t| - 1], c)
  }

  /** Looking backwards, no anonymous command in flight comes before one of call c. */
  predicate NoAnonymousAfter(t: seq<Entry>, c: string) {
    if t == [] then true
    else
      var x := t[|t| - 1];
      if x.ExecCommand? && x.status.InProgress? && x.callId.None? then false
      else if x.ExecCommand? && x.status.InProgress? && x.callId == Some(c) then true
      else NoAnonymousAfter(t[..|t| - 1], c)
  }

  /** What a caller can check before handing an event to either implementation. */
  predicate Guard(t: seq<Entry>, e: Event)
    requires WorkerEvent(e)
  {
    match e
    case ExecStarted(_, _, _) => true
    case ExecFinished(callId, _, _, _, _, _) => NoAnonymousAfter(t, callId.value)
    case ExecDelta(callId, delta) => delta != "" ==> LastOfCallOpen(t, callId.value)
  }

  lemma {:induction false} DeltaScansAgree(t: seq<Entry>, e: Event)
    requires e.ExecDelta? && e.callId.Some? && e.delta != ""
    ensures LastOfCallOpen(t, e.callId.value) ==> TryRewrite(App, t, e) == TryRewrite(Worker, t, e)
    ensures !LastOfCallOpen(t, e.callId.value) ==>
      TryRewrite(App, t, e).Some? && TryRewrite(App, t, e) != TryRewrite(Worker, t, e)
  {
    if t != [] {
      var n := |t| - 1;
      var x := t[n];
      assert t == t[..n] + [x];
      TrySnoc(App, t[..n], x, e);
      TrySnoc(Worker, t[..n], x, e);
      if x.ExecCommand? && x.callId == e.callId {
        if !x.status.InProgress? {
          var y := Rewritten(App, e, x);
          assert |y.outputPreview.value| > |x.outputPreview.GetOr("")|;
          assert TryRewrite(App, t, e).value[n] == y != x;
          assert TryRewrite(Worker, t, e).Some? ==> TryRewrite(Worker, t, e).value[n] == x;
        }
      } else {
        DeltaScansAgree(t[..n], e);
        var a, w := TryRewrite(App, t[..n], e), TryRewrite(Worker, t[..n], e);
        if a != w && w.Some? {
          assert (a.value + [x])[..n] == a.value && (w.value + [x])[..n] == w.value;
        }
      }
    }
  }

  lemma {:induction false} FinishScansAgree(t: seq<Entry>, e: Event)
    requires e.ExecFinished? && WorkerEvent(e)
    ensures NoAnonymousAfter(t, e.callId.value) ==> TryRewrite(App, t, e) == TryRewrite(Worker, t, e)
    ensures !NoAnonymousAfter(t, e.callId.value) ==>
      TryRewrite(App, t, e).Some? && TryRewrite(App, t, e) != TryRewrite(Worker, t, e)
  {
    if t != [] {
      var n := |t| - 1;
      var x := t[n];
      assert t == t[..n] + [x];
      TrySnoc(App, t[..n], x, e);
      TrySnoc(Worker, t[..n], x, e);
      if x.ExecCommand? && x.status.InProgress? && x.callId.None? {
        assert TryRewrite(App, t, e).value[n].callId == e.callId;
        assert TryRewrite(Worker, t, e).Some? ==> TryRewrite(Worker, t, e).value[n] == x;
      } else if !(x.ExecCommand? && x.status.InProgress? && x.callId == e.callId) {
        FinishScansAgree(t[..n], e);
        var a, w := TryRewrite(App, t[..n], e), TryRewrite(Worker, t[..n], e);
        if a != w && w.Some? {
          assert (a.value + [x])[..n] == a.value && (w.value + [x])[..n] == w.value;
        }
      }
    }
  }

  /** On one event the two implementations leave the same transcript if and only if the guard holds. */
  lemma EventAgreement(t: seq<Entry>, e: Event)
    requires WorkerEvent(e)
    ensures Apply(App, t, e) == Apply(Worker, t, e) <==> Guard(t, e)
  {
    match e
    case ExecStarted(_, _, _) =>
    case ExecFinished(_, _, _, _, _, _) => FinishScansAgree(t, e);
    case ExecDelta(_, delta) => if delta != "" { DeltaScansAgree(t, e); }
  }

  // ----- Streams -----

  predicate NoAnonymousCommand(t: seq<Entry>) {
    forall x | x in t && x.ExecCommand? && x.status.InProgress? :: x.callId.Some?
  }

  /** Every finished command in the transcript belongs to one of these calls. */
  predicate FinishedWithin(t: seq<Entry>, done: set<string>) {
    forall x | x in t && x.ExecCommand? && x.callId.Some? && !x.status.InProgress? :: x.callId.value in done
  }

  /** No output of a call comes after its Finished, nor for a call finished before the stream. */
  predicate NoLateOutput(es: seq<Event>, done: set<string>)
    requires forall e | e in es :: WorkerEvent(e)
  {
    if es == [] then true
    else
      var e := es[0];
      assert e in es && WorkerEvent(e);
      && (e.ExecDelta? && e.delta != "" ==> e.callId.value !in done)
      && NoLateOutput(es[1..], if e.ExecFinished? then done + {e.callId.value} else done)
  }

  lemma {:induction false} GuardFromInvariant(t: seq<Entry>, e: Event, done: set<string>)
    requires WorkerEvent(e) && NoAnonymousCommand(t) && FinishedWithin(t, done)
    requires e.ExecDelta? && e.delta != "" ==> e.callId.value !in done
    ensures Guard(t, e)
  {
    if t != [] {
      var front := t[..|t| - 1];
      assert t[|t| - 1] in t;
      assert forall x | x in front :: x in t;
      GuardFromInvariant(front, e, done);
    }
  }

  lemma InvariantAfter(t: seq<Entry>, e: Event, done: set<string>)
    requires WorkerEvent(e) && NoAnonymousCommand(t) && FinishedWithin(t, done)
    ensures NoAnonymousCommand(Apply(Worker, t, e))
    ensures FinishedWithin(Apply(Worker, t, e), if e.ExecFinished? then done + {e.callId.value} else done)
  {
    var u := Apply(Worker, t, e);
    if Scans(e) && TryRewrite(Worker, t, e).Some? {
      var i := LastHit(Worker, t, e);
      RewriteAt(Worker, t, e, i);
    }
    forall x | x in u
      ensures x in t || (x.ExecCommand? && x.callId == CallOf(e) && (x.status.InProgress? || e.ExecFinished?))
    {
    }
  }

  /** Both implementations leave the same transcript on every stream with no late output. */
  lemma {:induction false} StreamAgreement(t: seq<Entry>, es: seq<Event>, done: set<string>)
    requires forall e | e in es :: WorkerEvent(e)
    requires NoAnonymousCommand(t) && FinishedWithin(t, done) && NoLateOutput(es, done)
    ensures Fold(App, t, es) == Fold(Worker, t, es)
    decreases |es|
  {
    if es != [] {
      var e := es[0];
      GuardFromInvariant(t, e, done);
      EventAgreement(t, e);
      InvariantAfter(t, e, done);
      StreamAgreement(Apply(Worker, t, e), es[1..], if e.ExecFinished? then done + {e.callId.value} else done);
    }
  }
}
