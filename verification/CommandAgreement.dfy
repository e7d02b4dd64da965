/**
 On any event stream the application state and the worker handle show the same shell commands,
 exactly if the guard holds at every command event along it.
 Source: core/src/app.rs, core/src/agent_slot.rs.
 */
module CommandAgreement {
  import opened Wrappers
  import opened BackwardScan
  import opened Transcript
  import opened TranscriptIsolation
  import opened TranscriptBrackets
  import opened TranscriptAgreement

  // ----- The commands of a transcript -----

  function IsCommand(): (Entry -> bool) {
    (x: Entry) => x.ExecCommand?
  }

  function Commands(t: seq<Entry>): seq<Entry> {
    Filter(t, IsCommand())
  }

  function CommandEvents(es: seq<Event>): seq<Event> {
    if es == [] then []
    else (if CommandEvent(es[0]) then [es[0]] else []) + CommandEvents(es[1..])
  }

  lemma {:induction false} CommandEventsOf(es: seq<Event>)
    ensures forall e :: e in CommandEvents(es) <==> e in es && CommandEvent(e)
  {
    if es != [] {
      CommandEventsOf(es[1..]);
      assert es == [es[0]] + es[1..];
    }
  }

  lemma CommandsAppend(t: seq<Entry>, more: seq<Entry>, own: bool)
    requires forall x | x in more :: x.ExecCommand? == own
    ensures Commands(t + more) == if own then Commands(t) + more else Commands(t)
  {
    FilterAppend(t, more, IsCommand());
    FilterUniform(more, IsCommand());
    assert Commands(t) + [] == Commands(t);
  }

  /** A scan for a command is a scan of the commands; any other leaves them alone. */
  lemma ScanOnCommands(impl: Impl, t: seq<Entry>, e: Event)
    requires Scans(e)
    ensures Commands(Scan(impl, t, e)) == if CommandEvent(e) then Scan(impl, Commands(t), e) else Commands(t)
  {
    var hits, rewrite := Hitter(impl, e), Rewriter(impl, e);
    if CommandEvent(e) {
      ScanCommutes(t, hits, rewrite, IsCommand());
    } else if TryRewrite(impl, t, e).Some? {
      ScanInvisible(t, hits, rewrite, IsCommand());
    }
    if TryRewrite(impl, t, e).None? {
      CommandsAppend(t, Missed(impl, e), CommandEvent(e));
    }
  }

  lemma ChunkOnCommands(impl: Impl, t: seq<Entry>, e: Event)
    requires e.AssistantChunk? || e.ThinkingChunk?
    ensures Commands(Apply(impl, t, e)) == Commands(t)
  {
    var u := Apply(impl, t, e);
    if |u| == |t| {
      var n := |t| - 1;
      assert t == t[..n] + [t[n]] && u == t[..n] + [u[n]];
      CommandsAppend(t[..n], [t[n]], false);
      CommandsAppend(t[..n], [u[n]], false);
    } else {
      assert u == t + [u[|t|]];
      CommandsAppend(t, [u[|t|]], false);
    }
  }

  /** One event commutes with looking at the commands only. */
  lemma EventOnCommands(impl: Impl, t: seq<Entry>, e: Event)
    requires !Resets(e)
    ensures Commands(Apply(impl, t, e)) == if CommandEvent(e) then Apply(impl, Commands(t), e) else Commands(t)
  {
    if EmptyDelta(e) {
    } else if Scans(e) {
      ScanOnCommands(impl, t, e);
    } else if e.AssistantChunk? || e.ThinkingChunk? {
      ChunkOnCommands(impl, t, e);
    } else {
      CommandsAppend(t, Pushed(e), CommandEvent(e));
    }
  }

  /** The commands after any stream are those of running its command events on the commands. */
  lemma {:induction false} FoldOnCommands(impl: Impl, t: seq<Entry>, es: seq<Event>)
    requires forall e | e in es :: !Resets(e)
    ensures Commands(Fold(impl, t, es)) == Fold(impl, Commands(t), CommandEvents(es))
    decreases |es|
  {
    if es != [] {
      var e, rest := es[0], es[1..];
      assert e in es && forall d | d in rest :: d in es;
      EventOnCommands(impl, t, e);
      FoldOnCommands(impl, Apply(impl, t, e), rest);
      if CommandEvent(e) {
        FoldCons(impl, Commands(t), e, CommandEvents(rest));
      } else {
        assert [] + CommandEvents(rest) == CommandEvents(rest);
      }
    }
  }

  // ----- A difference never heals -----

  /**
   Entry i is a command that the application has claimed for a call and the worker has not, or
   one that is finished in both with more output in the application.
   */
  predicate Scarred(u: seq<Entry>, v: seq<Entry>, i: nat) {
    && i < |u| && i < |v| && u[i].ExecCommand? && v[i].ExecCommand?
    && ((u[i].callId.Some? && v[i].callId.None?)
        || (!u[i].status.InProgress? && !v[i].status.InProgress?
            && |u[i].outputPreview.GetOr("")| > |v[i].outputPreview.GetOr("")|))
  }

  /** What an identified command event leaves at a position that it does not hit, or hits. */
  lemma EntryAfter(impl: Impl, t: seq<Entry>, e: Event, i: nat)
    requires WorkerEvent(e) && i < |t|
    ensures i < |Apply(impl, t, e)|
    ensures Apply(impl, t, e)[i] == t[i]
      || (Scans(e) && !EmptyDelta(e) && Hits(impl, e, t[i]) && Apply(impl, t, e)[i] == Rewritten(impl, e, t[i]))
  {
    if Scans(e) && !EmptyDelta(e) && TryRewrite(impl, t, e).Some? {
      var k := LastHit(impl, t, e);
      RewriteAt(impl, t, e, k);
    }
  }

  lemma ScarStays(u: seq<Entry>, v: seq<Entry>, e: Event, i: nat)
    requires WorkerEvent(e) && Scarred(u, v, i)
    ensures Scarred(Apply(App, u, e), Apply(Worker, v, e), i)
  {
    EntryAfter(App, u, e, i);
    EntryAfter(Worker, v, e, i);
  }

  lemma {:induction false} ScarsStay(u: seq<Entry>, v: seq<Entry>, es: seq<Event>, i: nat)
    requires (forall e | e in es :: WorkerEvent(e)) && Scarred(u, v, i)
    ensures Scarred(Fold(App, u, es), Fold(Worker, v, es), i)
    decreases |es|
  {
    if es != [] {
      assert es[0] in es && forall d | d in es[1..] :: d in es;
      ScarStays(u, v, es[0], i);
      ScarsStay(Apply(App, u, es[0]), Apply(Worker, v, es[0]), es[1..], i);
    }
  }

  /** If the last entry the application's Finished hits has an id, no anonymous one comes after its call's. */
  lemma {:induction false} LastHitNamed(t: seq<Entry>, e: Event, i: nat)
    requires e.ExecFinished? && WorkerEvent(e) && i < |t| && Hits(App, e, t[i]) && t[i].callId.Some?
    requires forall j | i < j < |t| :: !Hits(App, e, t[j])
    ensures NoAnonymousAfter(t, e.callId.value)
  {
    var n := |t| - 1;
    if i < n {
      assert !Hits(App, e, t[n]);
      LastHitNamed(t[..n], e, i);
    }
  }

  lemma {:induction false} LastHitOpen(t: seq<Entry>, e: Event, i: nat)
    requires e.ExecDelta? && WorkerEvent(e) && i < |t| && Hits(App, e, t[i]) && t[i].status.InProgress?
    requires forall j | i < j < |t| :: !Hits(App, e, t[j])
    ensures LastOfCallOpen(t, e.callId.value)
  {
    var n := |t| - 1;
    if i < n {
      assert !Hits(App, e, t[n]);
      LastHitOpen(t[..n], e, i);
    }
  }

  /** An event that fails the guard leaves such a difference. */
  lemma UnguardedScars(t: seq<Entry>, e: Event) returns (i: nat)
    requires WorkerEvent(e) && !Guard(t, e)
    ensures Scarred(Apply(App, t, e), Apply(Worker, t, e), i)
  {
    if e.ExecDelta? { DeltaScansAgree(t, e); } else { FinishScansAgree(t, e); }
    i := LastHit(App, t, e);
    RewriteAt(App, t, e, i);
    if e.ExecDelta? {
      if t[i].status.InProgress? { LastHitOpen(t, e, i); }
    } else {
      if t[i].callId.Some? { LastHitNamed(t, e, i); }
    }
    EntryAfter(Worker, t, e, i);
  }

  // ----- Streams -----

  /** The guard holds at each event, on the transcript the application has by then. */
  predicate GuardedAlong(t: seq<Entry>, es: seq<Event>)
    requires forall e | e in es :: WorkerEvent(e)
    decreases |es|
  {
    if es == [] then true
    else
      assert es[0] in es && forall d | d in es[1..] :: d in es;
      Guard(t, es[0]) && GuardedAlong(Apply(App, t, es[0]), es[1..])
  }

  /** On a stream of command events the two agree if and only if the guard holds all along. */
  lemma {:induction false} StreamAgreementExactly(t: seq<Entry>, es: seq<Event>)
    requires forall e | e in es :: WorkerEvent(e)
    ensures Fold(App, t, es) == Fold(Worker, t, es) <==> GuardedAlong(t, es)
    decreases |es|
  {
    if es != [] {
      var e, rest := es[0], es[1..];
      assert e in es && forall d | d in rest :: d in es;
      EventAgreement(t, e);
      if Guard(t, e) {
        StreamAgreementExactly(Apply(App, t, e), rest);
      } else {
        var i := UnguardedScars(t, e);
        ScarsStay(Apply(App, t, e), Apply(Worker, t, e), rest, i);
      }
    }
  }

  predicate Comparable(es: seq<Event>) {
    forall e | e in es :: !Resets(e) && (CommandEvent(e) ==> WorkerEvent(e))
  }

  lemma ComparableEvents(es: seq<Event>)
    requires Comparable(es)
    ensures forall e | e in CommandEvents(es) :: WorkerEvent(e)
  {
    CommandEventsOf(es);
  }

  /**
   For any two streams with the same command events, whatever else each holds, and transcripts
   with the same commands: both show the same commands afterwards if and only if the guard holds
   at every command event along the way.
   */
  lemma CommandAgreementExactly(t: seq<Entry>, es: seq<Event>, u: seq<Entry>, fs: seq<Event>)
    requires Comparable(es) && Comparable(fs)
    requires Commands(t) == Commands(u) && CommandEvents(es) == CommandEvents(fs)
    ensures forall e | e in CommandEvents(es) :: WorkerEvent(e)
    ensures Commands(Fold(App, t, es)) == Commands(Fold(Worker, u, fs))
      <==> GuardedAlong(Commands(t), CommandEvents(es))
  {
    ComparableEvents(es);
    FoldOnCommands(App, t, es);
    FoldOnCommands(Worker, u, fs);
    StreamAgreementExactly(Commands(t), CommandEvents(es));
  }

  /**
   So they do whenever no command is in flight without an id and no call gets output after its
   Finished.
   */
  lemma CommandsAgree(t: seq<Entry>, es: seq<Event>, u: seq<Entry>, fs: seq<Event>, done: set<string>)
    requires Comparable(es) && Comparable(fs)
    requires Commands(t) == Commands(u) && CommandEvents(es) == CommandEvents(fs)
    requires NoAnonymousCommand(t) && FinishedWithin(t, done)
    requires (forall e | e in CommandEvents(es) :: WorkerEvent(e)) && NoLateOutput(CommandEvents(es), done)
    ensures Commands(Fold(App, t, es)) == Commands(Fold(Worker, u, fs))
  {
    FoldOnCommands(App, t, es);
    FoldOnCommands(Worker, u, fs);
    assert forall x | x in Commands(t) :: x in t;
    StreamAgreement(Commands(t), CommandEvents(es), done);
  }
}
