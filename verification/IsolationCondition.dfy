/**
 When calls are isolated: exactly when the transcript has no in-flight entry without a call id.
 Source: core/src/app.rs.
 */
module IsolationCondition {
  import opened Wrappers
  import opened Transcript
  import opened TranscriptIsolation

  /** Every interleaved stream leaves each call what its own events alone would leave it. */
  ghost predicate Isolated(t: seq<Entry>) {
    forall es: seq<Event>, c: string | Admissible(es) ::
      EntriesOf(Fold(App, t, es), c) == Fold(App, EntriesOf(t, c), EventsOf(es, c))
  }

  /** The Finished event, for call c, of an entry's kind. */
  function FinishOf(x: Entry, c: string): Event
    requires Anonymous(x)
  {
    match x
    case ExecCommand(_, _, _, _, _, _, _, _) => ExecFinished(Some(c), None, Completed, None, None, None)
    case PatchApply(_, _, _, _) => PatchFinished(Some(c), [], Completed)
    case WebSearch(_, _, _, _) => SearchFinished(Some(c), "", None)
    case McpToolCall(_, _, _, _, _, _) => McpFinished(Some(c), "", [], None, Completed, false)
  }

  /** It claims such an entry; an entry it hits is its own call's or, claimed, becomes so. */
  lemma FinishClaims(x: Entry, c: string, y: Entry)
    requires Anonymous(x)
    ensures var f := FinishOf(x, c);
      && Scans(f) && CallOf(f) == Some(c) && !EmptyDelta(f) && Identified(f) && !Resets(f)
      && Hits(App, f, x)
      && (Hits(App, f, y) ==> OfCall(Rewritten(App, f, y), c) && !Rewritten(App, f, y).ViewImage?)
      && !Hits(App, f, ViewImage(Some(c), ""))
  {
  }

  function IdLength(x: Entry): nat {
    match x
    case ExecCommand(callId, _, _, _, _, _, _, _) => |callId.GetOr("")|
    case PatchApply(callId, _, _, _) => |callId.GetOr("")|
    case WebSearch(callId, _, _, _) => |callId.GetOr("")|
    case ViewImage(callId, _) => |callId.GetOr("")|
    case ImageGeneration(callId, _, _, _) => |callId.GetOr("")|
    case McpToolCall(callId, _, _, _, _, _) => |callId.GetOr("")|
    case _ => 0
  }

  /** A call id that no entry of the transcript has: one longer than all of them. */
  function FreshId(t: seq<Entry>): (c: string)
    ensures forall x | x in t :: IdLength(x) < |c|
  {
    if t == [] then "c"
    else
      var c, x := FreshId(t[..|t| - 1]), t[|t| - 1];
      if IdLength(x) < |c| then c else seq(IdLength(x) + 1, _ => 'c')
  }

  /** Replacing one entry of a transcript that has none of call c by one of call c. */
  lemma OneEntryOf(t: seq<Entry>, i: nat, y: Entry, c: string)
    requires i < |t| && OfCall(y, c) && forall x | x in t :: !OfCall(x, c)
    ensures EntriesOf(t[i := y], c) == [y]
  {
    assert t[i := y] == t[..i] + [y] + t[i + 1..];
    assert forall x | x in t[..i] :: x in t;
    assert forall x | x in t[i + 1..] :: x in t;
    assert [] + t[..i] == t[..i];
    EntriesAppend([], t[..i], c, false);
    EntriesAppend(t[..i], [y], c, true);
    EntriesAppend(t[..i] + [y], t[i + 1..], c, false);
  }

  lemma ThenImage(u: seq<Entry>, y: Entry, c: string)
    requires EntriesOf(u, c) == [y]
    ensures EntriesOf(u + [ViewImage(Some(c), "")], c) == [y, ViewImage(Some(c), "")]
  {
    EntriesSnoc(u, ViewImage(Some(c), ""), c);
  }

  lemma FoldTwo(t: seq<Entry>, d: Event, e: Event)
    ensures Fold(App, t, [d, e]) == Apply(App, Apply(App, t, d), e)
  {
    FoldSnoc(App, t, [], d);
    FoldSnoc(App, t, [d], e);
    assert [] + [d] == [d] && [d] + [e] == [d, e];
  }

  lemma FoldAfterImage(t: seq<Entry>, c: string, e: Event)
    ensures Fold(App, t, [ImageViewed(Some(c), ""), e]) == Apply(App, t + [ViewImage(Some(c), "")], e)
  {
    FoldTwo(t, ImageViewed(Some(c), ""), e);
  }

  lemma EventsOfTwo(d: Event, e: Event, c: string)
    requires CallOf(d) == Some(c) && CallOf(e) == Some(c)
    ensures EventsOf([d, e], c) == [d, e]
  {
    assert [d, e][1..] == [e] && [e][1..] == [];
    assert EventsOf([e], c) == [e];
  }

  /** The Finished passes over an image of its call and rewrites an entry before it. */
  lemma ClaimsBefore(t: seq<Entry>, x: Entry, c: string) returns (i: nat, y: Entry)
    requires x in t && Anonymous(x)
    ensures i < |t| && OfCall(y, c) && !y.ViewImage?
    ensures Apply(App, t + [ViewImage(Some(c), "")], FinishOf(x, c)) == t[i := y] + [ViewImage(Some(c), "")]
  {
    var f := FinishOf(x, c);
    FinishClaims(x, c, x);
    TrySnoc(App, t, ViewImage(Some(c), ""), f);
    i := LastHit(App, t, f);
    RewriteAt(App, t, f, i);
    FinishClaims(x, c, t[i]);
    y := Rewritten(App, f, t[i]);
  }

  /** The image of call c, then the Finished: run on the transcript, the claimed entry comes first. */
  lemma RunTogether(t: seq<Entry>, x: Entry, c: string)
    requires x in t && Anonymous(x) && forall y | y in t :: !OfCall(y, c)
    ensures var mine := EntriesOf(Fold(App, t, [ImageViewed(Some(c), ""), FinishOf(x, c)]), c);
      mine != [] && !mine[0].ViewImage?
  {
    FoldAfterImage(t, c, FinishOf(x, c));
    var i, y := ClaimsBefore(t, x, c);
    OneEntryOf(t, i, y, c);
    ThenImage(t[i := y], y, c);
  }

  /** Run alone, the image does. */
  lemma RunAlone(x: Entry, c: string)
    requires Anonymous(x)
    ensures var u := Fold(App, [], [ImageViewed(Some(c), ""), FinishOf(x, c)]); u != [] && u[0].ViewImage?
  {
    var image, f := ViewImage(Some(c), ""), FinishOf(x, c);
    FinishClaims(x, c, x);
    FoldAfterImage([], c, f);
    assert [] + [image] == [image];
    assert TryRewrite(App, [image], f).None?;
  }

  lemma AnonymousBreaksIsolation(t: seq<Entry>, x: Entry)
    requires x in t && Anonymous(x)
    ensures !Isolated(t)
  {
    var c := FreshId(t);
    var es := [ImageViewed(Some(c), ""), FinishOf(x, c)];
    forall y | y in t ensures !OfCall(y, c) {
      assert IdLength(y) < |c|;
    }
    FinishClaims(x, c, x);
    assert EntriesOf(t, c) == [] by { EntriesAppend([], t, c, false); assert [] + t == t; }
    EventsOfTwo(es[0], es[1], c);
    RunTogether(t, x, c);
    RunAlone(x, c);
    assert Admissible(es);
    assert EntriesOf(Fold(App, t, es), c) != Fold(App, EntriesOf(t, c), EventsOf(es, c));
  }

  /** Calls are isolated on a transcript if and only if no in-flight entry of it lacks a call id. */
  lemma IsolationExactly(t: seq<Entry>)
    ensures Isolated(t) <==> NoAnonymous(t)
  {
    if NoAnonymous(t) {
      forall es, c | Admissible(es)
        ensures EntriesOf(Fold(App, t, es), c) == Fold(App, EntriesOf(t, c), EventsOf(es, c))
      {
        CallIsolation(App, t, es, c);
      }
    } else {
      var x :| x in t && Anonymous(x);
      AnonymousBreaksIsolation(t, x);
    }
  }
}
