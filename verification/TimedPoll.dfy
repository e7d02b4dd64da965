/**
 Polling again and again until something arrives or the time is up, with providers free to send
 and to go between the rounds.  Source: core/src/event_aggregator.rs.
 */
module TimedPolls {
  import opened EventChannels

  /** What providers may have done while the poller slept: sent more, or gone. */
  predicate ProvidersActed(before: Channels, after: Channels) {
    && before.Keys == after.Keys
    && forall a | a in before ::
         before[a].buffer <= after[a].buffer && (!before[a].open ==> after[a] == before[a])
  }

  /** What happens to the channels in each sleep. */
  type Sleep = (nat, Channels) -> Channels

  ghost predicate ByProviders(sleep: Sleep) {
    forall i: nat, c: Channels :: ProvidersActed(c, sleep(i, c))
  }

  /** The channels as each round finds them: the first, and one after each sleep until a round has events. */
  function Starts(c: Channels, order: seq<AgentId>, sleep: Sleep, i: nat, sleeps: nat): (r: seq<Channels>)
    requires Valid(c, NewPoll(order)) && ByProviders(sleep)
    ensures r != [] && r[0] == c && forall k | 0 <= k < |r| :: Valid(r[k], NewPoll(order))
    decreases sleeps - i
  {
    var (after, p) := ReceiveAll(c, NewPoll(order));
    if i >= sleeps || p.events != [] then [c]
    else
      assert ProvidersActed(after, sleep(i, after));
      [c] + Starts(sleep(i, after), order, sleep, i + 1, sleeps)
  }

  predicate AllValid(starts: seq<Channels>, order: seq<AgentId>) {
    forall k | 0 <= k < |starts| :: Valid(starts[k], NewPoll(order))
  }

  function Rounds(starts: seq<Channels>, order: seq<AgentId>): seq<Poll>
    requires AllValid(starts, order)
  {
    seq(|starts|, k requires 0 <= k < |starts| => ReceiveAll(starts[k], NewPoll(order)).1)
  }

  /** The findings of repeated polls put together: later polls add events and disconnections only. */
  function Merged(polls: seq<Poll>): Poll
    requires polls != []
  {
    if |polls| == 1 then polls[0]
    else
      var n := |polls| - 1;
      var m := Merged(polls[..n]);
      m.(events := m.events + polls[n].events, disconnected := m.disconnected + polls[n].disconnected)
  }

  /** One report for each receiver visited. */
  predicate ReportsOnce(p: Poll) {
    |p.empty| + |p.disconnected| == |p.order|
  }

  lemma {:induction false} MergedReports(polls: seq<Poll>)
    requires polls != [] && (forall i | 0 <= i < |polls| :: ReportsOnce(polls[i]))
    ensures Merged(polls).order == polls[0].order && Merged(polls).empty == polls[0].empty
    ensures |Merged(polls).empty| + |Merged(polls).disconnected| >= |polls[0].order|
    ensures ReportsOnce(Merged(polls)) <==> forall i | 0 < i < |polls| :: polls[i].disconnected == []
  {
    if |polls| > 1 {
      var n := |polls| - 1;
      MergedReports(polls[..n]);
      assert forall i | 0 < i < n :: polls[..n][i] == polls[i];
    }
  }

  /** The rounds still to come after one that left these channels. */
  function Later(after: Channels, order: seq<AgentId>, sleep: Sleep, i: nat, sleeps: nat, done: bool): seq<Channels>
    requires Valid(after, NewPoll(order)) && ByProviders(sleep)
  {
    if i >= sleeps || done then []
    else
      assert ProvidersActed(after, sleep(i, after));
      Starts(sleep(i, after), order, sleep, i + 1, sleeps)
  }

  lemma LaterNext(start: Channels, order: seq<AgentId>, sleep: Sleep, i: nat, sleeps: nat, after: Channels, p: Poll)
    requires Valid(start, NewPoll(order)) && ByProviders(sleep)
    requires (after, p) == ReceiveAll(start, NewPoll(order))
    ensures Valid(after, NewPoll(order))
    ensures Starts(start, order, sleep, i + 1, sleeps)
         == [start] + Later(after, order, sleep, i + 1, sleeps, p.events != [])
  {
  }

  lemma MergedNext(starts: seq<Channels>, start: Channels, order: seq<AgentId>)
    requires starts != [] && AllValid(starts, order) && Valid(start, NewPoll(order))
    ensures AllValid(starts + [start], order)
    ensures var p, m := ReceiveAll(start, NewPoll(order)).1, Merged(Rounds(starts, order));
      Merged(Rounds(starts + [start], order))
        == m.(events := m.events + p.events, disconnected := m.disconnected + p.disconnected)
  {
    var all := Rounds(starts + [start], order);
    assert all[..|starts|] == Rounds(starts, order);
  }

  /** The timed poll after i sleeps: the rounds so far, and what is left to do. */
  ghost predicate SoFar(first: Channels, order: seq<AgentId>, sleep: Sleep, i: nat, sleeps: nat,
      now: Channels, r: Poll, starts: seq<Channels>)
    requires Valid(first, NewPoll(order)) && ByProviders(sleep)
  {
    && starts != [] && AllValid(starts, order) && Valid(now, NewPoll(order))
    && r == Merged(Rounds(starts, order))
    && Starts(first, order, sleep, 0, sleeps) == starts + Later(now, order, sleep, i, sleeps, r.events != [])
  }

  lemma FirstRound(first: Channels, order: seq<AgentId>, sleep: Sleep, sleeps: nat)
    requires Valid(first, NewPoll(order)) && ByProviders(sleep)
    ensures var (now, r) := ReceiveAll(first, NewPoll(order));
      SoFar(first, order, sleep, 0, sleeps, now, r, [first])
  {
  }

  /** One sleep and one more round. */
  lemma NextRound(first: Channels, order: seq<AgentId>, sleep: Sleep, i: nat, sleeps: nat,
      now: Channels, r: Poll, starts: seq<Channels>)
    requires Valid(first, NewPoll(order)) && ByProviders(sleep)
    requires SoFar(first, order, sleep, i, sleeps, now, r, starts) && i < sleeps && r.events == []
    ensures Valid(sleep(i, now), NewPoll(order))
    ensures var start := sleep(i, now);
      var (after, p) := ReceiveAll(start, NewPoll(order));
      SoFar(first, order, sleep, i + 1, sleeps, after,
            r.(events := r.events + p.events, disconnected := r.disconnected + p.disconnected), starts + [start])
  {
    assert ProvidersActed(now, sleep(i, now));
    var start := sleep(i, now);
    LaterStarts(now, order, sleep, i, sleeps, starts);
    MergedNext(starts, start, order);
    assert r.events + ReceiveAll(start, NewPoll(order)).1.events == ReceiveAll(start, NewPoll(order)).1.events;
  }

  lemma LaterStarts(now: Channels, order: seq<AgentId>, sleep: Sleep, i: nat, sleeps: nat, starts: seq<Channels>)
    requires Valid(now, NewPoll(order)) && ByProviders(sleep) && i < sleeps
    ensures Valid(sleep(i, now), NewPoll(order))
    ensures var start := sleep(i, now);
      var (after, p) := ReceiveAll(start, NewPoll(order));
      starts + Later(now, order, sleep, i, sleeps, false)
        == starts + [start] + Later(after, order, sleep, i + 1, sleeps, p.events != [])
  {
    assert ProvidersActed(now, sleep(i, now));
    var start := sleep(i, now);
    var (after, p) := ReceiveAll(start, NewPoll(order));
    LaterNext(start, order, sleep, i, sleeps, after, p);
    var later := Later(after, order, sleep, i + 1, sleeps, p.events != []);
    assert starts + ([start] + later) == starts + [start] + later;
  }

  // ---------------------------------------------------------------- one round

  /** A round reports every visit once, and no disconnection exactly if every sender is alive. */
  lemma RoundReports(c: Channels, order: seq<AgentId>)
    requires Valid(c, NewPoll(order))
    ensures var p := ReceiveAll(c, NewPoll(order)).1;
      && ReportsOnce(p)
      && (p.disconnected == [] <==> forall j | 0 <= j < |order| :: c[order[j]].open)
  {
    assert order[..0] == [] && order[..|order|] == order;
    ReceiveAllSorts(c, NewPoll(order));
    var (after, p) := ReceiveAll(c, NewPoll(order));
    assert multiset(p.empty) + multiset(p.disconnected) == multiset(order);
    assert |multiset(p.empty)| + |multiset(p.disconnected)| == |multiset(order)|;
    forall a | a in order
      ensures after[a].open == c[a].open && (a in p.empty || a in p.disconnected)
    {
      ReceiveAllEmpties(c, NewPoll(order), a);
      assert a in multiset(order);
    }
    if p.disconnected != [] {
      assert p.disconnected[0] in multiset(order);
      assert p.disconnected[0] in order;
    }
  }

  // ---------------------------------------------------------------- all rounds

  /**
   The rounds together report each receiver once if and only if every round after the first
   finds every sender alive.
   */
  lemma ReportsOnceExactly(starts: seq<Channels>, order: seq<AgentId>)
    requires starts != [] && AllValid(starts, order)
    ensures ReportsOnce(Merged(Rounds(starts, order))) <==>
      forall i, j | 0 < i < |starts| && 0 <= j < |order| :: starts[i][order[j]].open
  {
    forall i | 0 <= i < |starts|
      ensures ReportsOnce(Rounds(starts, order)[i])
      ensures Rounds(starts, order)[i].disconnected == [] <==> forall j | 0 <= j < |order| :: starts[i][order[j]].open
    {
      RoundReports(starts[i], order);
    }
    MergedReports(Rounds(starts, order));
  }

  /** A round reports an agent as gone exactly if it was to visit it and its sender is gone. */
  lemma RoundDisconnects(c: Channels, order: seq<AgentId>, a: AgentId)
    requires Valid(c, NewPoll(order))
    ensures var p := ReceiveAll(c, NewPoll(order)).1;
      && (a in p.disconnected <==> a in order && !c[a].open)
      && (a in p.empty <==> a in order && c[a].open)
  {
    assert order[..0] == [] && order[..|order|] == order;
    ReceiveAllSorts(c, NewPoll(order));
    var (after, p) := ReceiveAll(c, NewPoll(order));
    assert a in order <==> multiset(order)[a] > 0;
    assert a in multiset(p.empty) + multiset(p.disconnected) <==> a in multiset(order);
    if a in order {
      ReceiveAllEmpties(c, NewPoll(order), a);
    }
  }

  lemma {:induction false} MergedDisconnects(polls: seq<Poll>, a: AgentId)
    requires polls != []
    ensures a in Merged(polls).disconnected <==> exists i :: 0 <= i < |polls| && a in polls[i].disconnected
    ensures Merged(polls).empty == polls[0].empty
  {
    if |polls| > 1 {
      var n := |polls| - 1;
      MergedDisconnects(polls[..n], a);
      assert forall i | 0 <= i < n :: polls[..n][i] == polls[i];
      if a in Merged(polls[..n]).disconnected {
        var i :| 0 <= i < n && a in polls[..n][i].disconnected;
        assert a in polls[i].disconnected;
      }
    }
  }

  /**
   Who is reported: as gone, exactly whose sender some round finds gone; as having nothing,
   exactly who had a living sender in the first round.
   */
  lemma WhoIsReported(starts: seq<Channels>, order: seq<AgentId>, a: AgentId)
    requires starts != [] && AllValid(starts, order)
    ensures var m := Merged(Rounds(starts, order));
      && (a in m.disconnected <==> a in order && exists i :: 0 <= i < |starts| && !starts[i][a].open)
      && (a in m.empty <==> a in order && starts[0][a].open)
  {
    var rounds := Rounds(starts, order);
    forall i | 0 <= i < |starts|
      ensures a in rounds[i].disconnected <==> a in order && !starts[i][a].open
      ensures a in rounds[i].empty <==> a in order && starts[i][a].open
    {
      RoundDisconnects(starts[i], order, a);
    }
    MergedDisconnects(rounds, a);
  }

  function SleepsLeft(i: nat, sleeps: nat): nat {
    if i < sleeps then sleeps - i else 0
  }

  /** None but the last round has events, and short of the time only one with events ends them. */
  predicate StopsRightly(rounds: seq<Poll>, left: nat) {
    && 1 <= |rounds| <= 1 + left
    && (forall k | 0 <= k < |rounds| - 1 :: rounds[k].events == [])
    && (rounds[|rounds| - 1].events == [] ==> |rounds| == 1 + left)
  }

  lemma StopsLater(p: Poll, rest: seq<Poll>, left: nat)
    requires p.events == [] && StopsRightly(rest, left)
    ensures StopsRightly([p] + rest, left + 1)
  {
  }

  lemma {:induction false} RoundsStop(c: Channels, order: seq<AgentId>, sleep: Sleep, i: nat, sleeps: nat)
    requires Valid(c, NewPoll(order)) && ByProviders(sleep)
    ensures StopsRightly(Rounds(Starts(c, order, sleep, i, sleeps), order), SleepsLeft(i, sleeps))
    decreases sleeps - i
  {
    var (after, p) := ReceiveAll(c, NewPoll(order));
    if i < sleeps && p.events == [] {
      assert ProvidersActed(after, sleep(i, after));
      RoundsStop(sleep(i, after), order, sleep, i + 1, sleeps);
      var rest := Starts(sleep(i, after), order, sleep, i + 1, sleeps);
      assert Starts(c, order, sleep, i, sleeps) == [c] + rest;
      RoundsCons(c, rest, order);
      StopsLater(p, Rounds(rest, order), SleepsLeft(i + 1, sleeps));
      assert SleepsLeft(i, sleeps) == SleepsLeft(i + 1, sleeps) + 1;
    } else {
      assert Rounds([c], order) == [p];
    }
  }

  lemma RoundsCons(c: Channels, rest: seq<Channels>, order: seq<AgentId>)
    requires Valid(c, NewPoll(order)) && AllValid(rest, order)
    ensures AllValid([c] + rest, order)
    ensures Rounds([c] + rest, order) == [ReceiveAll(c, NewPoll(order)).1] + Rounds(rest, order)
  {
  }

  lemma {:induction false} MergedEvents(polls: seq<Poll>)
    requires polls != [] && forall k | 0 <= k < |polls| - 1 :: polls[k].events == []
    ensures Merged(polls).events == polls[|polls| - 1].events
  {
    if |polls| > 1 {
      MergedEvents(polls[..|polls| - 1]);
    }
  }

  /** What is handed over are the events of the one round that had any. */
  lemma TimedEvents(c: Channels, order: seq<AgentId>, sleep: Sleep, sleeps: nat)
    requires Valid(c, NewPoll(order)) && ByProviders(sleep)
    ensures var rounds := Rounds(Starts(c, order, sleep, 0, sleeps), order);
      Merged(rounds).events == rounds[|rounds| - 1].events
  {
    RoundsStop(c, order, sleep, 0, sleeps);
    MergedEvents(Rounds(Starts(c, order, sleep, 0, sleeps), order));
  }

  /** Nothing waiting, one sender gone and time for a second round: that agent is reported again. */
  lemma GoneSenderIsRepeated(c: Channels, order: seq<AgentId>, sleep: Sleep, sleeps: nat, j: nat)
    requires Valid(c, NewPoll(order)) && ByProviders(sleep) && sleeps > 0
    requires ReceiveAll(c, NewPoll(order)).1.events == []
    requires j < |order| && !c[order[j]].open
    ensures !ReportsOnce(Merged(Rounds(Starts(c, order, sleep, 0, sleeps), order)))
  {
    var starts := Starts(c, order, sleep, 0, sleeps);
    var after := ReceiveAll(c, NewPoll(order)).0;
    assert ProvidersActed(after, sleep(0, after));
    assert |starts| > 1 && starts[1] == sleep(0, after);
    ReceiveAllEmpties(c, NewPoll(order), order[j]);
    assert !starts[1][order[j]].open;
    ReportsOnceExactly(starts, order);
  }

  // ---------------------------------------------------------------- before the call

  /** A receiver with something buffered makes the first round the only one. */
  lemma BufferedEndsIt(c: Channels, order: seq<AgentId>, j: nat)
    requires Valid(c, NewPoll(order)) && j < |order| && c[order[j]].buffer != []
    ensures ReceiveAll(c, NewPoll(order)).1.events != []
  {
    ReceiveAllEmpties(c, NewPoll(order), order[j]);
    var (after, p) := ReceiveAll(c, NewPoll(order));
    assert Ahead(order, 0, order[j]);
    assert |Of(p.events, order[j])| == |c[order[j]].buffer|;
  }

  lemma {:induction false} NothingBuffered(c: Channels, p: Poll)
    requires Valid(c, p) && forall j | 0 <= j < |p.order| :: c[p.order[j]].buffer == []
    ensures ReceiveAll(c, p).1.events == p.events
    decreases |p.order| - p.next, Waiting(c, p)
  {
    if p.next < |p.order| {
      NothingBuffered(c, Receive(c, p).1);
    }
  }

  function Closed(c: Channels): Channels {
    map a | a in c :: c[a].(open := false)
  }

  /** Providers may all go while the poller sleeps. */
  function AllGo(): Sleep {
    (i: nat, c: Channels) => Closed(c)
  }

  lemma AllGoIsByProviders()
    ensures ByProviders(AllGo())
  {
  }

  /** Whatever providers do in the sleeps, each receiver is reported once. */
  ghost predicate AlwaysReportsOnce(c: Channels, order: seq<AgentId>, sleeps: nat)
    requires Valid(c, NewPoll(order))
  {
    forall sleep: Sleep | ByProviders(sleep) ::
      ReportsOnce(Merged(Rounds(Starts(c, order, sleep, 0, sleeps), order)))
  }

  /**
   It is so exactly if there is no second round for anyone: no receiver, no time to sleep, or
   something buffered when the call is made.
   */
  lemma AlwaysReportsOnceExactly(c: Channels, order: seq<AgentId>, sleeps: nat)
    requires Valid(c, NewPoll(order))
    ensures AlwaysReportsOnce(c, order, sleeps) <==>
      order == [] || sleeps == 0 || exists j :: 0 <= j < |order| && c[order[j]].buffer != []
  {
    if order == [] || sleeps == 0 || exists j :: 0 <= j < |order| && c[order[j]].buffer != [] {
      forall sleep: Sleep | ByProviders(sleep)
        ensures ReportsOnce(Merged(Rounds(Starts(c, order, sleep, 0, sleeps), order)))
      {
        if j :| 0 <= j < |order| && c[order[j]].buffer != [] {
          BufferedEndsIt(c, order, j);
        }
        ReportsOnceExactly(Starts(c, order, sleep, 0, sleeps), order);
      }
    } else {
      EveryoneMayGo(c, order, sleeps);
    }
  }

  lemma EveryoneMayGo(c: Channels, order: seq<AgentId>, sleeps: nat)
    requires Valid(c, NewPoll(order)) && order != [] && sleeps > 0
    requires forall j | 0 <= j < |order| :: c[order[j]].buffer == []
    ensures !AlwaysReportsOnce(c, order, sleeps)
  {
    AllGoIsByProviders();
    NothingBuffered(c, NewPoll(order));
    var starts := Starts(c, order, AllGo(), 0, sleeps);
    var after := ReceiveAll(c, NewPoll(order)).0;
    assert |starts| > 1 && starts[1] == Closed(after);
    assert !starts[1][order[0]].open;
    ReportsOnceExactly(starts, order);
  }

  /** Polling until a timeout reports a disconnected receiver again in every further round. */
  lemma RepeatedPollRepeatsDisconnections()
    ensures var a := AgentId("agent_001");
            var channels: Channels := map[a := Channel([], false)];
            var first := ReceiveAll(channels, NewPoll([a]));
            var second := ReceiveAll(first.0, NewPoll([a]));
            Merged([first.1, second.1]).disconnected == [a, a]
  {
  }
}
