/**
 Where every operation of the mailbox puts its letters: list by list and inbox by inbox, what
 grows, by what, and what stays as it was. Source: core/src/agent_mail.rs.
 */
module MailPlacement {
  import opened Search
  import opened Wrappers
  import opened Mail

  /** What one agent's inbox, the outgoing queue, the pending list and the history grow by. */
  predicate GrowsBy(
    b: Box, c: Box, a: AgentId,
    inbox: seq<Letter>, outgoing: seq<Letter>, pending: seq<Letter>, history: seq<Letter>)
  {
    && InboxOf(c.inbox, a) == InboxOf(b.inbox, a) + inbox
    && c.outgoing == b.outgoing + outgoing
    && c.pending == b.pending + pending
    && c.history == b.history + history
  }

  /** A letter sent waits in the outgoing queue and is nowhere else. */
  lemma SentWaits(b: Box, mail: Letter, a: AgentId)
    ensures GrowsBy(b, Act(b, SendMail(mail)), a, [], [mail], [], [])
  {
    assert InboxOf(b.inbox, a) + [] == InboxOf(b.inbox, a);
  }

  /** A chat is an unread letter in its addressee's inbox and in the history at once. */
  lemma ChatArrives(b: Box, id: MailId, from: AgentId, to: AgentId, message: string, a: AgentId)
    ensures var chat := Letter(id, from, Direct(to), "Chat", message, None, false);
      GrowsBy(b, Act(b, SendChat(Chat(id, from, to, message))), a, if a == to then [chat] else [], [], [], [chat])
  {
    assert b.outgoing + [] == b.outgoing && b.pending + [] == b.pending;
  }

  /** A broadcast to distinct agents is in each one's inbox, in no other, and once in the history. */
  lemma BroadcastReaches(b: Box, mail: Letter, agents: seq<AgentId>, a: AgentId)
    requires Distinct(agents)
    ensures GrowsBy(b, Act(b, DeliverBroadcast(mail, agents)), a, if a in agents then [mail] else [], [], [], [mail])
  {
    CopiesOfDistinct(mail, agents, a);
    PutAllAt(b.inbox, mail, agents, a);
    assert b.outgoing + [] == b.outgoing && b.pending + [] == b.pending;
  }

  function Repeated(mail: Letter, n: nat): seq<Letter> {
    seq(n, i requires 0 <= i < n => mail)
  }

  lemma {:induction false} CopiesAre(mail: Letter, agents: seq<AgentId>, a: AgentId)
    ensures Copies(mail, agents, a) == Repeated(mail, multiset(agents)[a])
  {
    if agents != [] {
      CopiesAre(mail, agents[..|agents| - 1], a);
      assert agents == agents[..|agents| - 1] + [agents[|agents| - 1]];
    }
  }

  /** An agent a broadcast names several times finds it that often. */
  lemma BroadcastRepeats(b: Box, mail: Letter, agents: seq<AgentId>, a: AgentId)
    ensures GrowsBy(b, Act(b, DeliverBroadcast(mail, agents)), a, Repeated(mail, multiset(agents)[a]), [], [], [mail])
  {
    PutAllAt(b.inbox, mail, agents, a);
    CopiesAre(mail, agents, a);
    assert b.outgoing + [] == b.outgoing && b.pending + [] == b.pending;
  }

  /** Restored mail waits in the pending list, behind what is there. */
  lemma RestoredWaits(b: Box, mails: seq<Letter>, a: AgentId)
    ensures GrowsBy(b, Act(b, RestorePending(mails)), a, [], [], mails, [])
  {
    assert InboxOf(b.inbox, a) + [] == InboxOf(b.inbox, a) && b.outgoing + [] == b.outgoing;
  }

  /** Delivering moves the pending list, last letter first, to the distinct agents' inboxes and the history. */
  lemma DeliveryMoves(b: Box, agents: seq<AgentId>, a: AgentId)
    requires Distinct(agents)
    ensures var c := Act(b, Deliver(agents));
      var moved := c.history[|b.history|..];
      && |b.history| <= |c.history| && c.history[..|b.history|] == b.history
      && InboxOf(c.inbox, a) == InboxOf(b.inbox, a) + (if a in agents then moved else [])
      && c.pending == [] && c.outgoing == b.outgoing
      && |moved| == |b.pending|
      && forall i | 0 <= i < |moved| :: moved[i] == b.pending[|b.pending| - 1 - i]
  {
    var moved := Reverse(b.pending);
    DeliverPlaces(b, agents, a);
    assert (b.history + moved)[|b.history|..] == moved;
    assert (b.history + moved)[..|b.history|] == b.history;
  }

  /** Places in a sequence, in order. */
  predicate Rising(at: seq<nat>, n: nat) {
    && (forall i | 0 <= i < |at| :: at[i] < n)
    && forall i, j | 0 <= i < j < |at| :: at[i] < at[j]
  }

  /** A part of a sequence: the letters at certain places, which are all the places the rule picks. */
  ghost predicate IsPart(mails: seq<Letter>, part: seq<Letter>, picks: Letter -> bool) {
    exists at: seq<nat> :: PlacesOf(mails, part, picks, at)
  }

  ghost predicate PlacesOf(mails: seq<Letter>, part: seq<Letter>, picks: Letter -> bool, at: seq<nat>) {
    && |at| == |part| && Rising(at, |mails|)
    && (forall i | 0 <= i < |at| :: part[i] == mails[at[i]])
    && forall j: nat | j < |mails| :: picks(mails[j]) <==> j in at
  }

  lemma PlacesGrow(mails: seq<Letter>, last: Letter, part: seq<Letter>, picks: Letter -> bool, at: seq<nat>)
    requires PlacesOf(mails, part, picks, at)
    ensures picks(last) ==> PlacesOf(mails + [last], part + [last], picks, at + [|mails|])
    ensures !picks(last) ==> PlacesOf(mails + [last], part, picks, at)
  {
    assert forall i | 0 <= i < |at| :: at[i] < |mails|;
    assert |mails| !in at;
    assert forall j: nat :: j in at + [|mails|] <==> j in at || j == |mails|;
  }

  lemma PartGrows(mails: seq<Letter>, part: seq<Letter>, picks: Letter -> bool)
    requires mails != [] && IsPart(mails[..|mails| - 1], part, picks)
    ensures IsPart(mails, if picks(mails[|mails| - 1]) then part + [mails[|mails| - 1]] else part, picks)
  {
    var front, last := mails[..|mails| - 1], mails[|mails| - 1];
    var at: seq<nat> :| PlacesOf(front, part, picks, at);
    PlacesGrow(front, last, part, picks, at);
    assert mails == front + [last];
  }

  /** The letters processing puts into an inbox or the pending list are exactly those addressed there. */
  lemma {:induction false} PartsOfOutgoing(mails: seq<Letter>, a: AgentId)
    ensures IsPart(mails, DirectTo(mails, a), (m: Letter) => m.to == Direct(a))
    ensures IsPart(mails, Addressed(mails, true), (m: Letter) => m.to.Direct?)
    ensures IsPart(mails, Addressed(mails, false), (m: Letter) => !m.to.Direct?)
  {
    if mails == [] {
      assert PlacesOf(mails, [], (m: Letter) => m.to == Direct(a), []);
      assert PlacesOf(mails, [], (m: Letter) => m.to.Direct?, []);
      assert PlacesOf(mails, [], (m: Letter) => !m.to.Direct?, []);
    } else {
      var front := mails[..|mails| - 1];
      PartsOfOutgoing(front, a);
      PartGrows(mails, DirectTo(front, a), (m: Letter) => m.to == Direct(a));
      PartGrows(mails, Addressed(front, true), (m: Letter) => m.to.Direct?);
      PartGrows(mails, Addressed(front, false), (m: Letter) => !m.to.Direct?);
    }
  }

  /** Processing names the addressee of each letter it delivers, one for one, in order. */
  lemma {:induction false} RecipientsAreAddressees(mails: seq<Letter>)
    ensures |Recipients(mails)| == |Addressed(mails, true)|
    ensures forall i | 0 <= i < |Recipients(mails)| :: Addressed(mails, true)[i].to == Direct(Recipients(mails)[i])
  {
    if mails != [] {
      RecipientsAreAddressees(mails[..|mails| - 1]);
    }
  }

  /** Nothing but one agent's inbox differs. */
  ghost predicate OnlyInboxOf(b: Box, c: Box, a: AgentId) {
    && c.outgoing == b.outgoing && c.pending == b.pending && c.history == b.history
    && c.inbox.Keys == b.inbox.Keys
    && forall other | other in b.inbox && other != a :: c.inbox[other] == b.inbox[other]
  }

  /** A letter as it is once read. */
  predicate ReadAs(mail: Letter, was: Letter, now: string) {
    && mail.readAt == Some(now)
    && mail.(readAt := was.readAt) == was
  }

  /** Marking a letter read stamps the first one with the id and changes nothing else. */
  lemma MarkReadStamps(b: Box, a: AgentId, id: MailId, now: string)
    ensures var c := Act(b, MarkRead(a, id, now));
      var was, has := InboxOf(b.inbox, a), InboxOf(c.inbox, a);
      && OnlyInboxOf(b, c, a)
      && |has| == |was|
      && forall j | 0 <= j < |was| ::
           if was[j].id == id && (forall i | 0 <= i < j :: was[i].id != id) then ReadAs(has[j], was[j], now)
           else has[j] == was[j]
  {
  }

  /** Marking all read stamps every letter of the inbox and changes nothing else. */
  lemma MarkAllReadStamps(b: Box, a: AgentId, now: string)
    ensures var c := Act(b, MarkAllRead(a, now));
      var was, has := InboxOf(b.inbox, a), InboxOf(c.inbox, a);
      && OnlyInboxOf(b, c, a)
      && |has| == |was|
      && forall j | 0 <= j < |was| :: ReadAs(has[j], was[j], now)
  {
  }

  /** Clearing empties the inbox, which stays open, and changes nothing else. */
  lemma ClearEmpties(b: Box, a: AgentId)
    ensures var c := Act(b, ClearInbox(a));
      && OnlyInboxOf(b, c, a)
      && InboxOf(c.inbox, a) == []
  {
  }

  /** How many letters of an inbox nobody has stamped. */
  lemma {:induction false} UnreadCounts(mails: seq<Letter>)
    ensures Unread(mails) == |set j: nat | j < |mails| && mails[j].readAt.None?|
  {
    var unread := set j: nat | j < |mails| && mails[j].readAt.None?;
    if mails != [] {
      var n := |mails| - 1;
      UnreadCounts(mails[..n]);
      var before := set j: nat | j < |mails[..n]| && mails[..n][j].readAt.None?;
      assert unread == before + if mails[n].readAt.None? then {n} else {};
    } else {
      assert unread == {};
    }
  }
}
