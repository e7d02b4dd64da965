/**
 The mailbox on values: mail moving through the outgoing queue, the pending list, the inboxes
 and the history, and what every run conserves. Source: core/src/agent_mail.rs.
 */
module Mail {
  import opened Search
  import opened Wrappers

  type AgentId = string
  type MailId = string

  datatype Target = Direct(agent: AgentId) | Broadcast | ProviderType(provider: string)

  datatype Letter = Letter(
    id: MailId, from: AgentId, to: Target, subject: string, body: string,
    readAt: Option<string>, requiresAction: bool)

  /** What delivering pending mail reports. */
  datatype Delivery = Delivery(mail: Letter, target: AgentId)

  type Inboxes = map<AgentId, seq<Letter>>

  datatype Box = Box(inbox: Inboxes, outgoing: seq<Letter>, pending: seq<Letter>, history: seq<Letter>)

  const EMPTY := Box(map[], [], [], [])

  // ---------------------------------------------------------------- inboxes

  function InboxOf(inbox: Inboxes, a: AgentId): seq<Letter> {
    if a in inbox then inbox[a] else []
  }

  /** Push one letter, opening the inbox if there is none. */
  function Put(inbox: Inboxes, a: AgentId, mail: Letter): Inboxes {
    inbox[a := InboxOf(inbox, a) + [mail]]
  }

  function PutAll(inbox: Inboxes, mail: Letter, agents: seq<AgentId>): Inboxes {
    if agents == [] then inbox
    else Put(PutAll(inbox, mail, agents[..|agents| - 1]), agents[|agents| - 1], mail)
  }

  /** Every letter to every agent, letter by letter. */
  function DeliverAll(inbox: Inboxes, mails: seq<Letter>, agents: seq<AgentId>): Inboxes {
    if mails == [] then inbox
    else PutAll(DeliverAll(inbox, mails[..|mails| - 1], agents), mails[|mails| - 1], agents)
  }

  function Reverse(mails: seq<Letter>): (r: seq<Letter>)
    ensures |r| == |mails| && forall i | 0 <= i < |r| :: r[i] == mails[|mails| - 1 - i]
  {
    if mails == [] then [] else [mails[|mails| - 1]] + Reverse(mails[..|mails| - 1])
  }

  function Deliveries(mail: Letter, agents: seq<AgentId>): seq<Delivery> {
    seq(|agents|, i requires 0 <= i < |agents| => Delivery(mail, agents[i]))
  }

  function AllDeliveries(mails: seq<Letter>, agents: seq<AgentId>): seq<Delivery> {
    if mails == [] then []
    else AllDeliveries(mails[..|mails| - 1], agents) + Deliveries(mails[|mails| - 1], agents)
  }

  /** The letters that are, or are not, addressed to one agent. */
  function Addressed(mails: seq<Letter>, direct: bool): seq<Letter> {
    if mails == [] then []
    else
      var n := |mails| - 1;
      if mails[n].to.Direct? == direct then Addressed(mails[..n], direct) + [mails[n]]
      else Addressed(mails[..n], direct)
  }

  function DirectTo(mails: seq<Letter>, a: AgentId): seq<Letter> {
    if mails == [] then []
    else
      var n := |mails| - 1;
      if mails[n].to == Direct(a) then DirectTo(mails[..n], a) + [mails[n]] else DirectTo(mails[..n], a)
  }

  function Recipients(mails: seq<Letter>): seq<AgentId> {
    if mails == [] then []
    else
      var n := |mails| - 1;
      if mails[n].to.Direct? then Recipients(mails[..n]) + [mails[n].to.agent] else Recipients(mails[..n])
  }

  /** Deliver one letter: to its inbox if it is direct, to the pending list if not. */
  function Dispatch(b: Box, mail: Letter): Box {
    if mail.to.Direct? then
      b.(inbox := Put(b.inbox, mail.to.agent, mail), history := b.history + [mail])
    else b.(pending := b.pending + [mail])
  }

  function DispatchAll(b: Box, mails: seq<Letter>): Box {
    if mails == [] then b else Dispatch(DispatchAll(b, mails[..|mails| - 1]), mails[|mails| - 1])
  }

  // ---------------------------------------------------------------- reading

  /** Where the first letter with this id is. */
  function FirstWith(mails: seq<Letter>, id: MailId): (r: Option<nat>)
    ensures r.Some? ==>
      r.value < |mails| && mails[r.value].id == id && forall j | 0 <= j < r.value :: mails[j].id != id
    ensures r.None? ==> forall j | 0 <= j < |mails| :: mails[j].id != id
  {
    FirstIndex(mails, (m: Letter) => m.id == id)
  }

  function Unread(mails: seq<Letter>): nat {
    if mails == [] then 0
    else Unread(mails[..|mails| - 1]) + if mails[|mails| - 1].readAt.None? then 1 else 0
  }

  function Stamped(mails: seq<Letter>, now: string): seq<Letter> {
    seq(|mails|, i requires 0 <= i < |mails| => mails[i].(readAt := Some(now)))
  }

  /** One inbox after marking a letter read by its id. */
  function MarkOne(mails: seq<Letter>, id: MailId, now: string): seq<Letter> {
    match FirstWith(mails, id)
    case None => mails
    case Some(i) => mails[i := mails[i].(readAt := Some(now))]
  }

  // ---------------------------------------------------------------- operations

  function Chat(id: MailId, from: AgentId, to: AgentId, message: string): Letter {
    Letter(id, from, Direct(to), "Chat", message, None, false)
  }

  function Processed(b: Box): Box {
    DispatchAll(b.(outgoing := []), b.outgoing)
  }

  function Delivered(b: Box, agents: seq<AgentId>): Box {
    Box(DeliverAll(b.inbox, Reverse(b.pending), agents), b.outgoing, [], b.history + Reverse(b.pending))
  }

  function MarkedRead(b: Box, a: AgentId, id: MailId, now: string): Box {
    if a in b.inbox then b.(inbox := b.inbox[a := MarkOne(b.inbox[a], id, now)]) else b
  }

  function MarkedAllRead(b: Box, a: AgentId, now: string): Box {
    if a in b.inbox then b.(inbox := b.inbox[a := Stamped(b.inbox[a], now)]) else b
  }

  function Cleared(b: Box, a: AgentId): Box {
    if a in b.inbox then b.(inbox := b.inbox[a := []]) else b
  }

  // ---------------------------------------------------------------- placement

  /** A letter repeated for every time an agent is named. */
  function Copies(mail: Letter, agents: seq<AgentId>, a: AgentId): seq<Letter> {
    if agents == [] then []
    else Copies(mail, agents[..|agents| - 1], a) + if agents[|agents| - 1] == a then [mail] else []
  }

  predicate Distinct(agents: seq<AgentId>) {
    forall i, j | 0 <= i < j < |agents| :: agents[i] != agents[j]
  }

  lemma {:induction false} CopiesOfDistinct(mail: Letter, agents: seq<AgentId>, a: AgentId)
    requires Distinct(agents)
    ensures Copies(mail, agents, a) == if a in agents then [mail] else []
  {
    if agents != [] {
      var front, last := agents[..|agents| - 1], agents[|agents| - 1];
      CopiesOfDistinct(mail, front, a);
      assert agents == front + [last];
      assert last !in front;
    }
  }

  lemma {:induction false} PutAllAt(inbox: Inboxes, mail: Letter, agents: seq<AgentId>, a: AgentId)
    ensures InboxOf(PutAll(inbox, mail, agents), a) == InboxOf(inbox, a) + Copies(mail, agents, a)
  {
    if agents != [] {
      PutAllAt(inbox, mail, agents[..|agents| - 1], a);
    }
  }

  lemma PutAllOnce(inbox: Inboxes, mail: Letter, agents: seq<AgentId>, a: AgentId)
    requires Distinct(agents)
    ensures InboxOf(PutAll(inbox, mail, agents), a) == InboxOf(inbox, a) + if a in agents then [mail] else []
  {
  }

  /** Delivering pending mail: every named inbox grows by all of it, no other inbox changes. */
  lemma {:induction false} DeliverAllAt(inbox: Inboxes, mails: seq<Letter>, agents: seq<AgentId>, a: AgentId)
    requires Distinct(agents)
    ensures InboxOf(DeliverAll(inbox, mails, agents), a)
         == InboxOf(inbox, a) + if a in agents then mails else []
  {
    if mails != [] {
      var front, last := mails[..|mails| - 1], mails[|mails| - 1];
      DeliverAllAt(inbox, front, agents, a);
      PutAllOnce(DeliverAll(inbox, front, agents), last, agents, a);
      assert InboxOf(inbox, a) + front + [last] == InboxOf(inbox, a) + mails;
    }
  }

  lemma {:induction false} DeliveryCount(mails: seq<Letter>, agents: seq<AgentId>)
    ensures |AllDeliveries(mails, agents)| == |mails| * |agents|
  {
    if mails != [] {
      var n := |mails| - 1;
      DeliveryCount(mails[..n], agents);
      assert (n + 1) * |agents| == n * |agents| + |agents|;
    }
  }

  lemma RowsStayApart(i: nat, j: nat, n: nat, width: nat)
    requires i < n && j < width
    ensures i * width + j < n * width
  {
    assert (i + 1) * width <= n * width;
  }

  /** The i-th letter's report for the j-th agent stands at place i * |agents| + j. */
  lemma {:induction false} DeliveryAt(mails: seq<Letter>, agents: seq<AgentId>, i: nat, j: nat)
    requires i < |mails| && j < |agents|
    ensures i * |agents| + j < |AllDeliveries(mails, agents)| == |mails| * |agents|
    ensures AllDeliveries(mails, agents)[i * |agents| + j] == Delivery(mails[i], agents[j])
  {
    var n := |mails| - 1;
    DeliveryCount(mails[..n], agents);
    DeliveryCount(mails, agents);
    RowsStayApart(i, j, |mails|, |agents|);
    if i < n {
      DeliveryAt(mails[..n], agents, i, j);
    }
  }

  /** Delivery reaches each distinct agent with all pending mail, newest first, whomever it names. */
  lemma DeliverPlaces(b: Box, agents: seq<AgentId>, a: AgentId)
    requires Distinct(agents)
    ensures InboxOf(Delivered(b, agents).inbox, a)
         == InboxOf(b.inbox, a) + if a in agents then Reverse(b.pending) else []
    ensures |AllDeliveries(Reverse(b.pending), agents)| == |b.pending| * |agents|
  {
    DeliverAllAt(b.inbox, Reverse(b.pending), agents, a);
    DeliveryCount(Reverse(b.pending), agents);
  }

  lemma DispatchPlaces(b: Box, mail: Letter, a: AgentId)
    ensures InboxOf(Dispatch(b, mail).inbox, a) == InboxOf(b.inbox, a) + DirectTo([mail], a)
    ensures Dispatch(b, mail).outgoing == b.outgoing
  {
  }

  lemma {:induction false} DispatchAllPlaces(b: Box, mails: seq<Letter>, a: AgentId)
    ensures var c := DispatchAll(b, mails);
            && InboxOf(c.inbox, a) == InboxOf(b.inbox, a) + DirectTo(mails, a)
            && c.pending == b.pending + Addressed(mails, false)
            && c.history == b.history + Addressed(mails, true)
            && c.outgoing == b.outgoing
  {
    if mails != [] {
      var front, last := mails[..|mails| - 1], mails[|mails| - 1];
      DispatchAllPlaces(b, front, a);
      DispatchPlaces(DispatchAll(b, front), last, a);
      assert DirectTo(mails, a) == DirectTo(front, a) + DirectTo([last], a);
    }
  }

  /**
   Processing the outgoing queue: each inbox grows by the mail addressed to it, in sending
   order; the rest goes to the pending list, in sending order; the history takes the former.
   */
  lemma ProcessPlaces(b: Box, a: AgentId)
    ensures var c := Processed(b);
            && InboxOf(c.inbox, a) == InboxOf(b.inbox, a) + DirectTo(b.outgoing, a)
            && c.pending == b.pending + Addressed(b.outgoing, false)
            && c.history == b.history + Addressed(b.outgoing, true)
            && c.outgoing == []
  {
    DispatchAllPlaces(b.(outgoing := []), b.outgoing, a);
  }

  // ---------------------------------------------------------------- unread accounting

  /** Unread letters of all inboxes together. */
  ghost function Total(inbox: Inboxes): nat
    decreases |inbox|
  {
    if inbox == map[] then 0
    else
      var a :| a in inbox;
      Unread(inbox[a]) + Total(inbox - {a})
  }

  /** The sum does not depend on the order of the inboxes. */
  lemma {:induction false} TotalWithout(inbox: Inboxes, a: AgentId)
    requires a in inbox
    ensures Total(inbox) == Unread(inbox[a]) + Total(inbox - {a})
    decreases |inbox|
  {
    var b :| b in inbox && Total(inbox) == Unread(inbox[b]) + Total(inbox - {b});
    if b != a {
      TotalWithout(inbox - {b}, a);
      TotalWithout(inbox - {a}, b);
      assert inbox - {b} - {a} == inbox - {a} - {b};
    }
  }

  /** Replacing one inbox moves the total by the difference. */
  lemma TotalUpdate(inbox: Inboxes, a: AgentId, mails: seq<Letter>)
    ensures Total(inbox[a := mails]) == Total(inbox) - Unread(InboxOf(inbox, a)) + Unread(mails)
  {
    TotalWithout(inbox[a := mails], a);
    assert inbox[a := mails] - {a} == inbox - {a};
    if a in inbox {
      TotalWithout(inbox, a);
    } else {
      assert inbox - {a} == inbox;
    }
  }

  lemma {:induction false} UnreadAppend(x: seq<Letter>, y: seq<Letter>)
    ensures Unread(x + y) == Unread(x) + Unread(y)
  {
    if y == [] {
      assert x + y == x;
    } else {
      assert (x + y)[..|x + y| - 1] == x + y[..|y| - 1];
      UnreadAppend(x, y[..|y| - 1]);
    }
  }

  lemma {:induction false} UnreadUpdate(mails: seq<Letter>, i: nat, mail: Letter)
    requires i < |mails|
    ensures Unread(mails[i := mail])
         == Unread(mails) - Unread([mails[i]]) + Unread([mail])
  {
    var n := |mails| - 1;
    assert [mail][..0] == [mails[i]][..0] == [];
    if i < n {
      assert mails[i := mail][..n] == mails[..n][i := mail];
      UnreadUpdate(mails[..n], i, mail);
    } else {
      assert mails[i := mail][..n] == mails[..n];
    }
  }

  lemma {:induction false} StampedUnread(mails: seq<Letter>, now: string)
    ensures Unread(Stamped(mails, now)) == 0
  {
    if mails != [] {
      StampedUnread(mails[..|mails| - 1], now);
      assert Stamped(mails, now)[..|mails| - 1] == Stamped(mails[..|mails| - 1], now);
    }
  }

  /** Marking all of one inbox read lowers the total by its unread count and keeps its letters. */
  lemma MarkAllReadAccounts(b: Box, a: AgentId, now: string)
    ensures Total(MarkedAllRead(b, a, now).inbox) == Total(b.inbox) - Unread(InboxOf(b.inbox, a))
    ensures |InboxOf(MarkedAllRead(b, a, now).inbox, a)| == |InboxOf(b.inbox, a)|
    ensures forall c: AgentId | c != a ::
      InboxOf(MarkedAllRead(b, a, now).inbox, c) == InboxOf(b.inbox, c)
  {
    if a in b.inbox {
      TotalUpdate(b.inbox, a, Stamped(b.inbox[a], now));
      StampedUnread(b.inbox[a], now);
    }
  }

  /** The condition under which marking one letter read makes a difference. */
  predicate FirstIsUnread(b: Box, a: AgentId, id: MailId) {
    var i := FirstWith(InboxOf(b.inbox, a), id);
    i.Some? && InboxOf(b.inbox, a)[i.value].readAt.None?
  }

  /** Marking a letter read lowers the total by one exactly when the first one with its id was unread. */
  lemma MarkReadAccounts(b: Box, a: AgentId, id: MailId, now: string)
    ensures Total(MarkedRead(b, a, id, now).inbox)
         == Total(b.inbox) - if FirstIsUnread(b, a, id) then 1 else 0
  {
    var mails := InboxOf(b.inbox, a);
    var i := FirstWith(mails, id);
    if a in b.inbox {
      TotalUpdate(b.inbox, a, MarkOne(mails, id, now));
      if i.Some? {
        UnreadUpdate(mails, i.value, mails[i.value].(readAt := Some(now)));
        assert [mails[i.value]][..0] == [] == [mails[i.value].(readAt := Some(now))][..0];
      }
    }
  }

  lemma ClearAccounts(b: Box, a: AgentId)
    ensures Total(Cleared(b, a).inbox) == Total(b.inbox) - Unread(InboxOf(b.inbox, a))
  {
    if a in b.inbox {
      TotalUpdate(b.inbox, a, []);
    }
  }

  lemma PutAccounts(inbox: Inboxes, a: AgentId, mail: Letter)
    ensures Total(Put(inbox, a, mail)) == Total(inbox) + Unread([mail])
  {
    TotalUpdate(inbox, a, InboxOf(inbox, a) + [mail]);
    UnreadAppend(InboxOf(inbox, a), [mail]);
  }

  /** Processing raises the total by the unread mail that is addressed to an agent. */
  lemma {:induction false} DispatchAllAccounts(b: Box, mails: seq<Letter>)
    ensures Total(DispatchAll(b, mails).inbox) == Total(b.inbox) + Unread(Addressed(mails, true))
  {
    if mails != [] {
      var front, last := mails[..|mails| - 1], mails[|mails| - 1];
      DispatchAllAccounts(b, front);
      if last.to.Direct? {
        PutAccounts(DispatchAll(b, front).inbox, last.to.agent, last);
        UnreadAppend(Addressed(front, true), [last]);
      }
    }
  }

  lemma OneMore(x: nat, n: nat)
    ensures x * (n + 1) == x * n + x
  {
  }

  lemma {:induction false} PutAllAccounts(inbox: Inboxes, mail: Letter, agents: seq<AgentId>)
    ensures Total(PutAll(inbox, mail, agents)) == Total(inbox) + Unread([mail]) * |agents|
  {
    if agents != [] {
      var n := |agents| - 1;
      PutAllAccounts(inbox, mail, agents[..n]);
      PutAccounts(PutAll(inbox, mail, agents[..n]), agents[n], mail);
      OneMore(Unread([mail]), n);
    }
  }

  /** Delivering raises it by every unread pending letter, once for each name in the list. */
  lemma {:induction false} DeliverAllAccounts(inbox: Inboxes, mails: seq<Letter>, agents: seq<AgentId>)
    ensures Total(DeliverAll(inbox, mails, agents)) == Total(inbox) + Unread(mails) * |agents|
  {
    if mails != [] {
      var front, last := mails[..|mails| - 1], mails[|mails| - 1];
      DeliverAllAccounts(inbox, front, agents);
      PutAllAccounts(DeliverAll(inbox, front, agents), last, agents);
      assert mails == front + [last];
      UnreadAppend(front, [last]);
      assert (Unread(front) + Unread([last])) * |agents|
          == Unread(front) * |agents| + Unread([last]) * |agents|;
    }
  }

  // ---------------------------------------------------------------- letters sharing an id

  /** An inbox after marking letters read by a list of ids. */
  function MarkMany(mails: seq<Letter>, ids: seq<MailId>, now: string): seq<Letter> {
    if ids == [] then mails else MarkOne(MarkMany(mails, ids[..|ids| - 1], now), ids[|ids| - 1], now)
  }

  /** A letter behind another one with its id. */
  predicate Shadowed(mails: seq<Letter>, j: nat)
    requires j < |mails|
  {
    exists i :: 0 <= i < j && mails[i].id == mails[j].id
  }

  lemma {:induction false} MarkManyKeeps(mails: seq<Letter>, ids: seq<MailId>, now: string)
    ensures |MarkMany(mails, ids, now)| == |mails|
    ensures forall j | 0 <= j < |mails| :: MarkMany(mails, ids, now)[j].id == mails[j].id
    ensures forall j | 0 <= j < |mails| && Shadowed(mails, j) :: MarkMany(mails, ids, now)[j] == mails[j]
  {
    if ids != [] {
      MarkManyKeeps(mails, ids[..|ids| - 1], now);
    }
  }

  /**
   Ids are clock readings, so two letters may share one. An unread letter can be marked read
   by ids if and only if no letter before it shares its id.
   */
  lemma ReadableUnlessShadowed(mails: seq<Letter>, j: nat, now: string)
    requires j < |mails| && mails[j].readAt.None?
    ensures !Shadowed(mails, j) <==>
      exists ids :: |MarkMany(mails, ids, now)| == |mails| && MarkMany(mails, ids, now)[j].readAt.Some?
  {
    if Shadowed(mails, j) {
      forall ids
        ensures !(|MarkMany(mails, ids, now)| == |mails| && MarkMany(mails, ids, now)[j].readAt.Some?)
      {
        MarkManyKeeps(mails, ids, now);
      }
    } else {
      var ids := [mails[j].id];
      MarkManyKeeps(mails, ids, now);
      assert ids[..0] == [];
      assert FirstWith(mails, mails[j].id) == Some(j);
      assert MarkMany(mails, ids, now) == MarkOne(MarkMany(mails, [], now), mails[j].id, now);
      assert MarkMany(mails, ids, now)[j].readAt.Some?;
    }
  }

  // ---------------------------------------------------------------- conservation

  datatype Step =
    | SendMail(mail: Letter)
    | SendChat(chat: Letter)
    | ProcessPending
    | Deliver(agents: seq<AgentId>)
    | DeliverBroadcast(mail: Letter, agents: seq<AgentId>)
    | RestorePending(mails: seq<Letter>)
    | MarkRead(agent: AgentId, id: MailId, now: string)
    | MarkAllRead(agent: AgentId, now: string)
    | ClearInbox(agent: AgentId)

  function Act(b: Box, step: Step): Box {
    match step
    case SendMail(mail) => b.(outgoing := b.outgoing + [mail])
    case SendChat(chat) => Dispatch(b, chat)
    case ProcessPending => Processed(b)
    case Deliver(agents) => Delivered(b, agents)
    case DeliverBroadcast(mail, agents) =>
      b.(inbox := PutAll(b.inbox, mail, agents), history := b.history + [mail])
    case RestorePending(mails) => b.(pending := b.pending + mails)
    case MarkRead(a, id, now) => MarkedRead(b, a, id, now)
    case MarkAllRead(a, now) => MarkedAllRead(b, a, now)
    case ClearInbox(a) => Cleared(b, a)
  }

  /** The mail a step brings in. */
  function Brought(step: Step): seq<Letter> {
    match step
    case SendMail(mail) => [mail]
    case SendChat(chat) => [chat]
    case DeliverBroadcast(mail, _) => [mail]
    case RestorePending(mails) => mails
    case ProcessPending => []
    case Deliver(_) => []
    case MarkRead(_, _, _) => []
    case MarkAllRead(_, _) => []
    case ClearInbox(_) => []
  }

  function Run(steps: seq<Step>): Box {
    if steps == [] then EMPTY else Act(Run(steps[..|steps| - 1]), steps[|steps| - 1])
  }

  function Introduced(steps: seq<Step>): seq<Letter> {
    if steps == [] then [] else Introduced(steps[..|steps| - 1]) + Brought(steps[|steps| - 1])
  }

  function Held(b: Box): multiset<Letter> {
    multiset(b.outgoing) + multiset(b.pending) + multiset(b.history)
  }

  lemma {:induction false} AddressedKeepsAll(mails: seq<Letter>)
    ensures multiset(Addressed(mails, true)) + multiset(Addressed(mails, false)) == multiset(mails)
  {
    if mails != [] {
      assert mails == mails[..|mails| - 1] + [mails[|mails| - 1]];
      AddressedKeepsAll(mails[..|mails| - 1]);
    }
  }

  lemma {:induction false} ReverseKeepsAll(mails: seq<Letter>)
    ensures multiset(Reverse(mails)) == multiset(mails)
  {
    if mails != [] {
      assert mails == mails[..|mails| - 1] + [mails[|mails| - 1]];
      ReverseKeepsAll(mails[..|mails| - 1]);
    }
  }

  lemma ProcessConserves(b: Box)
    ensures Held(Processed(b)) == Held(b)
  {
    ProcessPlaces(b, "");
    AddressedKeepsAll(b.outgoing);
    var direct, rest := Addressed(b.outgoing, true), Addressed(b.outgoing, false);
    assert Held(Processed(b)) == multiset(b.pending + rest) + multiset(b.history + direct);
  }

  lemma OneLetterConserves(b: Box, step: Step)
    requires step.SendMail? || step.SendChat? || step.DeliverBroadcast?
    ensures Held(Act(b, step)) == Held(b) + multiset(Brought(step))
  {
    var mail := Brought(step)[0];
    assert multiset(b.outgoing + [mail]) == multiset(b.outgoing) + multiset([mail]);
    assert multiset(b.pending + [mail]) == multiset(b.pending) + multiset([mail]);
    assert multiset(b.history + [mail]) == multiset(b.history) + multiset([mail]);
  }

  lemma StepConserves(b: Box, step: Step)
    ensures Held(Act(b, step)) == Held(b) + multiset(Brought(step))
  {
    if step.ProcessPending? {
      ProcessConserves(b);
    } else if step.Deliver? {
      ReverseKeepsAll(b.pending);
      assert Act(b, step) == Delivered(b, step.agents);
    } else if step.RestorePending? {
      assert multiset(b.pending + step.mails) == multiset(b.pending) + multiset(step.mails);
    } else if step.SendMail? || step.SendChat? || step.DeliverBroadcast? {
      OneLetterConserves(b, step);
    } else {
      assert Held(Act(b, step)) == Held(b);
    }
  }

  /** Over every run, each letter brought in is in exactly one of the three lists, once. */
  lemma {:induction false} MailConserved(steps: seq<Step>)
    ensures Held(Run(steps)) == multiset(Introduced(steps))
  {
    if steps != [] {
      MailConserved(steps[..|steps| - 1]);
      StepConserves(Run(steps[..|steps| - 1]), steps[|steps| - 1]);
    }
  }
}
