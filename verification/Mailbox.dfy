/**
 The mailbox as the program runs it: queues, a map of inboxes and the loops that move and mark
 letters in place. Source: core/src/agent_mail.rs.
 */
module Mailbox {
  import opened Wrappers
  import opened Mail

  /** One more letter delivered. */
  lemma DeliverNext(inbox: Inboxes, mails: seq<Letter>, k: nat, agents: seq<AgentId>)
    requires k < |mails|
    ensures DeliverAll(inbox, mails[..k + 1], agents) == PutAll(DeliverAll(inbox, mails[..k], agents), mails[k], agents)
    ensures AllDeliveries(mails[..k + 1], agents) == AllDeliveries(mails[..k], agents) + Deliveries(mails[k], agents)
    ensures mails[..k + 1] == mails[..k] + [mails[k]]
  {
    assert mails[..k + 1][..k] == mails[..k];
  }

  /** The first letter with an id, found by looking from the front. */
  lemma FirstWithIs(mails: seq<Letter>, id: MailId, i: nat)
    requires i < |mails| && mails[i].id == id && forall j | 0 <= j < i :: mails[j].id != id
    ensures FirstWith(mails, id) == Some(i)
  {
  }

  class AgentMailbox {
    var inbox: Inboxes
    var outgoing: seq<Letter>
    var pending: seq<Letter>
    var history: seq<Letter>

    function State(): Box
      reads this
    {
      Box(inbox, outgoing, pending, history)
    }

    constructor ()
      ensures State() == EMPTY
    {
      inbox, outgoing, pending, history := map[], [], [], [];
    }

    method SendMail(mail: Letter)
      modifies this`outgoing
      ensures State() == Act(old(State()), Step.SendMail(mail))
    {
      outgoing := outgoing + [mail];
    }

    /** A chat skips the outgoing queue; the caller gets the letter it became. */
    method SendChat(id: MailId, from: AgentId, to: AgentId, message: string) returns (r: Option<Letter>)
      modifies this
      ensures State() == Act(old(State()), Step.SendChat(Chat(id, from, to, message)))
      ensures r == Some(Chat(id, from, to, message))
    {
      var mail := Letter(id, from, Direct(to), "Chat", message, None, false);
      var _ := DeliverToInbox(mail);
      r := if history == [] then None else Some(history[|history| - 1]);
    }

    method Push(a: AgentId, mail: Letter)
      modifies this`inbox
      ensures inbox == Put(old(inbox), a, mail)
    {
      if a !in inbox {
        inbox := inbox[a := []];
      }
      inbox := inbox[a := inbox[a] + [mail]];
    }

    method DeliverToInbox(mail: Letter) returns (r: Option<AgentId>)
      modifies this
      ensures State() == Dispatch(old(State()), mail)
      ensures r == if mail.to.Direct? then Some(mail.to.agent) else None
    {
      if !mail.to.Direct? {
        pending := pending + [mail];
        return None;
      }
      Push(mail.to.agent, mail);
      history := history + [mail];
      return Some(mail.to.agent);
    }

    /** Move the outgoing queue into the inboxes; the recipients come back in sending order. */
    method ProcessPending() returns (recipients: seq<AgentId>)
      modifies this
      ensures State() == Processed(old(State()))
      ensures recipients == Recipients(old(outgoing))
    {
      ghost var mails, i: nat := outgoing, 0;
      ghost var start := State().(outgoing := []);
      recipients := [];
      while outgoing != []
        invariant i <= |mails| && outgoing == mails[i..]
        invariant State().(outgoing := []) == DispatchAll(start, mails[..i]).(outgoing := [])
        invariant recipients == Recipients(mails[..i])
        decreases |outgoing|
      {
        var mail := outgoing[0];
        outgoing := outgoing[1..];
        assert mail == mails[i] && mails[..i + 1][..i] == mails[..i];
        var recipient := DeliverToInbox(mail);
        if recipient.Some? {
          recipients := recipients + [recipient.value];
        }
        i := i + 1;
      }
      assert mails[..i] == mails;
      DispatchAllPlaces(start, mails, "");
    }

    method PushAll(mail: Letter, agents: seq<AgentId>)
      modifies this`inbox
      ensures inbox == PutAll(old(inbox), mail, agents)
    {
      for j := 0 to |agents|
        invariant inbox == PutAll(old(inbox), mail, agents[..j])
      {
        assert agents[..j + 1][..j] == agents[..j];
        Push(agents[j], mail);
      }
      assert agents[..|agents|] == agents;
    }

    method PushAndReport(mail: Letter, agents: seq<AgentId>) returns (events: seq<Delivery>)
      modifies this`inbox
      ensures inbox == PutAll(old(inbox), mail, agents)
      ensures events == Deliveries(mail, agents)
    {
      events := [];
      for j := 0 to |agents|
        invariant inbox == PutAll(old(inbox), mail, agents[..j])
        invariant events == Deliveries(mail, agents[..j])
      {
        assert agents[..j + 1][..j] == agents[..j];
        Push(agents[j], mail);
        events := events + [Delivery(mail, agents[j])];
      }
      assert agents[..|agents|] == agents;
    }

    /** Deliver all pending mail, newest first, to every agent listed. */
    method Deliver(agents: seq<AgentId>) returns (events: seq<Delivery>)
      modifies this
      ensures State() == Delivered(old(State()), agents)
      ensures events == AllDeliveries(Reverse(old(pending)), agents)
    {
      ghost var mails, all, k: nat := pending, Reverse(pending), 0;
      events := [];
      while pending != []
        invariant k <= |mails| && pending == mails[..|mails| - k]
        invariant inbox == DeliverAll(old(inbox), all[..k], agents)
        invariant events == AllDeliveries(all[..k], agents)
        invariant history == old(history) + all[..k] && outgoing == old(outgoing)
        decreases |pending|
      {
        var mail := pending[|pending| - 1];
        pending := pending[..|pending| - 1];
        assert mail == all[k];
        DeliverNext(old(inbox), all, k, agents);
        var reported := PushAndReport(mail, agents);
        events := events + reported;
        history := history + [mail];
        k := k + 1;
      }
      assert all[..k] == all;
    }

    method DeliverBroadcast(mail: Letter, agents: seq<AgentId>)
      modifies this
      ensures State() == Act(old(State()), Step.DeliverBroadcast(mail, agents))
    {
      PushAll(mail, agents);
      history := history + [mail];
    }

    method RestorePending(mails: seq<Letter>)
      modifies this`pending
      ensures State() == Act(old(State()), Step.RestorePending(mails))
    {
      for i := 0 to |mails|
        invariant pending == old(pending) + mails[..i]
      {
        pending := pending + [mails[i]];
      }
      assert mails[..|mails|] == mails;
    }

    /** Mark the first letter with this id; the answer says whether there is one. */
    method MarkRead(a: AgentId, id: MailId, now: string) returns (found: bool)
      modifies this`inbox
      ensures State() == MarkedRead(old(State()), a, id, now)
      ensures found == FirstWith(InboxOf(old(inbox), a), id).Some?
    {
      if a in inbox {
        var mails := inbox[a];
        for i := 0 to |mails|
          invariant forall j | 0 <= j < i :: mails[j].id != id
          invariant inbox == old(inbox)
        {
          if mails[i].id == id {
            FirstWithIs(mails, id, i);
            inbox := inbox[a := mails[i := mails[i].(readAt := Some(now))]];
            return true;
          }
        }
        assert inbox == inbox[a := mails];
      }
      return false;
    }

    method CountUnread(mails: seq<Letter>) returns (count: nat)
      ensures count == Unread(mails)
    {
      count := 0;
      for i := 0 to |mails|
        invariant count == Unread(mails[..i])
      {
        assert mails[..i + 1][..i] == mails[..i];
        if mails[i].readAt.None? {
          count := count + 1;
        }
      }
      assert mails[..|mails|] == mails;
    }

    method UnreadCount(a: AgentId) returns (count: nat)
      ensures count == Unread(InboxOf(inbox, a))
    {
      if a in inbox {
        count := CountUnread(inbox[a]);
      } else {
        count := 0;
      }
    }

    method MarkAllRead(a: AgentId, now: string) returns (count: nat)
      modifies this`inbox
      ensures State() == MarkedAllRead(old(State()), a, now)
      ensures count == Unread(InboxOf(old(inbox), a))
    {
      if a in inbox {
        var mails := inbox[a];
        count := CountUnread(mails);
        var marked := mails;
        for i := 0 to |mails|
          invariant |marked| == |mails|
          invariant forall j | 0 <= j < |mails| ::
            marked[j] == if j < i then mails[j].(readAt := Some(now)) else mails[j]
        {
          marked := marked[i := marked[i].(readAt := Some(now))];
        }
        assert marked == Stamped(mails, now);
        inbox := inbox[a := marked];
        return count;
      }
      return 0;
    }

    method ClearInbox(a: AgentId)
      modifies this`inbox
      ensures State() == Cleared(old(State()), a)
    {
      if a in inbox {
        inbox := inbox[a := []];
      }
    }

    /** The sum over all inboxes, in whatever order the map yields them. */
    method TotalUnread() returns (total: nat)
      ensures total == Total(inbox)
    {
      total := 0;
      var rest := inbox;
      while rest != map[]
        invariant forall a | a in rest :: a in inbox && rest[a] == inbox[a]
        invariant total + Total(rest) == Total(inbox)
        decreases |rest|
      {
        var a :| a in rest;
        TotalWithout(rest, a);
        var count := CountUnread(rest[a]);
        total := total + count;
        rest := rest - {a};
      }
    }
  }
}
