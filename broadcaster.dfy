/** The broadcaster goroutine: it owns the set of online users and, one event
    at a time, registers a user, deregisters and closes a user's channel, or
    sends a message into the channel of every online user. */
module Broadcasting {
  import opened Registry

  /** A set with no elements is the empty set; used to pick some user from
      a non-empty set (Go's map iteration order is unspecified). */
  lemma NoElementsMeansEmpty(s: set<UserId>)
    ensures (forall u :: u !in s) ==> s == {}
  {
    if forall u :: u !in s {
      assert s == {};
    }
  }

  class Broadcaster {
    /** The online users (the goroutine's local `users` map). */
    var users: set<UserId>
    /** Every user's channel, as the broadcaster sees it. */
    var mailboxes: map<UserId, Mailbox>

    function State(): World
      reads this
    {
      World(users, mailboxes)
    }

    /** Every online user has an open channel. */
    ghost predicate Valid()
      reads this
    {
      Registry.Valid(State())
    }

    /** The goroutine starts with nobody online, over the channels made so far. */
    constructor (boxes: map<UserId, Mailbox>)
      ensures users == {} && mailboxes == boxes
      ensures Valid()
    {
      users := {};
      mailboxes := boxes;
    }

    /** Registers the user; no channel is touched. */
    method Enter(u: UserId)
      modifies this
      ensures users == old(users) + {u} && mailboxes == old(mailboxes)
      ensures Apply(old(State()), Event.Enter(u)) == Ok(State())
      ensures old(Valid()) && CanReceive(old(State()), u) ==> Valid()
    {
      users := users + {u};
    }

    /** Deregisters the user, then closes its channel; closing a
        closed channel panics, so the channel must still be open. */
    method Leave(u: UserId)
      requires CanReceive(State(), u)
      modifies this
      ensures users == old(users) - {u}
      ensures mailboxes == old(mailboxes)[u := Mailbox(old(mailboxes)[u].lines, true)]
      ensures Apply(old(State()), Event.Leave(u)) == Ok(State())
      ensures old(Valid()) ==> Valid()
    {
      users := users - {u};
      mailboxes := mailboxes[u := mailboxes[u].(closed := true)];
    }

    /** Sends the message into the channel of each online user, in map
        order; a send on a
        closed channel panics, so every online user's channel must be open. */
    method Broadcast(msg: string)
      requires Valid()
      modifies this
      ensures users == old(users)
      ensures mailboxes == Fanout(old(mailboxes), users, msg)
      ensures Apply(old(State()), Event.Broadcast(msg)) == Ok(State())
      ensures Valid()
    {
      var todo := users;
      while todo != {}
        invariant users == old(users) && todo <= users
        invariant mailboxes == Fanout(old(mailboxes), users - todo, msg)
        decreases todo
      {
        NoElementsMeansEmpty(todo);
        var u :| u in todo;
        assert CanReceive(State(), u);
        mailboxes := mailboxes[u := Append(mailboxes[u], msg)];
        todo := todo - {u};
      }
      BroadcastDelivers(old(State()), msg);
    }

    /** The select loop over a totally ordered stream of events, for as long
        as it runs without a panic. */
    method Serve(events: seq<Event>)
      requires Replay(State(), events).Ok?
      modifies this
      ensures Replay(old(State()), events) == Ok(State())
      ensures old(Valid()) && AllAdmissible(old(State()), events) ==> Valid()
    {
      if Valid() && AllAdmissible(State(), events) {
        ReplayStaysValid(State(), events);
      }
      var i := 0;
      while i < |events|
        invariant 0 <= i <= |events|
        invariant Replay(State(), events[i..]) == Replay(old(State()), events)
        decreases |events| - i
      {
        assert events[i..][1..] == events[i + 1..];
        match events[i] {
          case Enter(u) =>
            Enter(u);
          case Leave(u) =>
            Leave(u);
          case Broadcast(msg) =>
            BroadcastDelivers(State(), msg);
            Broadcast(msg);
        }
        i := i + 1;
      }
    }
  }
}
