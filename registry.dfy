/** The broadcaster's state and the effect of one event on it, as values.
    The registry is the set of entered users; every user owns one mailbox
    (its outbound channel), kept here in a map from user ID to mailbox.
    Go panics (a send on a closed channel, closing a closed channel) are
    modelled as faults. */
module Registry {

  type UserId = int

  /** A user's outbound channel: the lines sent into it, in FIFO order, and
      whether it has been closed. */
  datatype Mailbox = Mailbox(lines: seq<string>, closed: bool)

  /** A freshly made channel: empty and open. */
  const Fresh := Mailbox([], false)

  /** What the broadcaster consumes from its three channels. */
  datatype Event = Enter(user: UserId) | Leave(user: UserId) | Broadcast(msg: string)

  /** The registered users and every mailbox made so far. */
  datatype World = World(members: set<UserId>, boxes: map<UserId, Mailbox>)

  /** A Go run-time panic, or a user without a channel (which the Go program
      cannot produce, since every User is built together with its channel). */
  datatype Fault = SendOnClosed | CloseOfClosed | NoChannel

  datatype Result<T> = Ok(value: T) | Err(fault: Fault)

  /** A send to `u`'s mailbox would not panic. */
  predicate CanReceive(w: World, u: UserId) {
    u in w.boxes && !w.boxes[u].closed
  }

  /** The broadcaster's invariant: every registered user has an open mailbox. */
  predicate Valid(w: World) {
    forall u :: u in w.members ==> CanReceive(w, u)
  }

  function Append(b: Mailbox, msg: string): Mailbox {
    b.(lines := b.lines + [msg])
  }

  /** Every mailbox of a user in `targets` gets `msg` at its end; all others
      stay as they are. */
  function Fanout(boxes: map<UserId, Mailbox>, targets: set<UserId>, msg: string): map<UserId, Mailbox> {
    map u | u in boxes :: if u in targets then Append(boxes[u], msg) else boxes[u]
  }

  /** One turn of the broadcaster's select loop. No event makes or drops a
      channel, and a closed channel is never written or closed again
      without a fault. */
  function Apply(w: World, e: Event): (r: Result<World>)
    ensures e.Enter? ==> r.Ok?
    ensures r.Ok? ==> r.value.boxes.Keys == w.boxes.Keys
    ensures r.Ok? ==> forall v :: v in w.boxes && w.boxes[v].closed ==> r.value.boxes[v] == w.boxes[v]
  {
    match e
    case Enter(u) => Ok(w.(members := w.members + {u}))
    case Leave(u) =>
      if u !in w.boxes then Err(NoChannel)
      else if w.boxes[u].closed then Err(CloseOfClosed)
      else Ok(World(w.members - {u}, w.boxes[u := w.boxes[u].(closed := true)]))
    case Broadcast(msg) =>
      if !(w.members <= w.boxes.Keys) then Err(NoChannel)
      else if exists u :: u in w.members && w.boxes[u].closed then Err(SendOnClosed)
      else Ok(w.(boxes := Fanout(w.boxes, w.members, msg)))
  }

  /** The broadcaster consuming a totally ordered stream of events; the first
      fault ends the run. */
  function Replay(w: World, events: seq<Event>): (r: Result<World>)
    ensures r.Ok? ==> r.value.boxes.Keys == w.boxes.Keys
    ensures r.Ok? ==> forall v :: v in w.boxes && w.boxes[v].closed ==> r.value.boxes[v] == w.boxes[v]
    decreases |events|
  {
    if events == [] then Ok(w)
    else match Apply(w, events[0])
      case Err(f) => Err(f)
      case Ok(w') => Replay(w', events[1..])
  }

  /** What `handleConn` guarantees for each event it sends: a user enters with an open
      mailbox, and leaves at most once (its mailbox is still open). */
  predicate Admissible(w: World, e: Event) {
    match e
    case Enter(u) => CanReceive(w, u)
    case Leave(u) => CanReceive(w, u)
    case Broadcast(_) => true
  }

  /** Enter adds the user to the registry and touches no mailbox. */
  lemma EnterRegisters(w: World, u: UserId)
    ensures Apply(w, Enter(u)).Ok?
    ensures Apply(w, Enter(u)).value.members == w.members + {u}
    ensures Apply(w, Enter(u)).value.boxes == w.boxes
  {
  }

  /** Leave removes the user and then closes its mailbox; nobody else's
      membership or mailbox changes, and the leaver's queued lines stay. It
      faults exactly when that mailbox is already closed (or missing). */
  lemma LeaveDeregisters(w: World, u: UserId)
    ensures Apply(w, Leave(u)).Ok? <==> CanReceive(w, u)
    ensures Apply(w, Leave(u)).Ok? ==>
      var w' := Apply(w, Leave(u)).value;
      && w'.members == w.members - {u}
      && w'.boxes.Keys == w.boxes.Keys
      && w'.boxes[u] == Mailbox(w.boxes[u].lines, true)
      && forall v :: v in w.boxes && v != u ==> w'.boxes[v] == w.boxes[v]
  {
  }

  /** A broadcast succeeds exactly when every registered user has an open
      mailbox, and then appends the message to the mailbox of exactly the
      registered users; membership and all other mailboxes are unchanged. */
  lemma BroadcastDelivers(w: World, msg: string)
    ensures Apply(w, Broadcast(msg)).Ok? <==> Valid(w)
    ensures Valid(w) ==>
      var w' := Apply(w, Broadcast(msg)).value;
      && w'.members == w.members
      && w'.boxes.Keys == w.boxes.Keys
      && forall v :: v in w.boxes ==>
           w'.boxes[v].closed == w.boxes[v].closed &&
           w'.boxes[v].lines == if v in w.members then w.boxes[v].lines + [msg] else w.boxes[v].lines
  {
    if Valid(w) {
      forall u | u in w.members ensures u in w.boxes.Keys {
        assert CanReceive(w, u);
      }
    } else {
      var u :| u in w.members && !CanReceive(w, u);
    }
  }

  /** Every event the sessions can send keeps "every registered user has an
      open mailbox"; hence a broadcast never writes to a closed mailbox. */
  lemma ApplyPreservesValid(w: World, e: Event)
    requires Valid(w) && Admissible(w, e)
    ensures Apply(w, e).Ok? && Valid(Apply(w, e).value)
  {
    if e.Broadcast? {
      BroadcastDelivers(w, e.msg);
    }
  }

  /** Every event of the stream is admissible in the state the broadcaster
      has reached when it takes that event. */
  predicate AllAdmissible(w: World, events: seq<Event>)
    decreases |events|
  {
    events == [] ||
    (Admissible(w, events[0]) &&
     (Apply(w, events[0]).Ok? ==> AllAdmissible(Apply(w, events[0]).value, events[1..])))
  }

  /** The select loop, from a state where every registered user has an open
      mailbox, consumes a stream of admissible events without a panic and
      keeps that invariant to its end. */
  lemma {:induction false} ReplayStaysValid(w: World, events: seq<Event>)
    requires Valid(w) && AllAdmissible(w, events)
    ensures Replay(w, events).Ok? && Valid(Replay(w, events).value)
    decreases |events|
  {
    if events != [] {
      ApplyPreservesValid(w, events[0]);
      ReplayStaysValid(Apply(w, events[0]).value, events[1..]);
    }
  }
}
