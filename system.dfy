/** The whole server under one total order: the moves of all sessions
    (channel creation, private writes, events for the broadcaster) are
    interleaved into one sequence, and the broadcaster handles each event at
    its place in that sequence. */
module ChatSystem {
  import opened Registry
  import opened Session
  import opened Protocol

  /** One action of one session, at its place in the global order. */
  datatype Move = Move(actor: UserId, act: Action)

  /** Nobody online and no channel made yet. */
  const Init := World({}, map[])

  /** The effect of one move: a session making its channel, writing straight
      into it, or the broadcaster handling an event the session sent. */
  function Perform(w: World, mv: Move): (r: Result<World>)
    ensures mv.act.Open? ==> r.Ok? && mv.actor in r.value.boxes && r.value.boxes[mv.actor] == Fresh
    ensures r.Ok? ==> r.value.boxes.Keys == w.boxes.Keys + if mv.act.Open? then {mv.actor} else {}
  {
    var u := mv.actor;
    match mv.act
    case Open => Ok(w.(boxes := w.boxes[u := Fresh]))
    case Private(msg) =>
      if u !in w.boxes then Err(NoChannel)
      else if w.boxes[u].closed then Err(SendOnClosed)
      else Ok(w.(boxes := w.boxes[u := Append(w.boxes[u], msg)]))
    case Emit(e) => Apply(w, e)
  }

  /** A run of the server; the first fault (a panic) ends it. */
  function Run(w: World, t: seq<Move>): (r: Result<World>)
    ensures r.Ok? ==> w.boxes.Keys <= r.value.boxes.Keys
    decreases |t|
  {
    if t == [] then Ok(w)
    else match Perform(w, t[0])
      case Err(f) => Err(f)
      case Ok(w') => Run(w', t[1..])
  }

  /** The actions of user `u`'s session, in the order they occur in `t`. */
  function Project(t: seq<Move>, u: UserId): seq<Action>
    decreases |t|
  {
    if t == [] then []
    else if t[0].actor == u then [t[0].act] + Project(t[1..], u)
    else Project(t[1..], u)
  }

  /** `t` interleaves the sessions: the moves of each user are, in order, the
      beginning of that user's session on its input. Every user ID belongs to
      one session, as the ID generator guarantees. */
  ghost predicate Interleaves(t: seq<Move>, inputs: UserId -> seq<string>, gemini: string -> string) {
    forall u :: Project(t, u) <= Trace(u, inputs(u), gemini)
  }

  function PhaseOf(ph: map<UserId, Phase>, u: UserId): Phase {
    if u in ph then ph[u] else Unborn
  }

  /** What each phase means for the registry and the user's mailbox. */
  predicate Agrees(p: Phase, w: World, u: UserId) {
    match p
    case Unborn => u !in w.boxes && u !in w.members
    case Connected => CanReceive(w, u) && u !in w.members
    case Entered => CanReceive(w, u) && u in w.members
    case Departed => u in w.boxes && w.boxes[u].closed && u !in w.members
  }

  ghost predicate Consistent(ph: map<UserId, Phase>, w: World) {
    forall u :: Agrees(PhaseOf(ph, u), w, u)
  }

  /** Only entered users are registered, and they have open mailboxes. */
  lemma ConsistentIsValid(ph: map<UserId, Phase>, w: World)
    requires Consistent(ph, w)
    ensures Valid(w)
  {
    forall u | u in w.members
      ensures CanReceive(w, u)
    {
      assert Agrees(PhaseOf(ph, u), w, u);
    }
  }

  /** A move the machine allows never faults and keeps every user's phase in
      step with the registry and the mailboxes. */
  lemma PerformKeepsConsistent(ph: map<UserId, Phase>, w: World, mv: Move)
    requires Consistent(ph, w)
    requires Advance(PhaseOf(ph, mv.actor), mv.actor, mv.act).Some?
    ensures Perform(w, mv).Ok?
    ensures Consistent(ph[mv.actor := Advance(PhaseOf(ph, mv.actor), mv.actor, mv.act).value], Perform(w, mv).value)
  {
    var u := mv.actor;
    var p := PhaseOf(ph, u);
    var ph' := ph[u := Advance(p, u, mv.act).value];
    assert Agrees(p, w, u);
    if mv.act.Emit? && mv.act.event.Broadcast? {
      ConsistentIsValid(ph, w);
      BroadcastDelivers(w, mv.act.event.msg);
    } else if mv.act.Emit? && mv.act.event.Leave? {
      LeaveDeregisters(w, u);
    }
    var w' := Perform(w, mv).value;
    forall v
      ensures Agrees(PhaseOf(ph', v), w', v)
    {
      assert Agrees(PhaseOf(ph, v), w, v);
    }
  }

  /** The central safety theorem: when every user's moves follow the machine,
      the run never panics, and afterwards each user's standing in the
      registry and its mailbox are fixed by its own moves alone. */
  lemma {:induction false} RunSafe(ph: map<UserId, Phase>, w: World, t: seq<Move>)
    requires Consistent(ph, w)
    requires forall u :: Conforms(PhaseOf(ph, u), u, Project(t, u))
    ensures Run(w, t).Ok?
    ensures forall u :: Agrees(PhaseAfter(PhaseOf(ph, u), u, Project(t, u)), Run(w, t).value, u)
    decreases |t|
  {
    if t != [] {
      var mv := t[0];
      var v := mv.actor;
      var q := Advance(PhaseOf(ph, v), v, mv.act);
      assert Project(t, v) == [mv.act] + Project(t[1..], v);
      assert q.Some?;
      PerformKeepsConsistent(ph, w, mv);
      var ph' := ph[v := q.value];
      var w' := Perform(w, mv).value;
      forall u
        ensures Conforms(PhaseOf(ph', u), u, Project(t[1..], u))
        ensures PhaseAfter(PhaseOf(ph', u), u, Project(t[1..], u)) == PhaseAfter(PhaseOf(ph, u), u, Project(t, u))
      {
        if u != v {
          assert Project(t, u) == Project(t[1..], u);
        }
      }
      RunSafe(ph', w', t[1..]);
    }
  }

  /** Moves of one list followed by another project onto each user as the
      two projections, one after the other. */
  lemma {:induction false} ProjectAppend(a: seq<Move>, b: seq<Move>, u: UserId)
    ensures Project(a + b, u) == Project(a, u) + Project(b, u)
    decreases |a|
  {
    if a == [] {
      assert a + b == b;
    } else {
      assert (a + b)[0] == a[0] && (a + b)[1..] == a[1..] + b;
      ProjectAppend(a[1..], b, u);
    }
  }

  /** Running one list of moves and then another is running both. */
  lemma {:induction false} RunAppend(w: World, a: seq<Move>, b: seq<Move>)
    ensures Run(w, a + b) == match Run(w, a) case Err(f) => Err(f) case Ok(w') => Run(w', b)
    decreases |a|
  {
    if a == [] {
      assert a + b == b;
    } else {
      assert (a + b)[0] == a[0] && (a + b)[1..] == a[1..] + b;
      match Perform(w, a[0])
      case Err(_) =>
      case Ok(w1) => RunAppend(w1, a[1..], b);
    }
  }

  /** Every point of an interleaving of sessions is reached without a
      panic, with every user's phase in step with the registry. */
  lemma Reached(t: seq<Move>, inputs: UserId -> seq<string>, gemini: string -> string, i: nat)
    requires Interleaves(t, inputs, gemini) && i <= |t|
    ensures forall u :: Conforms(Unborn, u, Project(t[..i], u))
    ensures Run(Init, t[..i]).Ok?
    ensures forall u :: Agrees(PhaseAfter(Unborn, u, Project(t[..i], u)), Run(Init, t[..i]).value, u)
  {
    forall u
      ensures Conforms(Unborn, u, Project(t[..i], u))
    {
      assert t == t[..i] + t[i..];
      ProjectAppend(t[..i], t[i..], u);
      SessionConforms(u, inputs(u), gemini);
      ConformsPrefix(Unborn, u, Project(t[..i], u), Trace(u, inputs(u), gemini));
    }
    var empty: map<UserId, Phase> := map[];
    assert forall u :: PhaseOf(empty, u) == Unborn;
    RunSafe(empty, Init, t[..i]);
  }

  /** However the sessions interleave, the server never panics: no send on
      a closed channel and no second close. Every registered user has an
      open mailbox, and a mailbox is closed exactly when its user has sent
      its Leave. */
  lemma SessionsNeverPanic(t: seq<Move>, inputs: UserId -> seq<string>, gemini: string -> string)
    requires Interleaves(t, inputs, gemini)
    ensures Run(Init, t).Ok?
    ensures Valid(Run(Init, t).value)
    ensures forall u :: (u in Run(Init, t).value.boxes && Run(Init, t).value.boxes[u].closed) <==> Emit(Leave(u)) in Project(t, u)
    ensures forall u :: u in Run(Init, t).value.members <==> Emit(Enter(u)) in Project(t, u) && Emit(Leave(u)) !in Project(t, u)
  {
    Reached(t, inputs, gemini, |t|);
    assert t[..|t|] == t;
    var w := Run(Init, t).value;
    forall u | u in w.members
      ensures CanReceive(w, u)
    {
      assert Agrees(PhaseAfter(Unborn, u, Project(t, u)), w, u);
    }
    forall u
      ensures (u in w.boxes && w.boxes[u].closed) <==> Emit(Leave(u)) in Project(t, u)
    {
      assert Agrees(PhaseAfter(Unborn, u, Project(t, u)), w, u);
      DepartedAfterLeave(Unborn, u, Project(t, u));
    }
    forall u
      ensures u in w.members <==> Emit(Enter(u)) in Project(t, u) && Emit(Leave(u)) !in Project(t, u)
    {
      assert Agrees(PhaseAfter(Unborn, u, Project(t, u)), w, u);
      EnteredBetween(Unborn, u, Project(t, u));
    }
  }

  /** Delivery follows the global order: a broadcast at position `i` reaches
      user `u` exactly when `u`'s Enter comes before it and `u`'s Leave does
      not; nothing else in `u`'s mailbox changes. */
  lemma DeliveryFollowsOrder(t: seq<Move>, inputs: UserId -> seq<string>, gemini: string -> string, i: nat, u: UserId)
    requires Interleaves(t, inputs, gemini)
    requires i < |t| && t[i].act.Emit? && t[i].act.event.Broadcast?
    ensures Run(Init, t[..i]).Ok? && Run(Init, t[..i + 1]).Ok?
    ensures var before, after := Run(Init, t[..i]).value, Run(Init, t[..i + 1]).value;
      && (u in before.boxes <==> u in after.boxes)
      && (u in before.boxes ==>
            after.boxes[u].closed == before.boxes[u].closed &&
            after.boxes[u].lines == before.boxes[u].lines +
              if Emit(Enter(u)) in Project(t[..i], u) && Emit(Leave(u)) !in Project(t[..i], u)
              then [t[i].act.event.msg] else [])
  {
    Reached(t, inputs, gemini, i);
    var before := Run(Init, t[..i]).value;
    assert t[..i + 1] == t[..i] + [t[i]];
    RunAppend(Init, t[..i], [t[i]]);
    assert Run(before, [t[i]]) == Perform(before, t[i]);
    var acts := Project(t[..i], u);
    assert Agrees(PhaseAfter(Unborn, u, acts), before, u);
    EnteredBetween(Unborn, u, acts);
    forall v | v in before.members
      ensures CanReceive(before, v)
    {
      assert Agrees(PhaseAfter(Unborn, v, Project(t[..i], v)), before, v);
    }
    BroadcastDelivers(before, t[i].act.event.msg);
  }

  /** A user never receives its own entrance announcement: the fourth move
      of every session is that announcement, and when the broadcaster
      handles it the user is not yet registered. */
  lemma OwnEntranceNotDelivered(t: seq<Move>, inputs: UserId -> seq<string>, gemini: string -> string, i: nat)
    requires Interleaves(t, inputs, gemini)
    requires i < |t| && |Project(t[..i], t[i].actor)| == 3
    ensures inputs(t[i].actor) != []
    ensures t[i].act == Emit(Broadcast(EnterNotice(inputs(t[i].actor)[0])))
    ensures Run(Init, t[..i]).Ok? && Run(Init, t[..i + 1]).Ok?
    ensures var u, before, after := t[i].actor, Run(Init, t[..i]).value, Run(Init, t[..i + 1]).value;
      u in before.boxes && u in after.boxes && after.boxes[u] == before.boxes[u]
  {
    var u := t[i].actor;
    var tr := Trace(u, inputs(u), gemini);
    assert t[..i + 1] == t[..i] + [t[i]];
    ProjectAppend(t[..i], [t[i]], u);
    assert Project([t[i]], u) == [t[i].act];
    assert t == t[..i + 1] + t[i + 1..];
    ProjectAppend(t[..i + 1], t[i + 1..], u);
    assert Project(t[..i + 1], u) <= tr;
    assert inputs(u) != [];
    assert Project(t[..i], u) == tr[..3];
    assert t[i].act == tr[3];
    Reached(t, inputs, gemini, i);
    var acts, n := Project(t[..i], u), inputs(u)[0];
    assert acts == [Open] + [Private(NicknamePrompt), Private(Welcome(n))];
    ConformsCons(Connected, u, Private(Welcome(n)), []);
    ConformsCons(Connected, u, Private(NicknamePrompt), [Private(Welcome(n))]);
    ConformsCons(Unborn, u, Open, [Private(NicknamePrompt), Private(Welcome(n))]);
    assert Agrees(Connected, Run(Init, t[..i]).value, u);
    DeliveryFollowsOrder(t, inputs, gemini, i, u);
  }

  /** A closed mailbox is never written to again: any run that does not
      fault leaves it exactly as it was, unless its user remakes it (which
      a session never does). */
  lemma {:induction false} ClosedMailboxFrozen(w: World, t: seq<Move>, u: UserId)
    requires Run(w, t).Ok?
    requires u in w.boxes && w.boxes[u].closed
    requires Move(u, Open) !in t
    ensures u in Run(w, t).value.boxes && Run(w, t).value.boxes[u] == w.boxes[u]
    decreases |t|
  {
    if t != [] {
      var w' := Perform(w, t[0]).value;
      if t[0].act.Emit? && t[0].act.event.Broadcast? {
        BroadcastDelivers(w, t[0].act.event.msg);
      }
      assert u in w'.boxes && w'.boxes[u] == w.boxes[u];
      assert Move(u, Open) !in t[1..];
      ClosedMailboxFrozen(w', t[1..], u);
    }
  }

  /** An order in which the broadcaster can receive a handshake as the code
      is written: `messageChannel` is buffered, so the announcement can wait
      in its buffer while `select` takes the session's later, unbuffered
      Enter first. */
  function BufferedHandshake(u: UserId, nick: string): seq<Move> {
    [Move(u, Open), Move(u, Private(NicknamePrompt)), Move(u, Private(Welcome(nick))),
     Move(u, Emit(Enter(u))), Move(u, Emit(Broadcast(EnterNotice(nick))))]
  }

  /** In that order the user does receive its own entrance announcement. */
  lemma SelfAnnouncementWhenBuffered(u: UserId, nick: string)
    ensures Run(Init, BufferedHandshake(u, nick)).Ok?
    ensures u in Run(Init, BufferedHandshake(u, nick)).value.boxes
    ensures Run(Init, BufferedHandshake(u, nick)).value.boxes[u].lines ==
      [NicknamePrompt, Welcome(nick), EnterNotice(nick)]
  {
    var t := BufferedHandshake(u, nick);
    var w1 := World({}, map[u := Fresh]);
    var w2 := World({}, map[u := Append(Fresh, NicknamePrompt)]);
    var w3 := World({}, map[u := Append(Append(Fresh, NicknamePrompt), Welcome(nick))]);
    var w4 := World({u}, w3.boxes);
    var w5 := World({u}, map[u := Append(w3.boxes[u], EnterNotice(nick))]);
    assert Perform(Init, t[0]) == Ok(w1);
    assert Perform(w1, t[1]) == Ok(w2) by { assert w1.boxes[u := Append(w1.boxes[u], NicknamePrompt)] == w2.boxes; }
    assert Perform(w2, t[2]) == Ok(w3) by { assert w2.boxes[u := Append(w2.boxes[u], Welcome(nick))] == w3.boxes; }
    assert Perform(w3, t[3]) == Ok(w4) by { assert w3.members + {u} == {u}; }
    BroadcastDelivers(w4, EnterNotice(nick));
    assert Perform(w4, t[4]) == Ok(w5) by { assert Fanout(w4.boxes, w4.members, EnterNotice(nick)) == w5.boxes; }
    assert Run(w5, t[5..]) == Ok(w5);
    assert Run(w4, t[4..]) == Ok(w5) by { assert t[4..][1..] == t[5..]; }
    assert Run(w3, t[3..]) == Ok(w5) by { assert t[3..][1..] == t[4..]; }
    assert Run(w2, t[2..]) == Ok(w5) by { assert t[2..][1..] == t[3..]; }
    assert Run(w1, t[1..]) == Ok(w5) by { assert t[1..][1..] == t[2..]; }
    assert w5.boxes[u].lines == [] + [NicknamePrompt] + [Welcome(nick)] + [EnterNotice(nick)];
  }
}
