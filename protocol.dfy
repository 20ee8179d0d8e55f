/** The session's states, made explicit: a user is unborn until its channel
    is made, connected while it awaits or announces its nickname, entered
    while the broadcaster lists it, and departed once its Leave is sent. The
    machine says which actions each state allows; every session follows it. */
module Protocol {
  import opened Registry
  import opened Session

  datatype Phase = Unborn | Connected | Entered | Departed

  datatype Option<T> = None | Some(value: T)

  /** The state after user `u` takes action `a`, or None when the action is
      out of order. */
  function Advance(p: Phase, u: UserId, a: Action): Option<Phase> {
    match a
    case Open => if p == Unborn then Some(Connected) else None
    case Private(_) => if p == Connected || p == Entered then Some(p) else None
    case Emit(Broadcast(_)) => if p != Unborn then Some(p) else None
    case Emit(Enter(v)) => if v == u && p == Connected then Some(Entered) else None
    case Emit(Leave(v)) => if v == u && p == Entered then Some(Departed) else None
  }

  /** User `u`, starting in phase `p`, takes the actions `acts` in an order
      the machine allows. */
  predicate Conforms(p: Phase, u: UserId, acts: seq<Action>)
    decreases |acts|
  {
    acts == [] || (Advance(p, u, acts[0]).Some? && Conforms(Advance(p, u, acts[0]).value, u, acts[1..]))
  }

  function PhaseAfter(p: Phase, u: UserId, acts: seq<Action>): Phase
    requires Conforms(p, u, acts)
    decreases |acts|
  {
    if acts == [] then p else PhaseAfter(Advance(p, u, acts[0]).value, u, acts[1..])
  }

  /** Conformance splits at any point of the action list. */
  lemma {:induction false} ConformsAppend(p: Phase, u: UserId, a: seq<Action>, b: seq<Action>)
    ensures Conforms(p, u, a + b) <==> Conforms(p, u, a) && Conforms(PhaseAfter(p, u, a), u, b)
    ensures Conforms(p, u, a + b) ==> PhaseAfter(p, u, a + b) == PhaseAfter(PhaseAfter(p, u, a), u, b)
    decreases |a|
  {
    if a == [] {
      assert a + b == b;
    } else {
      assert (a + b)[0] == a[0] && (a + b)[1..] == a[1..] + b;
      if Advance(p, u, a[0]).Some? {
        ConformsAppend(Advance(p, u, a[0]).value, u, a[1..], b);
      }
    }
  }

  /** Whatever a session has done so far follows the machine. */
  lemma ConformsPrefix(p: Phase, u: UserId, a: seq<Action>, b: seq<Action>)
    requires Conforms(p, u, b) && a <= b
    ensures Conforms(p, u, a)
  {
    assert b == a + b[|a|..];
    ConformsAppend(p, u, a, b[|a|..]);
  }

  /** The chat loop keeps an entered user entered. */
  lemma {:induction false} ChatStaysEntered(u: UserId, nick: string, lines: seq<string>, gemini: string -> string)
    ensures Conforms(Entered, u, Chat(nick, lines, gemini))
    ensures PhaseAfter(Entered, u, Chat(nick, lines, gemini)) == Entered
    decreases |lines|
  {
    if lines != [] {
      ChatStaysEntered(u, nick, lines[1..], gemini);
    }
  }

  /** One allowed action followed by allowed actions is allowed. */
  lemma ConformsCons(p: Phase, u: UserId, a: Action, rest: seq<Action>)
    requires Advance(p, u, a).Some? && Conforms(Advance(p, u, a).value, u, rest)
    ensures Conforms(p, u, [a] + rest)
    ensures PhaseAfter(p, u, [a] + rest) == PhaseAfter(Advance(p, u, a).value, u, rest)
  {
  }

  /** Every session follows the machine: it ends connected (its channel
      open, never registered) without a nickname, and departed otherwise. */
  lemma SessionConforms(u: UserId, input: seq<string>, gemini: string -> string)
    ensures Conforms(Unborn, u, Trace(u, input, gemini))
    ensures PhaseAfter(Unborn, u, Trace(u, input, gemini)) == if input == [] then Connected else Departed
  {
    if input == [] {
      ConformsCons(Connected, u, Private(NicknamePrompt), []);
      ConformsCons(Unborn, u, Open, [Private(NicknamePrompt)]);
    } else {
      var n := input[0];
      var hs, chat, td := Handshake(u, n), Chat(n, input[1..], gemini), Teardown(u, n);
      ConformsCons(Connected, u, Emit(Enter(u)), []);
      ConformsCons(Connected, u, Emit(Broadcast(EnterNotice(n))), hs[4..]);
      ConformsCons(Connected, u, Private(Welcome(n)), hs[3..]);
      ConformsCons(Connected, u, Private(NicknamePrompt), hs[2..]);
      ConformsCons(Unborn, u, Open, hs[1..]);
      assert [Open] + hs[1..] == hs;
      ChatStaysEntered(u, n, input[1..], gemini);
      ConformsAppend(Unborn, u, hs, chat);
      ConformsCons(Departed, u, Emit(Broadcast(LeftNotice(n))), []);
      ConformsCons(Entered, u, Emit(Leave(u)), td[1..]);
      assert [Emit(Leave(u))] + td[1..] == td;
      ConformsAppend(Unborn, u, hs + chat, td);
    }
  }

  /** Nothing brings a departed user back. */
  lemma {:induction false} DepartedIsFinal(u: UserId, acts: seq<Action>)
    requires Conforms(Departed, u, acts)
    ensures Emit(Enter(u)) !in acts && Emit(Leave(u)) !in acts
    ensures PhaseAfter(Departed, u, acts) == Departed
    decreases |acts|
  {
    if acts != [] {
      DepartedIsFinal(u, acts[1..]);
    }
  }

  /** A user is entered exactly when it was entered already or has sent its
      Enter since, and has not sent its Leave. */
  lemma {:induction false} EnteredBetween(p: Phase, u: UserId, acts: seq<Action>)
    requires Conforms(p, u, acts)
    ensures PhaseAfter(p, u, acts) == Entered <==>
      (p == Entered || Emit(Enter(u)) in acts) && Emit(Leave(u)) !in acts
    decreases |acts|
  {
    if acts != [] {
      var q := Advance(p, u, acts[0]).value;
      EnteredBetween(q, u, acts[1..]);
      assert acts == [acts[0]] + acts[1..];
      if q == Departed {
        DepartedIsFinal(u, acts[1..]);
      }
    }
  }

  /** A user has departed exactly when it was departed already or has sent
      its Leave since. */
  lemma {:induction false} DepartedAfterLeave(p: Phase, u: UserId, acts: seq<Action>)
    requires Conforms(p, u, acts)
    ensures PhaseAfter(p, u, acts) == Departed <==> p == Departed || Emit(Leave(u)) in acts
    decreases |acts|
  {
    if acts != [] {
      var q := Advance(p, u, acts[0]).value;
      DepartedAfterLeave(q, u, acts[1..]);
      assert acts == [acts[0]] + acts[1..];
    }
  }
}
