/** One connection's session: nickname handshake, chat loop and teardown,
    as the ordered list of what it does to its own mailbox and what it sends
    to the broadcaster. The connection's input arrives as the lines already
    read from the socket; the end of that list is end-of-input or a read
    error, which the session treats alike. */
module Session {
  import opened Registry

  /** The nickname prompt written straight to a new user's mailbox. */
  const NicknamePrompt := "请输入你的昵称："

  /** A chat line that starts with this goes to the AI service instead of
      the room. */
  const GeminiPrefix := "gemini:"

  /** The private welcome line. */
  function Welcome(nick: string): (r: string)
    ensures |r| == |nick| + 7 && r[7..] == nick
  {
    "欢迎你的到来：" + nick
  }

  /** The room-wide entrance announcement; the nickname sits between the
      backticks. */
  function EnterNotice(nick: string): (r: string)
    ensures |r| == |nick| + 17 && r[6..|r| - 11] == nick
  {
    "user:`" + nick + "` has enter"
  }

  /** The room-wide departure announcement; the nickname sits between the
      backticks, and the text differs from the entrance announcement. */
  function LeftNotice(nick: string): (r: string)
    ensures |r| == |nick| + 16 && r[6..|r| - 10] == nick
    ensures r != EnterNotice(nick)
  {
    "user:`" + nick + "` has left"
  }

  /** A chat line as the room sees it: the sender's nickname, then the
      line as typed. */
  function ChatLine(nick: string, line: string): (r: string)
    ensures |r| == |nick| + 2 + |line| && r[..|nick|] == nick && r[|nick| + 2..] == line
  {
    nick + ": " + line
  }

  /** The line starts with `gemini:`. */
  predicate IsGeminiRequest(line: string): (b: bool)
    ensures b <==> |line| >= 7 && line[..7] == GeminiPrefix
  {
    GeminiPrefix <= line
  }

  /** What a session does, in order: make its channel, send a line straight
      into its own channel, or send an event to the broadcaster. */
  datatype Action = Open | Private(msg: string) | Emit(event: Event)

  /** The action one chat line produces; `gemini` stands for the AI
      completion call, whose reply goes back to the asking user only. */
  function Respond(nick: string, line: string, gemini: string -> string): (r: Action)
    ensures r.Private? <==> IsGeminiRequest(line)
    ensures r.Private? ==> r.msg == gemini(line)
    ensures r.Emit? ==> r.event.Broadcast? && nick <= r.event.msg
  {
    if IsGeminiRequest(line) then Private(gemini(line))
    else Emit(Broadcast(ChatLine(nick, line)))
  }

  /** The chat loop over the lines after the nickname. */
  function Chat(nick: string, lines: seq<string>, gemini: string -> string): (r: seq<Action>)
    ensures |r| == |lines|
    ensures forall a :: a in r ==> a.Private? || (a.Emit? && a.event.Broadcast?)
    decreases |lines|
  {
    if lines == [] then []
    else [Respond(nick, lines[0], gemini)] + Chat(nick, lines[1..], gemini)
  }

  /** Prompt, welcome, announcement, then registration. */
  function Handshake(u: UserId, nick: string): (r: seq<Action>)
    ensures |r| == 5 && r[0] == Open && r[4] == Emit(Enter(u))
    ensures forall k :: 0 <= k < 4 ==> r[k] != Emit(Enter(u)) && r[k] != Emit(Leave(u))
  {
    [Open, Private(NicknamePrompt), Private(Welcome(nick)), Emit(Broadcast(EnterNotice(nick))), Emit(Enter(u))]
  }

  /** Deregistration, then the departure announcement. */
  function Teardown(u: UserId, nick: string): (r: seq<Action>)
    ensures |r| == 2 && r[0] == Emit(Leave(u))
    ensures forall k :: 1 <= k < |r| ==> r[k].Emit? && r[k].event.Broadcast?
  {
    [Emit(Leave(u)), Emit(Broadcast(LeftNotice(nick)))]
  }

  /** Everything the session of user `u` does, given its input lines. With no
      first line it stops after the prompt (and leaves its channel open). */
  function Trace(u: UserId, input: seq<string>, gemini: string -> string): (r: seq<Action>)
    ensures |r| == if input == [] then 2 else |input| + 6
  {
    if input == [] then [Open, Private(NicknamePrompt)]
    else Handshake(u, input[0]) + Chat(input[0], input[1..], gemini) + Teardown(u, input[0])
  }

  /** The chat loop answers each line with exactly one action, in order. */
  lemma {:induction false} ChatAt(nick: string, lines: seq<string>, gemini: string -> string, k: nat)
    requires k < |lines|
    ensures |Chat(nick, lines, gemini)| == |lines|
    ensures Chat(nick, lines, gemini)[k] == Respond(nick, lines[k], gemini)
  {
    if k > 0 {
      ChatAt(nick, lines[1..], gemini, k - 1);
    } else if |lines| > 1 {
      ChatAt(nick, lines[1..], gemini, 0);
    }
  }

  /** Reading more lines extends the chat loop's actions. */
  lemma {:induction false} ChatAppend(nick: string, a: seq<string>, b: seq<string>, gemini: string -> string)
    ensures Chat(nick, a + b, gemini) == Chat(nick, a, gemini) + Chat(nick, b, gemini)
    decreases |a|
  {
    if a != [] {
      assert (a + b)[1..] == a[1..] + b;
      ChatAppend(nick, a[1..], b, gemini);
    } else {
      assert a + b == b;
    }
  }

  /** `handleConn`: the same steps, taken one at a time. */
  method HandleConn(u: UserId, input: seq<string>, gemini: string -> string) returns (trace: seq<Action>)
    ensures trace == Trace(u, input, gemini)
  {
    trace := [Open, Private(NicknamePrompt)];
    if |input| == 0 {
      return;
    }
    var nick := input[0];
    trace := trace + [Private(Welcome(nick)), Emit(Broadcast(EnterNotice(nick)))];
    trace := trace + [Emit(Enter(u))];
    var i := 1;
    while i < |input|
      invariant 1 <= i <= |input|
      invariant trace == Handshake(u, nick) + Chat(nick, input[1..i], gemini)
    {
      var line := input[i];
      if IsGeminiRequest(line) {
        trace := trace + [Private(gemini(line))];
      } else {
        trace := trace + [Emit(Broadcast(ChatLine(nick, line)))];
      }
      assert input[1..i + 1] == input[1..i] + [line];
      ChatAppend(nick, input[1..i], [line], gemini);
      i := i + 1;
    }
    assert input[1..i] == input[1..];
    trace := trace + [Emit(Leave(u))];
    trace := trace + [Emit(Broadcast(LeftNotice(nick)))];
  }

  /** Every session starts with its channel and the prompt; it sends nothing
      to the broadcaster exactly when there was no nickname line. */
  lemma SilentWithoutNickname(u: UserId, input: seq<string>, gemini: string -> string)
    ensures Trace(u, input, gemini)[..2] == [Open, Private(NicknamePrompt)]
    ensures input == [] ==> Trace(u, input, gemini) == [Open, Private(NicknamePrompt)]
    ensures (forall a :: a in Trace(u, input, gemini) ==> !a.Emit?) <==> input == []
  {
    if input != [] {
      assert Trace(u, input, gemini)[4] == Emit(Enter(u));
    }
  }

  /** With nickname `n`: welcome, then the entrance announcement, then the
      one and only Enter; after all chat lines, the one and only Leave, then
      the departure announcement. */
  lemma SessionOrder(u: UserId, input: seq<string>, gemini: string -> string)
    requires input != []
    ensures var t := Trace(u, input, gemini); var n := input[0];
      && |t| == |input| + 6
      && t[2] == Private(Welcome(n))
      && t[3] == Emit(Broadcast(EnterNotice(n)))
      && t[4] == Emit(Enter(u))
      && t[|t| - 2] == Emit(Leave(u))
      && t[|t| - 1] == Emit(Broadcast(LeftNotice(n)))
      && (forall j :: 0 <= j < |t| ==> (t[j] == Emit(Enter(u)) <==> j == 4))
      && (forall j :: 0 <= j < |t| ==> (t[j] == Emit(Leave(u)) <==> j == |t| - 2))
  {
    var n, rest := input[0], input[1..];
    var t := Trace(u, input, gemini);
    if rest == [] {
      assert |Chat(n, rest, gemini)| == 0;
    } else {
      ChatAt(n, rest, gemini, 0);
    }
    forall j | 5 <= j < |t| - 2
      ensures t[j] != Emit(Enter(u)) && t[j] != Emit(Leave(u))
    {
      ChatAt(n, rest, gemini, j - 5);
      assert t[j] == Chat(n, rest, gemini)[j - 5];
    }
  }

  /** Chat line `k` (1-based after the nickname) becomes a private AI reply
      when it starts with "gemini:" and a room-wide broadcast otherwise. */
  lemma ChatLineHandled(u: UserId, input: seq<string>, gemini: string -> string, k: nat)
    requires 1 <= k < |input|
    ensures var t := Trace(u, input, gemini); var line := input[k];
      && 4 + k < |t|
      && (IsGeminiRequest(line) ==> t[4 + k] == Private(gemini(line)))
      && (!IsGeminiRequest(line) ==> t[4 + k] == Emit(Broadcast(ChatLine(input[0], line))))
  {
    ChatAt(input[0], input[1..], gemini, k - 1);
  }
}
