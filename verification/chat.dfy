/**
 * Chat-history bookkeeping of the conversational assistant. The session
 * stores user and assistant messages only; the fixed system instruction is
 * put in front of the stored history in each outgoing request and never
 * stored. The hosted model's reply arrives as a stream of text pieces.
 */
module Chat {

  datatype Role = User | Assistant | System

  datatype Message = Message(role: Role, content: string)

  datatype Option<T> = None | Some(value: T)

  /** How the streamed reply ended: all its pieces, or a failure of the call. */
  datatype Reply = Streamed(pieces: seq<string>) | Failed

  /** The result of one pass of the chat panel: the request sent, if any, and the stored history. */
  datatype TurnResult = TurnResult(request: Option<seq<Message>>, history: seq<Message>)

  const Greeting: string := "¿Qué modelo Porsche quieres analizar?"

  /** The history a new session starts with. */
  function NewSession(): (h: seq<Message>)
    ensures |h| == 1 && h[0].role == Assistant
    ensures Alternating(h)
  {
    [Message(Assistant, Greeting)]
  }

  /** No stored message carries the system role. */
  predicate NoSystem(h: seq<Message>) {
    forall i :: 0 <= i < |h| ==> h[i].role != System
  }

  /**
   * The shape of a history in which every turn was answered: the greeting,
   * then user and assistant messages in strict alternation, ending with the
   * assistant.
   */
  predicate Alternating(h: seq<Message>) {
    && |h| % 2 == 1
    && forall i :: 0 <= i < |h| ==> h[i].role == (if i % 2 == 0 then Assistant else User)
  }

  /** The text of a streamed reply: its pieces joined in arrival order. */
  function Joined(pieces: seq<string>): (text: string)
    ensures pieces == [] ==> text == ""
    decreases |pieces|
  {
    if pieces == [] then "" else pieces[0] + Joined(pieces[1..])
  }

  /** Joining is compatible with splitting the stream anywhere. */
  lemma {:induction false} JoinedAppend(a: seq<string>, b: seq<string>)
    ensures Joined(a + b) == Joined(a) + Joined(b)
    decreases |a|
  {
    if a == [] {
      assert a + b == b;
    } else {
      assert (a + b)[0] == a[0];
      assert (a + b)[1..] == a[1..] + b;
      JoinedAppend(a[1..], b);
      assert Joined(a + b) == a[0] + (Joined(a[1..]) + Joined(b));
    }
  }

  /** The outgoing request: the system instruction followed by the whole stored history. */
  function Request(systemPrompt: string, history: seq<Message>): (r: seq<Message>)
    ensures |r| == |history| + 1
    ensures r[0].role == System && r[0].content == systemPrompt
    ensures r[1..] == history
  {
    [Message(System, systemPrompt)] + history
  }

  /**
   * One pass of the chat panel. An empty input does nothing. Otherwise the
   * user message is stored, the request built from the updated history is
   * sent, and when the stream completes the joined reply is stored as an
   * assistant message; when the call fails the user message stays stored and
   * nothing else is added.
   */
  function Turn(history: seq<Message>, systemPrompt: string, prompt: string, reply: Reply): (t: TurnResult)
    ensures |t.history| >= |history| && t.history[..|history|] == history
    ensures prompt == "" ==> t.request == None && t.history == history
    ensures prompt != "" ==> |t.history| == |history| + (if reply.Streamed? then 2 else 1)
    ensures prompt != "" ==> t.request == Some(Request(systemPrompt, t.history[..|history| + 1]))
    ensures prompt != "" ==> t.history[|history|] == Message(User, prompt)
    ensures prompt != "" && reply.Streamed? ==> t.history[|history| + 1] == Message(Assistant, Joined(reply.pieces))
  {
    if prompt == "" then TurnResult(None, history)
    else
      var asked := history + [Message(User, prompt)];
      var request := Request(systemPrompt, asked);
      match reply
      case Streamed(pieces) => TurnResult(Some(request), asked + [Message(Assistant, Joined(pieces))])
      case Failed =>
        assert asked[..|history| + 1] == asked;
        TurnResult(Some(request), asked)
  }

  /** A turn never stores a system message, even though its request starts with one. */
  lemma TurnKeepsNoSystem(history: seq<Message>, systemPrompt: string, prompt: string, reply: Reply)
    requires NoSystem(history)
    ensures NoSystem(Turn(history, systemPrompt, prompt, reply).history)
  {
  }

  /** An answered turn keeps the strict user/assistant alternation. */
  lemma AnsweredTurnKeepsAlternation(history: seq<Message>, systemPrompt: string, prompt: string, pieces: seq<string>)
    requires Alternating(history)
    requires prompt != ""
    ensures Alternating(Turn(history, systemPrompt, prompt, Streamed(pieces)).history)
  {
  }

  /**
   * The history after a sequence of passes, each given as its input and its
   * reply, starting from a new session.
   */
  function Replay(systemPrompt: string, passes: seq<(string, Reply)>): seq<Message>
    decreases |passes|
  {
    if passes == [] then NewSession()
    else
      var last := passes[|passes| - 1];
      Turn(Replay(systemPrompt, passes[..|passes| - 1]), systemPrompt, last.0, last.1).history
  }

  /** However the passes went, the stored history never holds a system message. */
  lemma {:induction false} ReplayNoSystem(systemPrompt: string, passes: seq<(string, Reply)>)
    ensures NoSystem(Replay(systemPrompt, passes))
    decreases |passes|
  {
    if passes != [] {
      var last := passes[|passes| - 1];
      ReplayNoSystem(systemPrompt, passes[..|passes| - 1]);
      TurnKeepsNoSystem(Replay(systemPrompt, passes[..|passes| - 1]), systemPrompt, last.0, last.1);
    }
  }

  /**
   * When every pass had input and was answered, the history is the greeting
   * followed by two messages per pass, alternating user and assistant.
   */
  lemma {:induction false} ReplayAnswered(systemPrompt: string, passes: seq<(string, Reply)>)
    requires forall k :: 0 <= k < |passes| ==> passes[k].0 != "" && passes[k].1.Streamed?
    ensures |Replay(systemPrompt, passes)| == 1 + 2 * |passes|
    ensures Alternating(Replay(systemPrompt, passes))
    decreases |passes|
  {
    if passes != [] {
      var init := passes[..|passes| - 1];
      var last := passes[|passes| - 1];
      assert forall k :: 0 <= k < |init| ==> init[k] == passes[k];
      ReplayAnswered(systemPrompt, init);
      AnsweredTurnKeepsAlternation(Replay(systemPrompt, init), systemPrompt, last.0, last.1.pieces);
    }
  }
}
