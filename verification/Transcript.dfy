/** What a turn leaves behind, end to end: the decoder of backend/llm/client.py
    feeding the loop of backend/agent/loop.py, the stored row and the screen of
    frontend/src/store/session.ts. */
module Transcript {
  import opened Codes
  import Events
  import opened Compaction
  import opened History
  import opened Wire
  import Client
  import Grammar
  import Protocol
  import opened AgentLoop
  import opened Session

  /** What the loop sees of a response. */
  function ReplyOf(response: Client.Response, callId: Text): Reply
    requires !response.malformed && !response.isFinal ==> response.toolCalls != []
  {
    if response.malformed then Malformed(response.raw)
    else if response.isFinal then Final(response.text, response.raw, response.streamed)
    else Call(callId, response.toolCalls[0].name, response.toolCalls[0].args, response.raw)
  }

  /** The turn's tokens and reply come from one generation over `raw`: the tokens
      are what Client.Generate hands on, the reply what it returns. */
  ghost predicate Generated(turn: Turn, py: Client.Python, lenient: Client.Lenient, raw: Text) {
    && !turn.cancelled && turn.outcome.Answered?
    && Client.Parse(py, raw).Parsed?
    && Concat(Puts(turn.program)) == Client.Shown(lenient, raw)
    && var response := Client.WithStreamed(Client.Parse(py, raw).response, Client.Shown(lenient, raw));
       && (!response.malformed && !response.isFinal ==> response.toolCalls != [])
       && exists callId :: turn.outcome.reply == ReplyOf(response, callId)
  }

  lemma SameText(shown: Text, text: Text)
    ensures shown + text == text <==> shown == []
    ensures shown + [] == shown
  {
  }

  /** The last step's tokens spell the stored answer exactly when the live decode
      agreed with the parse or showed nothing at all. */
  lemma AnswerShown(turn: Turn, py: Client.Python, lenient: Client.Lenient, raw: Text)
    requires Answers(turn) && Generated(turn, py, lenient, raw)
    ensures var a := AnswerOf(turn);
      && a.text == Client.Parse(py, raw).response.text
      && (a.shown + a.Spoken() == a.text <==> Client.Shown(lenient, raw) == a.text || Client.Shown(lenient, raw) == [])
  {
    var a := AnswerOf(turn);
    SameText(a.shown, a.text);
  }

  /** Under the grammar: an answer is on the wire exactly once unless its JSON
      holds an escaped surrogate pair, and then it is there twice. */
  lemma GrammarAnswerShown(turn: Turn, py: Client.Python, lenient: Client.Lenient, names: seq<Text>, raw: Text)
    requires forall n :: n in names ==> Protocol.IsPlain(n)
    requires Grammar.Utterable(names, Grammar.RootRule, raw)
    requires Answers(turn) && Generated(turn, py, lenient, raw)
    ensures var a := AnswerOf(turn);
      a.shown + a.Spoken() == a.text <==> !(Protocol.IsFinalText(names, raw) && Protocol.HasPair(raw))
  {
    AnswerShown(turn, py, lenient, raw);
    Protocol.GrammarHonored(py, lenient, names, raw);
    if Protocol.IsFinalText(names, raw) { Protocol.DecoderAgrees(py, lenient, names, raw); }
  }

  /** The call on the wire is the call that was uttered: when it is neither of the two
      most recent executions, it runs, and its event has the parsed name and
      arguments. */
  lemma CallShown(env: Env, h: seq<Act>, turn: Turn, py: Client.Python, lenient: Client.Lenient, raw: Text)
    requires Asks(turn) && Generated(turn, py, lenient, raw)
    requires forall i :: 0 <= i < |h| && h[i].Executed? && h[i].sig == SignatureOf(env, turn.outcome.reply) ==>
      exists a, b :: i < a < b < |h| && h[a].Executed? && h[b].Executed?
    ensures var response, deed := Client.Parse(py, raw).response, Conduct(env, h, turn);
      && !response.malformed && !response.isFinal && response.toolCalls != []
      && deed.record.call ==
         Some(Events.ToolCall(turn.outcome.reply.callId, response.toolCalls[0].name, response.toolCalls[0].args))
      && |deed.acts| == 1 && deed.acts[0].Executed?
      && deed.acts[0].sig == Signature(response.toolCalls[0].name, env.canon(response.toolCalls[0].args))
  {
    hide Conduct, Client.Parse, Client.Shown;
    OtherCallRuns(env, h, turn);
  }

  // --- the screen after a run, and after reopening it -------------------------------------------

  function Assistants(messages: seq<ChatMessage>): seq<ChatMessage> {
    if messages == [] then []
    else
      var last := messages[|messages| - 1];
      Assistants(messages[..|messages| - 1]) + (if last.role.Assistant? then [last] else [])
  }

  function Lifted(contents: seq<Text>): seq<ChatMessage> {
    seq(|contents|, i requires 0 <= i < |contents| => Lift(Assistant, contents[i]))
  }

  lemma AssistantsSnoc(messages: seq<ChatMessage>, m: ChatMessage)
    ensures Assistants(messages + [m]) == Assistants(messages) + (if m.role.Assistant? then [m] else [])
  {
    assert (messages + [m])[..|messages|] == messages;
  }

  /** loadSession keeps every assistant row, in order, and adds none. */
  lemma {:induction false} LoadedAssistants(rows: seq<Message>)
    ensures Assistants(Loaded(rows)) == Lifted(AssistantRows(rows))
  {
    if rows != [] {
      var init, last := rows[..|rows| - 1], rows[|rows| - 1];
      LoadedAssistants(init);
      if last.role.User? || last.role.Assistant? {
        AssistantsSnoc(Loaded(init), Lift(last.role, last.content));
      } else {
        assert Loaded(init) + [] == Loaded(init);
      }
    }
  }

  /** A run from the outside: the live screen, and the same session reopened. */
  lemma RunLeaves(run: AgentLoop, stop: Events.StopReason, s: State, text: Text, first: seq<Event>, clock: int -> int)
    requires run.Completed(stop) && Prelude(first)
    ensures var end := Fold(Sent(s, text), first + run.yielded, clock);
      && end.phase.Idle? && |end.trace| == run.stepsUsed <= run.env.maxSteps
      && end.messages == s.messages + [ChatMessage(User, text, None, [])]
           + [ChatMessage(Assistant, Events.TokenText(run.yielded), Some(stop), Cites(run.yielded))]
    ensures run.answer.Some? ==> Assistants(Loaded(run.rows)) == [Lift(Assistant, run.answer.value.text)]
    ensures run.answer.None? ==>
      Assistants(Loaded(run.rows)) == [ChatMessage(Assistant, NoteFor(run.env, stop, run.lastError), Some(stop), [])]
  {
    hide Events.Follow, Fold, Loaded, Assistants, AssistantRows, LostOnly, TotalIn, TotalOut, NoteFor, Marker, Lift,
      TraceShows;
    CompletedOnScreen(s, text, first, run.yielded, clock,
      Events.Done(stop, run.stepsUsed, run.tokensIn, run.tokensOut, run.env.latencyMs));
    LoadedAssistants(run.rows);
    if run.answer.None? {
      var errors := if stop == Events.Error then run.yielded[..|run.yielded| - 1] else [];
      StoppedReopens(run.env, stop, run.lastError, errors);
    }
  }
}
