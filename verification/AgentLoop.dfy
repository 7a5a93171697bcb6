/** AgentLoop.run (backend/agent/loop.py) against arbitrary models and tools: each
    step of a run is driven by a Turn, which holds everything the outside world
    decides in that step. */
module AgentLoop {
  import opened Codes
  import opened Json
  import opened Events
  import opened Compaction
  import opened History
  import opened Wire

  // --- the outside world -----------------------------------------------------------------

  /** What a finished generation amounts to (llm.client.Response). */
  datatype Reply =
    | Malformed(raw: Text)
    | Final(text: Text, raw: Text, streamed: bool)
    | Call(callId: Text, name: Text, args: seq<(Text, Value)>, raw: Text)

  datatype Outcome = Answered(reply: Reply, tokensIn: nat, tokensOut: nat) | Broke(message: Text)

  datatype ToolOutcome = ToolOutcome(
    ok: bool, content: Text, error: Option<Text>, spilled: bool, durationMs: int,
    citations: seq<Event>, artifacts: seq<Event>)

  /** The stored answer, what of it was on the wire before, and whether that was
      taken to be the answer already. */
  datatype Answer = Answer(text: Text, shown: Text, streamed: bool) {
    function Spoken(): Text { if streamed then [] else text }
  }

  datatype Turn = Turn(cancelled: bool, program: seq<Produce>, schedule: seq<bool>, outcome: Outcome, tool: ToolOutcome)

  predicate GoodTurn(t: Turn) {
    && GoodProgram(t.program)
    && GoodTool(t.tool)
  }

  /** The messages the loop writes to steer the model. */
  datatype Correction =
    | NotJson
    | DoNotRepeat(name: Text)
    | ToolGone(name: Text)
    | Observe(name: Text, observation: Text)

  /** What is fixed for a run. `canon` is json.dumps with sorted keys, `say` words a
      correction, `observe` is the JSON of an observation, `complain` the message of
      an error, `decimal` writes a number, and `latencyMs` is the clock. */
  datatype Env = Env(
    maxSteps: nat, registry: seq<Text>, grammarOn: bool, context: int,
    systemPrompt: Text, question: Text,
    canon: seq<(Text, Value)> -> Text, say: Correction -> Text, observe: (Text, ToolOutcome) -> Text,
    complain: (Text, Text, Option<Text>) -> Text, decimal: nat -> Text, latencyMs: int)

  const TOKEN_CHUNK_CHARS := 48

  // --- small decisions ---------------------------------------------------------------------

  /** str.lower, as far as the markers below can tell: the Kelvin sign is the one
      character outside ASCII that lowers to a letter of theirs by itself. */
  function LowerCode(c: Code): Code {
    if 0x41 <= c <= 0x5A then c + 0x20 else if c == 0x212A then 'k' as int else c
  }

  predicate LowersTo(s: Text, w: Text)
    requires |s| == |w|
  {
    forall j :: 0 <= j < |w| ==> LowerCode(s[j]) == w[j]
  }

  /** `w in s.lower()`. */
  predicate Contains(s: Text, w: Text) {
    |w| <= |s| && (LowersTo(s[..|w|], w) || (s != [] && Contains(s[1..], w)))
  }

  const UNAVAILABLE_MARKERS: seq<Text> :=
    [Lit("sandbox unavailable"), Lit("docker unavailable"), Lit("ragsvc unreachable"), Lit("docker sdk not installed")]

  predicate IsUnavailable(error: Option<Text>) {
    error.Some? && exists i :: 0 <= i < |UNAVAILABLE_MARKERS| && Contains(error.value, UNAVAILABLE_MARKERS[i])
  }

  function Take<T>(s: seq<T>, n: nat): seq<T> { if |s| <= n then s else s[..n] }

  function Summary(r: ToolOutcome): Text {
    Take(if r.content != [] then r.content else if r.error.Some? then r.error.value else [], 200)
  }

  function ReasonName(reason: StopReason): Text {
    match reason
    case FinalAnswer => Lit("final_answer")
    case MaxSteps => Lit("max_steps")
    case Error => Lit("error")
    case Cancelled => Lit("cancelled")
  }

  function NoteFor(env: Env, reason: StopReason, lastError: Text): Text {
    if lastError != [] then lastError
    else match reason
      case MaxSteps => Lit("gave up after ") + env.decimal(env.maxSteps) + Lit(" steps without a final answer")
      case Cancelled => Lit("stopped by the user")
      case _ => ReasonName(reason)
  }

  function Marker(reason: StopReason, note: Text): Text {
    Lit("[stopped: ") + ReasonName(reason) + Lit("] ") + note
  }

  const LLM_ERROR: Text := Lit("LLM_ERROR")
  const LOOP_DETECTED: Text := Lit("LOOP_DETECTED")
  const TOOL_RETRIES_EXCEEDED: Text := Lit("TOOL_RETRIES_EXCEEDED")

  predicate KnownCode(code: Text) {
    code == LLM_ERROR || code == LOOP_DETECTED || code == TOOL_RETRIES_EXCEEDED
  }

  /** The only errors a run ever ends with. */
  predicate FatalError(ev: Event) {
    ev.AgentError? && !ev.recoverable && KnownCode(ev.code)
  }

  function ErrorText(ev: Event): Text
    requires ev.AgentError?
  {
    ev.code + Lit(": ") + ev.message
  }

  lemma ErrorSpeaks(ev: Event)
    requires ev.AgentError?
    ensures ErrorText(ev) != []
  {
    assert |Lit(": ")| == 2;
  }

  /** The assistant rows of the transcript, in order. */
  function AssistantRows(rows: seq<Message>): seq<Text> {
    if rows == [] then []
    else
      var last := rows[|rows| - 1];
      AssistantRows(rows[..|rows| - 1]) + (if last.role.Assistant? then [last.content] else [])
  }

  lemma RowsSnoc(rows: seq<Message>, m: Message)
    ensures AssistantRows(rows + [m]) == AssistantRows(rows) + (if m.role.Assistant? then [m.content] else [])
  {
    assert (rows + [m])[..|rows|] == rows;
  }

  lemma OneRow(rows: seq<Message>, text: Text)
    requires AssistantRows(rows) == []
    ensures AssistantRows(rows + [Message(Assistant, text)]) == [text]
  {
    RowsSnoc(rows, Message(Assistant, text));
  }

  /** An answer cut into token events of at most 48 characters. */
  function Chunks(text: Text): seq<Event>
    decreases |text|
  {
    if text == [] then []
    else [Token(Take(text, TOKEN_CHUNK_CHARS))] + Chunks(AfterTake(text))
  }

  function AfterTake(text: Text): (rest: Text)
    ensures text != [] ==> |rest| < |text|
  {
    if |text| <= TOKEN_CHUNK_CHARS then [] else text[TOKEN_CHUNK_CHARS..]
  }

  lemma TakeRest(text: Text)
    ensures Take(text, TOKEN_CHUNK_CHARS) + AfterTake(text) == text
  {
  }

  // --- the run -------------------------------------------------------------------------------

  class AgentLoop {
    const env: Env
    var messages: seq<Message>
    var swapEvents: seq<Event>
    var recentCalls: seq<Signature>
    var nudges: nat
    var lastFailed: map<Signature, bool>
    var failStreak: map<Text, nat>
    var unavailable: set<Text>
    var grammar: Option<seq<Text>>
    var tokensIn: nat
    var tokensOut: nat
    var stepsUsed: nat
    var answerStored: bool
    var lastError: Text
    /** Store.messages of this session, the audit log's events, and the wire. */
    var rows: seq<Message>
    var audited: seq<Event>
    var yielded: seq<Event>

    /** The acts so far; the (tokensIn, tokensOut) of the answered requests; swap
        events lost to a failed generation; and the answer, with what of it was
        shown live and whether that was trusted. */
    ghost var history: seq<Act>
    ghost var usage: seq<(nat, nat)>
    ghost var dropped: seq<Event>
    ghost var answer: Option<Answer>

    // --- what holds throughout ---

    ghost predicate Speaking()
      reads this`yielded, this`stepsUsed, this`lastError
    {
      && Follow(yielded).Some? && |Follow(yielded).value.steps| == stepsUsed <= env.maxSteps
    }

    ghost function Phase(): Events.Phase
      requires Speaking()
      reads this`yielded, this`stepsUsed, this`lastError
    {
      Follow(yielded).value.phase
    }

    ghost predicate Remembering()
      reads this`recentCalls, this`lastFailed, this`failStreak, this`nudges, this`unavailable, this`grammar,
        this`history
    {
      && recentCalls == Signatures(history)
      && TracksFailures(lastFailed, history)
      && nudges == NudgesSince(history)
      && unavailable == Down(history)
      && grammar == (if env.grammarOn then Some(Without(env.registry, unavailable)) else None)
      && Disciplined(history)
      && (env.grammarOn ==> AskedUnderGrammar(history, env.registry))
      && (BelowCap(history) ==> TracksStreaks(failStreak, history))
    }

    ghost predicate Conversing()
      reads this`messages
    {
      && |messages| >= 2
      && messages[0] == Message(System, env.systemPrompt)
      && messages[1] == Message(User, env.question)
    }

    ghost predicate Unanswered()
      reads this`rows, this`answerStored, this`answer
    {
      AssistantRows(rows) == [] && !answerStored && answer.None?
    }

    ghost predicate Counted()
      reads this`usage, this`tokensIn, this`tokensOut
    {
      tokensIn == TotalIn(usage) && tokensOut == TotalOut(usage)
    }

    /** Everything yielded has been audited, in the same order, and nothing else
        waits. */
    ghost predicate Audited()
      reads this`audited, this`yielded, this`swapEvents, this`dropped
    {
      audited == yielded && swapEvents == [] && dropped == []
    }

    constructor (env: Env)
      ensures this.env == env
      ensures Speaking() && Phase().Idle? && Remembering() && BelowCap(history) && Conversing() && Unanswered()
        && Counted() && Audited()
      ensures stepsUsed == 0 && lastError == [] && history == [] && usage == [] && yielded == [] && AtRest()
        && messages == Opening(env)
    {
      this.env := env;
      messages := Opening(env);
      swapEvents, recentCalls, nudges, lastFailed, failStreak := [], [], 0, map[], map[];
      unavailable := {};
      grammar := if env.grammarOn then Some(Without(env.registry, {})) else None;
      tokensIn, tokensOut, stepsUsed, answerStored, lastError := 0, 0, 0, false, [];
      rows, audited, yielded := [], [], [];
      history, usage, dropped, answer := [], [], [], None;
    }

    // --- events ---

    /** `yield audited(event)`. */
    method Emit(ev: Event)
      modifies this`audited, this`yielded, this`lastError
      ensures audited == old(audited) + [ev] && yielded == old(yielded) + [ev]
      ensures lastError == if ev.AgentError? then ErrorText(ev) else old(lastError)
    {
      if ev.AgentError? { lastError := ErrorText(ev); }
      audited := audited + [ev];
      yielded := yielded + [ev];
    }

    method EmitAll(events: seq<Event>)
      requires forall i :: 0 <= i < |events| ==> !events[i].AgentError?
      modifies this`audited, this`yielded, this`lastError
      ensures audited == old(audited) + events && yielded == old(yielded) + events && lastError == old(lastError)
    {
      for i := 0 to |events|
        invariant audited == old(audited) + events[..i] && yielded == old(yielded) + events[..i]
        invariant lastError == old(lastError)
      {
        Emit(events[i]);
        assert events[..i] + [events[i]] == events[..i + 1];
      }
    }

    /** The generation task and the draining consumer, one atomic step at a time. */
    method Generate(program: seq<Produce>, schedule: seq<bool>)
      requires swapEvents == []
      modifies this`swapEvents, this`audited, this`yielded
      ensures var w := RunAll(Start(program), schedule);
        audited == old(audited) + w.audited && yielded == old(yielded) + w.yielded && swapEvents == w.pending
    {
      var w, rest := Start(program), schedule;
      var audited0, yielded0 := audited, yielded;
      while !w.finished
        invariant RunAll(w, rest) == RunAll(Start(program), schedule)
        invariant audited0 == old(audited) && yielded0 == old(yielded)
        invariant audited == old(audited) + w.audited && yielded == old(yielded) + w.yielded && swapEvents == w.pending
        decreases Measure(w)
      {
        var choice := rest != [] && rest[0];
        StepProgress(w, choice);
        w := Step(w, choice);
        rest := if rest == [] then [] else rest[1..];
        audited, yielded, swapEvents := audited0 + w.audited, yielded0 + w.yielded, w.pending;
      }
    }

    /** `while swap_events: yield swap_events.pop(0)`. */
    method Drain()
      modifies this`swapEvents, this`yielded
      ensures swapEvents == [] && yielded == old(yielded) + old(swapEvents)
    {
      while swapEvents != []
        invariant yielded + swapEvents == old(yielded) + old(swapEvents)
        decreases |swapEvents|
      {
        var ev := swapEvents[0];
        assert swapEvents == [ev] + swapEvents[1..];
        swapEvents := swapEvents[1..];
        assert yielded + ([ev] + swapEvents) == (yielded + [ev]) + swapEvents;
        yielded := yielded + [ev];
      }
    }

    /** finish: the marker row when no answer was stored, then `done`. */
    method Finish(reason: StopReason)
      modifies this`rows, this`answerStored, this`audited, this`yielded, this`lastError
      ensures rows == if reason != FinalAnswer && !old(answerStored)
        then old(rows) + [Message(Assistant, Marker(reason, NoteFor(env, reason, old(lastError))))] else old(rows)
      ensures answerStored == (old(answerStored) || reason != FinalAnswer)
      ensures audited == old(audited) + [Done(reason, stepsUsed, tokensIn, tokensOut, env.latencyMs)]
      ensures yielded == old(yielded) + [Done(reason, stepsUsed, tokensIn, tokensOut, env.latencyMs)]
      ensures lastError == old(lastError)
    {
      if reason != FinalAnswer && !answerStored {
        rows := rows + [Message(Assistant, Marker(reason, NoteFor(env, reason, lastError)))];
        answerStored := true;
      }
      Emit(Done(reason, stepsUsed, tokensIn, tokensOut, env.latencyMs));
    }

    // --- how a run ends ---

    /** What goes on the wire last, if the run ends like this. */
    ghost function Coda(fate: Fate): seq<Event>
      reads this`stepsUsed, this`tokensIn, this`tokensOut
    {
      match fate
      case GoesOn => []
      case Ends(reason) => [Done(reason, stepsUsed, tokensIn, tokensOut, env.latencyMs)]
      case Fails(code, message) =>
        [AgentError(code, message, false), Done(Error, stepsUsed, tokensIn, tokensOut, env.latencyMs)]
    }

    /** A completed run, seen from outside. */
    ghost predicate Completed(reason: StopReason)
      reads this
    {
      && EndedBy(yielded, Done(reason, stepsUsed, tokensIn, tokensOut, env.latencyMs))
      && stepsUsed <= env.maxSteps
      && Counted()
      && (reason == FinalAnswer <==> answer.Some?)
      && (lastError != [] <==> reason == Error)
      && (reason == Error ==>
        |yielded| >= 2 && FatalError(yielded[|yielded| - 2]) && lastError == ErrorText(yielded[|yielded| - 2]))
      && AssistantRows(rows) ==
        [if answer.Some? then answer.value.text else Marker(reason, NoteFor(env, reason, lastError))]
      && (answer.Some? ==> Follow(yielded).value.stepText == answer.value.shown + answer.value.Spoken())
      && LostOnly(audited, yielded, dropped, reason)
    }

    /** `yield await finish(reason)` with nothing left to say. */
    method StopRun(reason: StopReason)
      requires Speaking() && !Phase().Called? && !Phase().Failed? && !Phase().Ended?
      requires Unanswered() && Counted() && Audited() && lastError == []
      requires reason == MaxSteps || reason == Cancelled
      modifies this`rows, this`answerStored, this`audited, this`yielded, this`lastError
      ensures Completed(reason) && yielded == old(yielded) + Coda(Ends(reason))
      ensures Follow(yielded).Some? && StepsOn(yielded) == old(StepsOn(yielded))
      ensures old(Lawful()) ==> Lawful()
    {
      hide Follow, TracksStreaks, TracksFailures, Signatures, NudgesSince, Down, Disciplined, AskedUnderGrammar,
        BelowCap;
      hide AssistantRows, TotalIn, TotalOut, Shown, Ran, Without;
      ghost var done := Done(reason, stepsUsed, tokensIn, tokensOut, env.latencyMs);
      DoneFollows(yielded, done);
      OneRow(rows, Marker(reason, NoteFor(env, reason, lastError)));
      Finish(reason);
    }

    /** An AgentError, then finish("error"). Swap events still pending are lost. */
    method FailRun(code: Text, message: Text)
      requires Speaking() && (Phase().Generating? || Phase().Reported?)
      requires Unanswered() && Counted() && lastError == []
      requires audited == yielded + swapEvents && SwapsOnly(swapEvents) && dropped == []
      requires KnownCode(code) && (swapEvents != [] ==> code == LLM_ERROR)
      modifies this`rows, this`answerStored, this`audited, this`yielded, this`lastError, this`dropped
      ensures yielded == old(yielded) + Coda(Fails(code, message))
      ensures Completed(Error) && dropped == swapEvents && FailedWith(yielded, code, message)
      ensures Follow(yielded).Some? && StepsOn(yielded) == old(StepsOn(yielded))
    {
      hide Follow, TracksStreaks, TracksFailures, Signatures, NudgesSince, Down, Disciplined, AskedUnderGrammar,
        BelowCap;
      hide AssistantRows, TotalIn, TotalOut, Shown, Ran, Without;
      hide NoteFor, Marker, LostOnly, SwapsOnly, ErrorText;
      var error := AgentError(code, message, false);
      ghost var done := Done(Error, stepsUsed, tokensIn, tokensOut, env.latencyMs);
      ErrorFollows(yielded, error, done);
      SwapsLost(yielded, swapEvents, error, done);
      ErrorSpeaks(error);
      dropped := swapEvents;
      Emit(error);
      OneRow(rows, Marker(Error, NoteFor(env, Error, lastError)));
      Finish(Error);
      Twice(old(yielded), error, done);
    }

    /** The fallback: text that was not shown live, cut into tokens. */
    method Speak(text: Text)
      requires Follow(yielded).Some? && Follow(yielded).value.phase.Generating? && audited == yielded
      modifies this`audited, this`yielded, this`lastError
      ensures yielded == old(yielded) + Chunks(text)
      ensures audited == yielded && lastError == old(lastError)
      ensures var p := old(Follow(yielded).value);
        Follow(yielded) == Some(p.(bubble := p.bubble + text, stepText := p.stepText + text))
    {
      ChunksFollow(yielded, text);
      EmitAll(Chunks(text));
    }

    /** A final answer: stored, then chunked unless it was shown live. */
    method AnswerRun(text: Text, streamed: bool, ghost shown: Text)
      requires Speaking() && Phase().Generating? && Follow(yielded).value.stepText == shown
      requires Unanswered() && Counted() && Audited() && lastError == []
      modifies this`rows, this`answerStored, this`audited, this`yielded, this`lastError, this`answer
      ensures yielded == old(yielded) + Chunks(if streamed then [] else text) + Coda(Ends(FinalAnswer))
      ensures Completed(FinalAnswer) && answer == Some(Answer(text, shown, streamed))
      ensures Follow(yielded).Some? && StepsOn(yielded) == old(StepsOn(yielded))
    {
      hide Follow, TracksStreaks, TracksFailures, Signatures, NudgesSince, Down, Disciplined, AskedUnderGrammar,
        BelowCap;
      hide AssistantRows, TotalIn, TotalOut, Shown, Ran, Without;
      OneRow(rows, text);
      rows := rows + [Message(Assistant, text)];
      answerStored := true;
      answer := Some(Answer(text, shown, streamed));
      Speak(if streamed then [] else text);
      DoneFollows(yielded, Done(FinalAnswer, stepsUsed, tokensIn, tokensOut, env.latencyMs));
      Finish(FinalAnswer);
    }

    // --- one step ---

    /** The acts in the history are exactly the calls and results on the wire. */
    ghost predicate Witnessed()
      reads this`yielded, this`history
    {
      Follow(yielded).Some? && Ran(history) == Shown(env.canon, StepsOn(yielded))
    }

    /** What no run ever breaks, however it ended. */
    ghost predicate Lawful()
      reads this
    {
      && Conversing() && Witnessed()
      && Disciplined(history)
      && (env.grammarOn ==> AskedUnderGrammar(history, env.registry))
    }

    /** Inside a step with nothing pending. */
    ghost predicate Steady()
      reads this
    {
      Speaking() && Remembering() && Lawful() && Unanswered() && Counted() && Audited() && lastError == []
    }

    /** Between steps: every tool is below its cap. */
    ghost predicate AtRest()
      reads this
    {
      Steady() && BelowCap(history)
        && (if stepsUsed == 0 then Phase().Idle? else Phase().Generating? || Phase().Reported?)
    }

    /** The model's own words, then what the loop says back. */
    method Correct(raw: Text, c: Correction)
      modifies this`messages
      ensures messages == old(messages) + Exchange(raw, env.say(c))
    {
      messages := messages + [Message(Assistant, raw)];
      messages := messages + [Message(User, env.say(c))];
    }

    /** The events of one executed call. */
    method Report(call: Reply, tool: ToolOutcome)
      requires call.Call? && GoodTool(tool)
      requires Speaking() && Phase().Generating? && Follow(yielded).value.steps != [] && audited == yielded
      modifies this`audited, this`yielded, this`lastError
      ensures audited == yielded && lastError == old(lastError)
      ensures Speaking() && Phase().Reported?
      ensures Follow(yielded).value.steps == Written(old(Follow(yielded).value.steps), RecordOf(call, tool))
      ensures yielded == old(yielded) + ReportOf(call, tool)
    {
      hide Follow, TracksStreaks, TracksFailures, Signatures, NudgesSince, Down, Disciplined, AskedUnderGrammar,
        BelowCap;
      hide AssistantRows, TotalIn, TotalOut, Shown, Ran, Without;
      var asked := CallEvent(call);
      var told := ResultEvent(call, tool);
      CallFollows(yielded, asked, told);
      Emit(asked);
      Emit(told);
      FollowSideEffects(yielded, CitationsFrom(call.name, tool));
      EmitAll(CitationsFrom(call.name, tool));
      FollowSideEffects(yielded, tool.artifacts);
      EmitAll(tool.artifacts);
    }

    /** Everything a step keeps except what the verdict on a result still decides. */
    ghost predicate Weighing(h: seq<Act>, act: Act)
      reads this
    {
      && history == h + [act] && BelowCap(h) && TracksStreaks(failStreak, h)
      && Speaking() && Phase().Reported? && stepsUsed > 0 && Lawful() && Unanswered() && Counted() && Audited()
        && lastError == []
      && recentCalls == Signatures(history) && nudges == NudgesSince(history) && TracksFailures(lastFailed, history)
      && Down(history) == unavailable + (if act.Executed? && act.down then {act.sig.name} else {})
      && grammar == (if env.grammarOn then Some(Without(env.registry, unavailable)) else None)
    }

    lemma GoingOn()
      ensures yielded == yielded + Coda(GoesOn)
    {
    }

    lemma WeighingSays(h: seq<Act>, act: Act)
      requires Weighing(h, act)
      ensures history == h + [act]
    {
    }

    /** What is remembered of an executed call. */
    method Remember(sig: Signature, ok: bool, ghost act: Act)
      requires act.Executed? && act.sig == sig && act.ok == ok && (act.down ==> !ok) && act.offered == grammar
      requires Remembering() && BelowCap(history) && !IsRepeat(history, sig)
      modifies this`history, this`recentCalls, this`lastFailed, this`nudges
      ensures history == old(history) + [act] && Ran(history) == Ran(old(history)) + [(sig, ok)]
      ensures recentCalls == Signatures(history) && nudges == NudgesSince(history)
        && TracksFailures(lastFailed, history)
      ensures Disciplined(history) && (env.grammarOn ==> AskedUnderGrammar(history, env.registry))
      ensures Down(history) == unavailable + (if act.down then {sig.name} else {})
    {
      hide TracksStreaks, TracksFailures, Signatures, NudgesSince, Down, Disciplined, AskedUnderGrammar, BelowCap;
      hide Ran, Without, IsRepeat;
      ExecutedLawful(history, act, env.registry, env.grammarOn);
      FailuresSnoc(lastFailed, history, act);
      nudges := 0;
      recentCalls := recentCalls + [sig];
      lastFailed := lastFailed[sig := !ok];
      history := history + [act];
    }

    /** A call that is not a repeat: run it, report it, and remember it. */
    method Execute(call: Reply, tool: ToolOutcome, sig: Signature) returns (ghost act: Act)
      requires call.Call? && GoodTool(tool) && sig == Signature(call.name, env.canon(call.args))
      requires AtRest() && Phase().Generating? && Fresh() && !IsRepeat(history, sig)
      modifies this`audited, this`yielded, this`lastError, this`history, this`recentCalls, this`lastFailed, this`nudges
      ensures act == Executed(sig, grammar, tool.ok, !tool.ok && IsUnavailable(tool.error))
      ensures Weighing(old(history), act)
      ensures StepsOn(yielded) == Written(old(StepsOn(yielded)), RecordOf(call, tool))
      ensures yielded == old(yielded) + ReportOf(call, tool)
    {
      hide Follow, TracksStreaks, TracksFailures, Signatures, NudgesSince, Down, Disciplined, AskedUnderGrammar,
        BelowCap;
      hide AssistantRows, TotalIn, TotalOut, Shown, Ran, Without;
      hide IsRepeat, IsUnavailable, CallEvent, ResultEvent, LastTwo, ReportOf;
      act := Executed(sig, grammar, tool.ok, !tool.ok && IsUnavailable(tool.error));
      ShownWritten(env.canon, Follow(yielded).value.steps, call, tool);
      Report(call, tool);
      Remember(sig, tool.ok, act);
    }

    /** The latest step has made no call yet. */
    ghost predicate Fresh()
      reads this`yielded
    {
      StepsOn(yielded) != [] && StepsOn(yielded)[|StepsOn(yielded)| - 1] == QUIET
    }

    /** The corrective answer to a repeated call. */
    method Nudge(call: Reply, ghost sig: Signature)
      requires call.Call? && AtRest() && Phase().Generating?
      requires IsRepeat(history, sig) && nudges < MAX_LOOP_NUDGES
      modifies this`nudges, this`history, this`messages
      ensures AtRest() && history == old(history) + [Nudged(sig)]
      ensures messages == old(messages) + Exchange(call.raw, env.say(DoNotRepeat(call.name)))
    {
      hide Follow, TracksStreaks, TracksFailures, Signatures, NudgesSince, Down, Disciplined, AskedUnderGrammar,
        BelowCap;
      hide AssistantRows, TotalIn, TotalOut, Shown, Ran, Without;
      NudgeSnoc(lastFailed, failStreak, history, Nudged(sig));
      NudgedLawful(history, sig, env.registry, env.grammarOn);
      nudges := nudges + 1;
      history := history + [Nudged(sig)];
      Correct(call.raw, DoNotRepeat(call.name));
    }

    /** The tool said its service is down: out of the grammar for good. */
    method DropTool(call: Reply)
      requires call.Call?
      requires Conversing() && grammar == (if env.grammarOn then Some(Without(env.registry, unavailable)) else None)
      modifies this`unavailable, this`grammar, this`messages
      ensures unavailable == old(unavailable) + {call.name} && Conversing()
      ensures messages == old(messages) + Exchange(call.raw, env.say(ToolGone(call.name)))
      ensures grammar == (if env.grammarOn then Some(Without(env.registry, unavailable)) else None)
    {
      unavailable := unavailable + {call.name};
      grammar := if env.grammarOn then Some(Without(env.registry, unavailable)) else None;
      Correct(call.raw, ToolGone(call.name));
    }

    /** The observation goes to the model and to the transcript. */
    method Hand(call: Reply, tool: ToolOutcome)
      requires call.Call? && Conversing() && Unanswered()
      modifies this`messages, this`rows
      ensures Conversing() && Unanswered()
      ensures messages == old(messages) + Exchange(call.raw, env.say(Observe(call.name, env.observe(call.name, tool))))
      ensures rows == old(rows) + [Message(ToolRole, env.observe(call.name, tool))]
    {
      var observation := env.observe(call.name, tool);
      Correct(call.raw, Observe(call.name, observation));
      RowsSnoc(rows, Message(ToolRole, observation));
      rows := rows + [Message(ToolRole, observation)];
    }

    /** The streak of one tool after its result. */
    method Tally(name: Text, ok: bool)
      modifies this`failStreak
      ensures failStreak == old(failStreak)[name := if ok then 0 else StreakIn(old(failStreak), name) + 1]
    {
      failStreak := failStreak[name := if ok then 0 else StreakIn(failStreak, name) + 1];
    }

    /** The model's last call was to a tool that is down: it is given up. */
    method GiveUp(call: Reply, tool: ToolOutcome, ghost h: seq<Act>, ghost act: Act)
      requires call.Call? && act.Executed? && act.sig.name == call.name && act.ok == tool.ok
      requires act.down && !tool.ok && IsUnavailable(tool.error) && Weighing(h, act)
      modifies this`unavailable, this`grammar, this`messages
      ensures After(env, h, call, tool).fate == GoesOn
      ensures AtRest() && Heeded(After(env, h, call, tool), old(messages), messages, None, yielded)
    {
      hide Follow, TracksStreaks, TracksFailures, Signatures, NudgesSince, Down, Disciplined, AskedUnderGrammar,
        BelowCap;
      hide AssistantRows, TotalIn, TotalOut, Shown, Ran, Without;
      hide IsUnavailable, Streak, After, StepsOn, FailedWith, Exchange, RecordOf;
      Verdict(failStreak, h, act);
      ResultWeighs(env, h, call, tool);
      DropTool(call);
    }

    /** One failure too many: counted, and the run is over. */
    method Exhaust(call: Reply, tool: ToolOutcome, ghost h: seq<Act>, ghost act: Act)
      requires call.Call? && act.Executed? && act.sig.name == call.name && act.ok == tool.ok && !act.down
      requires !tool.ok && !IsUnavailable(tool.error) && Weighing(h, act)
          && StreakIn(failStreak, call.name) + 1 >= MAX_TOOL_RETRIES
      modifies this
      ensures history == old(history) && stepsUsed == old(stepsUsed) && usage == old(usage)
      ensures yielded == old(yielded) + Coda(After(env, h, call, tool).fate)
      ensures Completed(Error) && Lawful() && !BelowCap(history) && dropped == []
      ensures Heeded(After(env, h, call, tool), old(messages), messages, Some(Error), yielded)
      ensures StepsOn(yielded) == old(StepsOn(yielded))
    {
      hide Follow, TracksStreaks, TracksFailures, Signatures, NudgesSince, Down, Disciplined, AskedUnderGrammar,
        BelowCap;
      hide AssistantRows, TotalIn, TotalOut, Shown, Ran, Without;
      hide Completed, EndedBy, IsUnavailable, NoteFor, Marker, LostOnly, Streak, After, StepsOn, FailedWith, Exchange,
        RecordOf, FatalError;
      Verdict(failStreak, h, act);
      ResultWeighs(env, h, call, tool);
      Tally(call.name, tool.ok);
      FailRun(TOOL_RETRIES_EXCEEDED, env.complain(TOOL_RETRIES_EXCEEDED, call.name, tool.error));
    }

    /** A result that does not end the run: counted, and handed to the model. */
    method HandOn(call: Reply, tool: ToolOutcome, ghost h: seq<Act>, ghost act: Act)
      requires call.Call? && act.Executed? && act.sig.name == call.name && act.ok == tool.ok && !act.down
      requires (tool.ok || !IsUnavailable(tool.error)) && Weighing(h, act)
      requires tool.ok || StreakIn(failStreak, call.name) + 1 < MAX_TOOL_RETRIES
      modifies this`failStreak, this`messages, this`rows
      ensures After(env, h, call, tool).fate == GoesOn
      ensures AtRest() && Heeded(After(env, h, call, tool), old(messages), messages, None, yielded)
    {
      hide Follow, TracksStreaks, TracksFailures, Signatures, NudgesSince, Down, Disciplined, AskedUnderGrammar,
        BelowCap;
      hide AssistantRows, TotalIn, TotalOut, Shown, Ran, Without;
      hide IsUnavailable, Streak, After, StepsOn, FailedWith, Exchange, RecordOf;
      Verdict(failStreak, h, act);
      ResultWeighs(env, h, call, tool);
      Tally(call.name, tool.ok);
      Hand(call, tool);
    }

    /** A tool that is down is dropped; one that keeps failing ends the run; any
        other result goes to the model. */
    method Weigh(call: Reply, tool: ToolOutcome, ghost h: seq<Act>, ghost act: Act) returns (stop: Option<StopReason>)
      requires call.Call? && act.Executed? && act.sig.name == call.name && act.ok == tool.ok
      requires act.down == (!tool.ok && IsUnavailable(tool.error))
      requires Weighing(h, act)
      modifies this
      ensures history == old(history) && stepsUsed == old(stepsUsed) && usage == old(usage)
      ensures stop.None? ==> AtRest()
      ensures stop.Some? ==> stop.value == Error && Completed(Error) && Lawful() && !BelowCap(history) && dropped == []
      ensures Heeded(After(env, h, call, tool), old(messages), messages, stop, yielded)
      ensures yielded == old(yielded) + Coda(After(env, h, call, tool).fate)
      ensures StepsOn(yielded) == old(StepsOn(yielded))
    {
      hide Follow, StepsOn, Weighing, AtRest, Completed, Lawful, BelowCap, Heeded, After, IsUnavailable;
      if !tool.ok && IsUnavailable(tool.error) {
        GiveUp(call, tool, h, act);
        GoingOn();
        return None;
      }
      if !tool.ok && StreakIn(failStreak, call.name) + 1 >= MAX_TOOL_RETRIES {
        Exhaust(call, tool, h, act);
        return Some(Error);
      }
      HandOn(call, tool, h, act);
      GoingOn();
      stop := None;
    }

    /** A call that repeats one of the last two which did not fail. */
    method Refuse(call: Reply, ghost tool: ToolOutcome, ghost sig: Signature) returns (stop: Option<StopReason>)
      requires call.Call? && sig == Signature(call.name, env.canon(call.args))
      requires AtRest() && Phase().Generating? && Fresh() && IsRepeat(history, sig)
      modifies this
      ensures stepsUsed == old(stepsUsed) && usage == old(usage)
      ensures stop.None? ==> AtRest()
      ensures stop.Some? ==> stop.value == Error && Completed(Error) && Lawful() && dropped == []
      ensures var deed := Judge(env, old(history), call, tool);
        && history == old(history) + deed.acts && Heeded(deed, old(messages), messages, stop, yielded)
        && StepsOn(yielded) == Written(old(StepsOn(yielded)), deed.record)
        && yielded == old(yielded) + deed.aired + Coda(deed.fate)
    {
      hide Follow, TracksStreaks, TracksFailures, Signatures, NudgesSince, Down, Disciplined, AskedUnderGrammar,
        BelowCap;
      hide AssistantRows, TotalIn, TotalOut, Shown, Ran, Without;
      hide Completed, EndedBy, NoteFor, Marker, LostOnly, After, StepsOn, RecordOf, IsUnavailable, FailedWith,
          Exchange, FatalError, IsRepeat;
      if nudges + 1 > MAX_LOOP_NUDGES {
        FailRun(LOOP_DETECTED, env.complain(LOOP_DETECTED, call.name, None));
        return Some(Error);
      }
      Nudge(call, sig);
      stop := None;
    }

    /** What the step does with a tool call. */
    method TakeCall(call: Reply, tool: ToolOutcome) returns (stop: Option<StopReason>)
      requires call.Call? && GoodTool(tool)
      requires AtRest() && Phase().Generating? && Fresh()
      modifies this
      ensures stepsUsed == old(stepsUsed) && old(history) <= history && usage == old(usage)
      ensures stop.None? ==> AtRest()
      ensures stop.Some? ==> stop.value == Error && Completed(Error) && Lawful() && dropped == []
      ensures var deed := Judge(env, old(history), call, tool);
        && history == old(history) + deed.acts && Heeded(deed, old(messages), messages, stop, yielded)
        && StepsOn(yielded) == Written(old(StepsOn(yielded)), deed.record)
        && yielded == old(yielded) + deed.aired + Coda(deed.fate)
    {
      hide Follow, TracksStreaks, TracksFailures, Signatures, NudgesSince, Down, Disciplined, AskedUnderGrammar,
        BelowCap;
      hide AssistantRows, TotalIn, TotalOut, Shown, Ran, Without;
      hide Completed, Lawful, After, StepsOn, RecordOf, IsUnavailable, Heeded, Weighing, IsRepeat, LatestFailed;
      var sig := Signature(call.name, env.canon(call.args));
      FailureKnown(lastFailed, history, sig);
      RepeatIs(history, sig);
      if sig in LastTwo(recentCalls) && !(sig in lastFailed && lastFailed[sig]) {
        stop := Refuse(call, tool, sig);
        return;
      }
      ghost var h := history;
      ResultWeighs(env, h, call, tool);
      ghost var act := Execute(call, tool, sig);
      assert history == h + [act] by { WeighingSays(h, act); }
      stop := Weigh(call, tool, h, act);
    }

    // --- a whole step ---

    /** A new step: its event, then everything the generation puts on the wire. */
    method Ask(turn: Turn)
      requires GoodTurn(turn) && AtRest() && stepsUsed < env.maxSteps
      modifies this`stepsUsed, this`audited, this`yielded, this`lastError, this`swapEvents
      ensures stepsUsed == old(stepsUsed) + 1 && lastError == []
      ensures Speaking() && Phase().Generating? && Fresh() && Witnessed()
      ensures audited == yielded + swapEvents && SwapsOnly(swapEvents)
      ensures Follow(yielded).value.stepText == Concat(Puts(turn.program))
      ensures StepsOn(yielded) == old(StepsOn(yielded)) + [QUIET]
      ensures var w := RunAll(Start(turn.program), turn.schedule);
        yielded == old(yielded) + [AgentStep(stepsUsed, env.maxSteps)] + w.yielded && swapEvents == w.pending
    {
      hide Follow, TracksStreaks, TracksFailures, Signatures, NudgesSince, Down, Disciplined, AskedUnderGrammar,
        BelowCap;
      hide AssistantRows, TotalIn, TotalOut, Shown, Ran, Without;
      hide RunAll, Start, Puts, Concat;
      StepFollows(yielded, AgentStep(stepsUsed + 1, env.maxSteps), turn.program, turn.schedule);
      FreshShown(env.canon, Follow(yielded).value.steps);
      stepsUsed := stepsUsed + 1;
      Emit(AgentStep(stepsUsed, env.maxSteps));
      Generate(turn.program, turn.schedule);
    }

    /** What the loop does once a generation has been answered. */
    method React(reply: Reply, tool: ToolOutcome, ghost shown: Text) returns (stop: Option<StopReason>)
      requires GoodTool(tool) && AtRest() && Phase().Generating? && Fresh()
      requires Follow(yielded).value.stepText == shown
      modifies this
      ensures stepsUsed == old(stepsUsed) && old(history) <= history && usage == old(usage)
      ensures stop.None? ==> AtRest()
      ensures stop.Some? ==> Completed(stop.value) && Lawful() && dropped == []
      ensures stop.Some? ==> stop.value == (if reply.Final? then FinalAnswer else Error)
      ensures reply.Final? ==> stop.Some? && answer == Some(Answer(reply.text, shown, reply.streamed))
      ensures var deed := Respond(env, old(history), reply, tool);
        && history == old(history) + deed.acts && Heeded(deed, old(messages), messages, stop, yielded)
        && StepsOn(yielded) == Written(old(StepsOn(yielded)), deed.record)
        && yielded == old(yielded) + deed.aired + Coda(deed.fate)
    {
      hide Follow, TracksStreaks, TracksFailures, Signatures, NudgesSince, Down, Disciplined, AskedUnderGrammar,
        BelowCap;
      hide AssistantRows, TotalIn, TotalOut, Shown, Ran, Without;
      match reply
      case Malformed(raw) =>
        Correct(raw, NotJson);
        stop := None;
      case Final(text, raw, streamed) =>
        AnswerRun(text, streamed, shown);
        stop := Some(FinalAnswer);
      case Call(_, _, _, _) =>
        stop := TakeCall(reply, tool);
    }

    /** Compaction before a step, when the window is filling up. */
    method Shorten()
      requires Conversing()
      modifies this`messages
      ensures Conversing()
      ensures messages == Shortened(env, old(messages))
    {
      if OverThreshold(messages, env.context) {
        CompactConverses(messages);
        messages := Compact(messages);
      }
    }

    /** What a run that goes on can rely on, and what it may end with. */
    lemma Resting()
      requires AtRest()
      ensures Disciplined(history) && BelowCap(history) && Lawful() && Speaking() && stepsUsed <= env.maxSteps
      ensures !Phase().Called? && !Phase().Failed? && !Phase().Ended?
      ensures Unanswered() && Counted() && Audited() && lastError == []
    {
      hide Follow, Disciplined, BelowCap, Lawful, Remembering;
      assert Remembering();
      assert Lawful();
      assert Disciplined(history) by { Keeps(); }
    }

    lemma Keeps()
      requires Lawful()
      ensures Disciplined(history)
    {
    }

    /** One pass of the loop body. */
    method TakeStep(turn: Turn) returns (stop: Option<StopReason>)
      requires GoodTurn(turn) && AtRest() && stepsUsed < env.maxSteps
      modifies this
      ensures old(history) <= history && stepsUsed == old(stepsUsed) + (if turn.cancelled then 0 else 1)
      ensures stop.None? ==> AtRest()
      ensures stop.Some? ==> Completed(stop.value) && Lawful()
      ensures usage == old(usage) + Spent(turn)
      ensures stop == Some(Cancelled) <==> turn.cancelled
      ensures stop == Some(FinalAnswer) <==> Answers(turn)
      ensures Answers(turn) ==> answer == Some(AnswerOf(turn))
      ensures stop != Some(MaxSteps)
      ensures dropped != [] ==> stop == Some(Error) && !turn.cancelled && turn.outcome.Broke?
      ensures history == HistoryAfter(env, old(history), turn)
      ensures Heeded(Conduct(env, old(history), turn),
                     if turn.cancelled then old(messages) else Shortened(env, old(messages)), messages, stop, yielded)
      ensures yielded == old(yielded) + StepOf(env, old(history), old(stepsUsed), turn)
        + Coda(Conduct(env, old(history), turn).fate)
      ensures StepsOn(yielded) ==
        old(StepsOn(yielded)) + (if turn.cancelled then [] else [Conduct(env, old(history), turn).record])
    {
      hide Follow, TracksStreaks, TracksFailures, Signatures, NudgesSince, Down, Disciplined, AskedUnderGrammar,
        BelowCap;
      hide AssistantRows, TotalIn, TotalOut, Shown, Ran, Without;
      hide Puts, Concat, OverThreshold, Compacted, TokenText, NoteFor, Marker, LostOnly, SwapsOnly, GoodProgram,
        EndedBy, FatalError;
      hide Respond, Shortened, StepsOn, FailedWith, StepOf, RunAll, Start, Exchange, Conduct, HistoryAfter, Spent,
        Answers, AnswerOf;
      ghost var h, taken, before := history, stepsUsed, yielded;
      NoStep(env, h, taken, turn, before);
      if turn.cancelled {
        CancelledTurn(env, h, turn);
        StopRun(Cancelled);
        return Some(Cancelled);
      }
      Shorten();
      Ask(turn);
      stop := Conclude(turn);
      StepWire(env, h, taken, turn, before, Coda(Conduct(env, h, turn).fate));
    }

    /** A generation over, its events on the wire or still waiting. */
    ghost predicate Generated()
      reads this
    {
      && Speaking() && Phase().Generating? && Fresh() && Witnessed() && stepsUsed > 0
      && audited == yielded + swapEvents && SwapsOnly(swapEvents) && dropped == []
      && Unanswered() && Counted() && lastError == [] && Remembering() && BelowCap(history) && Conversing()
    }

    /** The rest of the step: a broken generation ends the run, with whatever swap
        events were still waiting; an answered one is settled and dealt with. */
    method Conclude(turn: Turn) returns (stop: Option<StopReason>)
      requires GoodTurn(turn) && !turn.cancelled && Generated()
      requires Follow(yielded).value.stepText == Concat(Puts(turn.program))
      modifies this
      ensures old(history) <= history && stepsUsed == old(stepsUsed)
      ensures stop.None? ==> AtRest()
      ensures stop.Some? ==> Completed(stop.value) && Lawful()
      ensures usage == old(usage) + Spent(turn)
      ensures stop != Some(Cancelled) && stop != Some(MaxSteps)
      ensures stop == Some(FinalAnswer) <==> Answers(turn)
      ensures Answers(turn) ==> answer == Some(AnswerOf(turn))
      ensures dropped != [] ==> stop == Some(Error) && turn.outcome.Broke?
      ensures history == HistoryAfter(env, old(history), turn)
      ensures Heeded(Conduct(env, old(history), turn), old(messages), messages, stop, yielded)
      ensures yielded == old(yielded) + (if turn.outcome.Answered? then old(swapEvents) else [])
        + Conduct(env, old(history), turn).aired + Coda(Conduct(env, old(history), turn).fate)
      ensures StepsOn(yielded) == Written(old(StepsOn(yielded)), Conduct(env, old(history), turn).record)
    {
      hide Follow, TracksStreaks, TracksFailures, Signatures, NudgesSince, Down, Disciplined, AskedUnderGrammar,
        BelowCap;
      hide AssistantRows, TotalIn, TotalOut, Shown, Ran, Without;
      hide Puts, Concat, NoteFor, Marker, LostOnly, SwapsOnly, GoodProgram, EndedBy, FatalError, Completed, Exchange,
        FailedWith;
      match turn.outcome
      case Broke(message) =>
        FailRun(LLM_ERROR, Take(message, 300));
        stop := Some(Error);
      case Answered(reply, used, made) =>
        Settle(used, made);
        stop := React(reply, turn.tool, Concat(Puts(turn.program)));
    }

    /** The swap events still waiting go out, and the usage is added up. */
    method Settle(used: nat, made: nat)
      requires Follow(yielded).Some? && Follow(yielded).value.phase.Generating?
      requires audited == yielded + swapEvents && SwapsOnly(swapEvents) && dropped == [] && Counted()
      modifies this`swapEvents, this`yielded, this`tokensIn, this`tokensOut, this`usage
      ensures Audited() && Counted() && Follow(yielded) == old(Follow(yielded))
      ensures yielded == old(yielded) + old(swapEvents)
      ensures usage == old(usage) + [(used, made)]
    {
      SwapsFollow(yielded, swapEvents);
      Drain();
      TotalsSnoc(usage, (used, made));
      usage := usage + [(used, made)];
      tokensIn := tokensIn + used;
      tokensOut := tokensOut + made;
    }

    /** A run over these turns, seen as a function of them. */
    ghost predicate RanOver(turns: seq<Turn>, stop: StopReason)
      reads this
    {
      && stepsUsed <= |turns| && EndsAfter(env, turns, stepsUsed, stop)
      && tokensIn == TotalIn(AllSpent(turns[..stepsUsed])) && tokensOut == TotalOut(AllSpent(turns[..stepsUsed]))
      && yielded == ScriptOf(env, turns[..stepsUsed]) + Coda(FateOf(env, turns, stepsUsed, stop))
    }

    lemma Assembled(turns: seq<Turn>, stop: StopReason)
      requires Completed(stop) && stepsUsed <= |turns| && usage == AllSpent(turns[..stepsUsed])
      requires EndsAfter(env, turns, stepsUsed, stop)
      requires yielded == ScriptOf(env, turns[..stepsUsed]) + Coda(FateOf(env, turns, stepsUsed, stop))
      ensures RanOver(turns, stop)
    {
      hide EndedBy, AssistantRows, LostOnly, EndsAfter, ScriptOf, FateOf, TotalIn, TotalOut, AllSpent;
    }

    /** AgentLoop.run: one turn of the world for every step it may take. */
    method Run(turns: seq<Turn>) returns (stop: StopReason)
      requires |turns| == env.maxSteps && forall i :: 0 <= i < |turns| ==> GoodTurn(turns[i])
      requires AtRest() && stepsUsed == 0 && history == [] && usage == [] && messages == Opening(env) && yielded == []
      modifies this
      ensures stepsUsed <= |turns|
      ensures Completed(stop) && Lawful()
      ensures usage == AllSpent(turns[..stepsUsed])
      ensures stop == MaxSteps ==> stepsUsed == env.maxSteps
      ensures stop == FinalAnswer <==> 0 < stepsUsed && Answers(turns[stepsUsed - 1])
      ensures stop == FinalAnswer ==> answer == Some(AnswerOf(turns[stepsUsed - 1]))
      ensures stop == Cancelled ==> stepsUsed < env.maxSteps && turns[stepsUsed].cancelled
      ensures forall i :: 0 <= i < stepsUsed ==> !turns[i].cancelled
      ensures forall i :: 0 <= i < stepsUsed - 1 ==> !Answers(turns[i])
      ensures dropped != [] ==> stop == Error && 0 < stepsUsed && turns[stepsUsed - 1].outcome.Broke?
      ensures history == HistoryOf(env, turns[..stepsUsed]) && messages == TalkOf(env, turns[..stepsUsed])
      ensures StepsOn(yielded) == RecordsOf(env, turns[..stepsUsed])
      ensures forall i :: 0 <= i < stepsUsed - 1 ==> FateAt(env, turns, i).GoesOn?
      ensures 0 < stepsUsed && FateAt(env, turns, stepsUsed - 1).GoesOn? ==> stop == MaxSteps || stop == Cancelled
      ensures Blamed(env, turns, stepsUsed, stop, yielded)
      ensures RanOver(turns, stop)
    {
      hide Follow, TracksStreaks, TracksFailures, Signatures, NudgesSince, Down, Disciplined, AskedUnderGrammar,
        BelowCap;
      hide AssistantRows, TotalIn, TotalOut, Shown, Ran, Without;
      hide AllSpent, Spent, Answers, AnswerOf, LostOnly, NoteFor, Marker, GoodTurn, EndedBy, Completed;
      hide HistoryOf, TalkOf, RecordsOf, FateAt, Conduct, HistoryAfter, Shortened, StepsOn, Blamed, Blameless,
        FailedWith, ScriptOf, StepOf, EndsAfter, FateOf, RanOver, AtRest, Lawful;
      NothingSpent(turns[..0]);
      NoTurns(env, turns);
      for step := 0 to env.maxSteps
        invariant AtRest() && stepsUsed == step && (step == 0 ==> usage == [])
        invariant forall i :: 0 <= i < stepsUsed ==> !turns[i].cancelled && !Answers(turns[i])
        invariant usage == AllSpent(turns[..stepsUsed])
        invariant history == HistoryOf(env, turns[..stepsUsed]) && messages == TalkOf(env, turns[..stepsUsed])
        invariant StepsOn(yielded) == RecordsOf(env, turns[..stepsUsed])
        invariant forall i :: 0 <= i < stepsUsed ==> FateAt(env, turns, i).GoesOn?
        invariant Blameless(env, turns, stepsUsed)
        invariant yielded == ScriptOf(env, turns[..stepsUsed])
      {
        Resting();
        SpentSnoc(turns, step);
        TurnsSnoc(env, turns, step);
        Blame(env, turns, step);
        var ended := TakeStep(turns[step]);
        if ended.Some? {
          if turns[step].cancelled { NobodyBlamed(env, turns, step, Cancelled, yielded); }
          EndsHere(env, turns, step, ended.value, yielded);
          Assembled(turns, ended.value);
          return ended.value;
        }
      }
      Resting();
      GoneThrough(env, turns);
      StopRun(MaxSteps);
      NobodyBlamed(env, turns, stepsUsed, MaxSteps, yielded);
      Assembled(turns, MaxSteps);
      stop := MaxSteps;
    }
  }

  // --- the whole wire ------------------------------------------------------------------------

  /** What a generation has put on the wire when the loop is through with it: all of
      it, unless it raised, when whatever still waits is lost. */
  function GenerationOf(turn: Turn): seq<Event> {
    var w := RunAll(Start(turn.program), turn.schedule);
    w.yielded + (if turn.outcome.Answered? then w.pending else [])
  }

  /** The events of one step, short of an ending. */
  ghost function StepOf(env: Env, h: seq<Act>, taken: nat, turn: Turn): seq<Event> {
    if turn.cancelled then []
    else [AgentStep(taken + 1, env.maxSteps)] + GenerationOf(turn) + Conduct(env, h, turn).aired
  }

  lemma NoStep(env: Env, h: seq<Act>, taken: nat, turn: Turn, before: seq<Event>)
    ensures turn.cancelled ==> before + StepOf(env, h, taken, turn) == before
  {
  }

  lemma CancelledTurn(env: Env, h: seq<Act>, turn: Turn)
    requires turn.cancelled
    ensures Conduct(env, h, turn) == Deed([], QUIET, [], [], Ends(Cancelled)) && HistoryAfter(env, h, turn) == h
    ensures Spent(turn) == [] && !Answers(turn)
  {
  }

  lemma StepWire(env: Env, h: seq<Act>, taken: nat, turn: Turn, before: seq<Event>, coda: seq<Event>)
    requires !turn.cancelled
    ensures var w, aired := RunAll(Start(turn.program), turn.schedule), Conduct(env, h, turn).aired;
      before + [AgentStep(taken + 1, env.maxSteps)] + w.yielded + (if turn.outcome.Answered? then w.pending else [])
      + aired + coda == before + StepOf(env, h, taken, turn) + coda
  {
    hide RunAll, Start, Conduct;
    var w, aired := RunAll(Start(turn.program), turn.schedule), Conduct(env, h, turn).aired;
    var step, late := [AgentStep(taken + 1, env.maxSteps)], if turn.outcome.Answered? then w.pending else [];
    assert before + step + w.yielded + late + aired == before + (step + (w.yielded + late) + aired);
  }

  /** The events of a run over these turns, if it gets through them. */
  ghost function ScriptOf(env: Env, turns: seq<Turn>): seq<Event> {
    if turns == [] then []
    else
      var init := turns[..|turns| - 1];
      ScriptOf(env, init) + StepOf(env, HistoryOf(env, init), |init|, turns[|turns| - 1])
  }

  /** How a run that took `n` steps ended. */
  ghost function FateOf(env: Env, turns: seq<Turn>, n: nat, stop: StopReason): Fate
    requires n <= |turns|
  {
    if stop == MaxSteps || stop == Cancelled || n == 0 then Ends(stop) else FateAt(env, turns, n - 1)
  }

  /** The first turn that ends the run, or the number of turns if none does. */
  ghost function FirstEnd(env: Env, turns: seq<Turn>, from: nat): (n: nat)
    requires from <= |turns|
    ensures from <= n <= |turns| && (n < |turns| ==> !FateAt(env, turns, n).GoesOn?)
    ensures forall i :: from <= i < n ==> FateAt(env, turns, i).GoesOn?
    decreases |turns| - from
  {
    if from < |turns| && FateAt(env, turns, from).GoesOn? then FirstEnd(env, turns, from + 1) else from
  }

  /** How many steps are taken, and why the run stops, told by the turns alone. */
  ghost predicate EndsAfter(env: Env, turns: seq<Turn>, n: nat, stop: StopReason)
    requires n <= |turns|
  {
    var k := FirstEnd(env, turns, 0);
    if k == |turns| then n == k && stop == MaxSteps
    else match FateAt(env, turns, k)
      case GoesOn => false
      case Ends(reason) => stop == reason && n == if reason == Cancelled then k else k + 1
      case Fails(_, _) => stop == Error && n == k + 1
  }

  lemma {:induction false} EndIsAt(env: Env, turns: seq<Turn>, from: nat, k: nat)
    requires from <= k <= |turns| && forall i :: from <= i < k ==> FateAt(env, turns, i).GoesOn?
    requires k < |turns| ==> !FateAt(env, turns, k).GoesOn?
    ensures FirstEnd(env, turns, from) == k
    decreases k - from
  {
    if from < k { EndIsAt(env, turns, from + 1, k); }
  }

  lemma EndsHere(env: Env, turns: seq<Turn>, k: nat, stop: StopReason, events: seq<Event>)
    requires k < |turns| && forall i :: 0 <= i < k ==> FateAt(env, turns, i).GoesOn?
    requires Met(FateAt(env, turns, k), Some(stop), events)
    ensures var n := if turns[k].cancelled then k else k + 1;
      EndsAfter(env, turns, n, stop) && FateOf(env, turns, n, stop) == FateAt(env, turns, k)
  {
    hide FailedWith, HistoryOf, Judge;
    EndIsAt(env, turns, 0, k);
    FateShape(env, HistoryOf(env, turns[..k]), turns[k]);
  }

  lemma FateShape(env: Env, h: seq<Act>, turn: Turn)
    ensures var fate := Conduct(env, h, turn).fate;
      && (fate.Ends? ==> fate.reason == Cancelled || fate.reason == FinalAnswer)
      && (turn.cancelled <==> fate == Ends(Cancelled))
  {
  }

  lemma GoneThrough(env: Env, turns: seq<Turn>)
    requires forall i :: 0 <= i < |turns| ==> FateAt(env, turns, i).GoesOn?
    ensures EndsAfter(env, turns, |turns|, MaxSteps) && FateOf(env, turns, |turns|, MaxSteps) == Ends(MaxSteps)
  {
    hide FateAt;
    EndIsAt(env, turns, 0, |turns|);
  }

  /** Two courses of the world that differ in nothing but the order in which the
      generation task and the consumer advance; swap events come before tokens. */
  predicate SameBut(a: Turn, b: Turn) {
    && GoodProgram(a.program) && SwapsFirst(a.program)
    && b == a.(schedule := b.schedule)
  }

  predicate OnlySchedulesDiffer(a: seq<Turn>, b: seq<Turn>) {
    |a| == |b| && forall i :: 0 <= i < |a| ==> SameBut(a[i], b[i])
  }

  lemma StepBlind(env: Env, h: seq<Act>, taken: nat, a: Turn, b: Turn)
    requires SameBut(a, b)
    ensures Conduct(env, h, a) == Conduct(env, h, b) && StepOf(env, h, taken, a) == StepOf(env, h, taken, b)
    ensures Spent(a) == Spent(b)
  {
    WireFixed(a.program, a.schedule);
    WireFixed(a.program, b.schedule);
    hide RunAll, Start, GoodProgram, SwapsFirst, Swaps, Puts, TokenEvents, Respond;
    var v, w := RunAll(Start(a.program), a.schedule), RunAll(Start(a.program), b.schedule);
    assert v.yielded == w.yielded && v.pending == w.pending;
  }

  /** The schedules leave no trace: not in the history, not in the conversation,
      and not on the wire. */
  lemma {:induction false} ScheduleBlind(env: Env, a: seq<Turn>, b: seq<Turn>)
    requires OnlySchedulesDiffer(a, b)
    ensures HistoryOf(env, a) == HistoryOf(env, b) && TalkOf(env, a) == TalkOf(env, b)
    ensures RecordsOf(env, a) == RecordsOf(env, b) && ScriptOf(env, a) == ScriptOf(env, b)
    ensures AllSpent(a) == AllSpent(b)
  {
    if a != [] {
      var init, last := a[..|a| - 1], a[|a| - 1];
      ScheduleBlind(env, init, b[..|b| - 1]);
      StepBlind(env, HistoryOf(env, init), |init|, last, b[|b| - 1]);
      hide Conduct, StepOf, Spent, SameBut, Shortened;
    }
  }

  lemma FateBlind(env: Env, a: seq<Turn>, b: seq<Turn>, i: nat)
    requires OnlySchedulesDiffer(a, b) && i < |a|
    ensures FateAt(env, a, i) == FateAt(env, b, i)
  {
    ScheduleBlind(env, a[..i], b[..i]);
    StepBlind(env, HistoryOf(env, a[..i]), i, a[i], b[i]);
    hide Conduct, SameBut;
  }

  lemma EndBlind(env: Env, a: seq<Turn>, b: seq<Turn>, n: nat, m: nat, p: StopReason, q: StopReason)
    requires OnlySchedulesDiffer(a, b) && n <= |a| && m <= |b|
    requires EndsAfter(env, a, n, p) && EndsAfter(env, b, m, q)
    ensures n == m && p == q && FateOf(env, a, n, p) == FateOf(env, b, m, q)
  {
    hide FateAt, SameBut;
    forall i | 0 <= i < |a| ensures FateAt(env, a, i) == FateAt(env, b, i) { FateBlind(env, a, b, i); }
    EndIsAt(env, b, 0, FirstEnd(env, a, 0));
  }

  /** Two whole runs over such turns end at the same step for the same reason and
      have put the same events on the wire, one for one. */
  lemma SameWire(x: AgentLoop, y: AgentLoop, a: seq<Turn>, b: seq<Turn>, p: StopReason, q: StopReason)
    requires x.env == y.env && OnlySchedulesDiffer(a, b)
    requires x.RanOver(a, p) && y.RanOver(b, q)
    ensures p == q && x.stepsUsed == y.stepsUsed && x.yielded == y.yielded
  {
    hide EndsAfter, FateOf, ScriptOf, TotalIn, TotalOut, AllSpent, SameBut;
    var n := x.stepsUsed;
    EndBlind(x.env, a, b, n, y.stepsUsed, p, q);
    ScheduleBlind(x.env, a[..n], b[..n]);
  }

  lemma Twice(events: seq<Event>, a: Event, b: Event)
    ensures events + [a] + [b] == events + [a, b]
  {
  }

  function Spent(turn: Turn): seq<(nat, nat)> {
    if !turn.cancelled && turn.outcome.Answered? then [(turn.outcome.tokensIn, turn.outcome.tokensOut)] else []
  }

  /** The usage of every answered request, in order. */
  function AllSpent(turns: seq<Turn>): seq<(nat, nat)> {
    if turns == [] then [] else AllSpent(turns[..|turns| - 1]) + Spent(turns[|turns| - 1])
  }

  lemma NothingSpent(turns: seq<Turn>)
    requires turns == []
    ensures AllSpent(turns) == []
  {
  }

  lemma SpentSnoc(turns: seq<Turn>, i: nat)
    requires i < |turns|
    ensures AllSpent(turns[..i + 1]) == AllSpent(turns[..i]) + Spent(turns[i])
    ensures turns[i].cancelled ==> AllSpent(turns[..i]) + Spent(turns[i]) == AllSpent(turns[..i])
  {
    assert turns[..i + 1][..i] == turns[..i];
  }

  /** A turn in which the model gives its final answer. */
  predicate Answers(turn: Turn) {
    !turn.cancelled && turn.outcome.Answered? && turn.outcome.reply.Final?
  }

  function AnswerOf(turn: Turn): Answer
    requires Answers(turn)
  {
    Answer(turn.outcome.reply.text, Concat(Puts(turn.program)), turn.outcome.reply.streamed)
  }

  // --- what a run decides, told by the meaning of its history ------------------------------

  /** What becomes of the run after one turn. */
  datatype Fate = GoesOn | Ends(reason: StopReason) | Fails(code: Text, message: Text)

  /** What one turn comes to: the acts it adds to the history, what its step did
      with tools, what is said to the model, what goes on the wire once the generation
      is over, short of an ending, and the fate of the run. */
  datatype Deed = Deed(acts: seq<Act>, record: StepRecord, said: seq<Message>, aired: seq<Event>, fate: Fate)

  const QUIET: StepRecord := StepRecord(None, None)

  function Exchange(raw: Text, reply: Text): seq<Message> {
    [Message(Assistant, raw), Message(User, reply)]
  }

  function Opening(env: Env): seq<Message> {
    [Message(System, env.systemPrompt), Message(User, env.question)]
  }

  function Shortened(env: Env, messages: seq<Message>): seq<Message> {
    if OverThreshold(messages, env.context) then Compacted(messages) else messages
  }

  function SignatureOf(env: Env, call: Reply): Signature
    requires call.Call?
  {
    Signature(call.name, env.canon(call.args))
  }

  /** An execution, under the grammar without the tools known to be down. */
  function ExecutionOf(env: Env, h: seq<Act>, call: Reply, tool: ToolOutcome): Act
    requires call.Call?
  {
    Executed(SignatureOf(env, call), if env.grammarOn then Some(Without(env.registry, Down(h))) else None,
      tool.ok, !tool.ok && IsUnavailable(tool.error))
  }

  function RecordOf(call: Reply, tool: ToolOutcome): StepRecord
    requires call.Call?
  {
    StepRecord(Some(CallEvent(call)), Some(ResultEvent(call, tool)))
  }

  /** An executed call: a tool that is down is given up, one that has failed too
      often in a row ends the run, and any other result is handed to the model. */
  function After(env: Env, h: seq<Act>, call: Reply, tool: ToolOutcome): Deed
    requires call.Call?
  {
    var act := ExecutionOf(env, h, call, tool);
    var record := RecordOf(call, tool);
    var aired := ReportOf(call, tool);
    if act.down then Deed([act], record, Exchange(call.raw, env.say(ToolGone(call.name))), aired, GoesOn)
    else if Streak(h + [act], call.name) >= MAX_TOOL_RETRIES then
      Deed([act], record, [], aired,
        Fails(TOOL_RETRIES_EXCEEDED, env.complain(TOOL_RETRIES_EXCEEDED, call.name, tool.error)))
    else
      Deed([act], record, Exchange(call.raw, env.say(Observe(call.name, env.observe(call.name, tool)))), aired, GoesOn)
  }

  /** A call: a repeat of one of the last two executed that did not fail is nudged
      while nudges are left and ends the run after that; any other is executed. */
  ghost function Judge(env: Env, h: seq<Act>, call: Reply, tool: ToolOutcome): Deed
    requires call.Call?
  {
    var sig := SignatureOf(env, call);
    if !IsRepeat(h, sig) then After(env, h, call, tool)
    else if NudgesSince(h) < MAX_LOOP_NUDGES then
      Deed([Nudged(sig)], QUIET, Exchange(call.raw, env.say(DoNotRepeat(call.name))), [], GoesOn)
    else Deed([], QUIET, [], [], Fails(LOOP_DETECTED, env.complain(LOOP_DETECTED, call.name, None)))
  }

  ghost function Respond(env: Env, h: seq<Act>, reply: Reply, tool: ToolOutcome): Deed {
    match reply
    case Malformed(raw) => Deed([], QUIET, Exchange(raw, env.say(NotJson)), [], GoesOn)
    case Final(text, _, streamed) => Deed([], QUIET, [], Chunks(if streamed then [] else text), Ends(FinalAnswer))
    case Call(_, _, _, _) => Judge(env, h, reply, tool)
  }

  ghost function Conduct(env: Env, h: seq<Act>, turn: Turn): Deed {
    if turn.cancelled then Deed([], QUIET, [], [], Ends(Cancelled))
    else match turn.outcome
      case Broke(message) => Deed([], QUIET, [], [], Fails(LLM_ERROR, Take(message, 300)))
      case Answered(reply, _, _) => Respond(env, h, reply, turn.tool)
  }

  ghost function HistoryAfter(env: Env, h: seq<Act>, turn: Turn): seq<Act> { h + Conduct(env, h, turn).acts }

  /** The history a run builds up over these turns, if it gets through them. */
  ghost function HistoryOf(env: Env, turns: seq<Turn>): seq<Act> {
    if turns == [] then [] else HistoryAfter(env, HistoryOf(env, turns[..|turns| - 1]), turns[|turns| - 1])
  }

  /** The conversation it leads. */
  ghost function TalkOf(env: Env, turns: seq<Turn>): seq<Message> {
    if turns == [] then Opening(env)
    else
      var init := turns[..|turns| - 1];
      Shortened(env, TalkOf(env, init)) + Conduct(env, HistoryOf(env, init), turns[|turns| - 1]).said
  }

  /** What each of its steps does with tools. */
  ghost function RecordsOf(env: Env, turns: seq<Turn>): (records: seq<StepRecord>)
    ensures |records| == |turns|
  {
    if turns == [] then []
    else
      var init := turns[..|turns| - 1];
      RecordsOf(env, init) + [Conduct(env, HistoryOf(env, init), turns[|turns| - 1]).record]
  }

  ghost function FateAt(env: Env, turns: seq<Turn>, i: nat): Fate
    requires i < |turns|
  {
    Conduct(env, HistoryOf(env, turns[..i]), turns[i]).fate
  }

  lemma TurnsSnoc(env: Env, turns: seq<Turn>, i: nat)
    requires i < |turns|
    ensures var h, deed := HistoryOf(env, turns[..i]), Conduct(env, HistoryOf(env, turns[..i]), turns[i]);
      && HistoryOf(env, turns[..i + 1]) == HistoryAfter(env, h, turns[i])
      && TalkOf(env, turns[..i + 1]) == Shortened(env, TalkOf(env, turns[..i])) + deed.said
      && RecordsOf(env, turns[..i + 1]) == RecordsOf(env, turns[..i]) + [deed.record]
      && FateAt(env, turns, i) == deed.fate
      && ScriptOf(env, turns[..i + 1]) == ScriptOf(env, turns[..i]) + StepOf(env, h, i, turns[i])
      && (turns[i].cancelled ==> ScriptOf(env, turns[..i + 1]) == ScriptOf(env, turns[..i]))
      && (turns[i].cancelled ==> deed.acts == [] && deed.said == [] && HistoryAfter(env, h, turns[i]) == h)
  {
    assert turns[..i + 1][..i] == turns[..i];
  }

  lemma NoTurns(env: Env, turns: seq<Turn>)
    ensures ScriptOf(env, turns[..0]) == [] && HistoryOf(env, turns[..0]) == []
      && TalkOf(env, turns[..0]) == Opening(env)
    ensures RecordsOf(env, turns[..0]) == StepsOn([]) && Blameless(env, turns, 0)
  {
  }

  /** The steps so far, as the protocol reads them off the wire. */
  function StepsOn(events: seq<Event>): seq<StepRecord> {
    var p := Follow(events);
    if p.Some? then p.value.steps else []
  }

  function Written(steps: seq<StepRecord>, record: StepRecord): seq<StepRecord>
    requires steps != []
  {
    steps[|steps| - 1 := record]
  }

  /** The wire ends with this error and `done`. */
  predicate FailedWith(events: seq<Event>, code: Text, message: Text) {
    |events| >= 2 && events[|events| - 2] == AgentError(code, message, false)
  }

  predicate Met(fate: Fate, stop: Option<StopReason>, events: seq<Event>) {
    match fate
    case GoesOn => stop.None?
    case Ends(reason) => stop == Some(reason)
    case Fails(code, message) => stop == Some(Error) && FailedWith(events, code, message)
  }

  /** What the loop says, and whether and how it stops, are as the deed has it. */
  predicate Heeded(deed: Deed, before: seq<Message>, messages: seq<Message>, stop: Option<StopReason>,
    events: seq<Event>) {
    messages == before + deed.said && Met(deed.fate, stop, events)
  }

  /** The run ended with this error code. */
  predicate FellTo(stop: StopReason, events: seq<Event>, code: Text) {
    stop == Error && |events| >= 2 && events[|events| - 2].AgentError? && events[|events| - 2].code == code
  }

  /** Each fatal error is on the wire exactly when the last of the first `n` turns
      is its cause. */
  ghost predicate Blamed(env: Env, turns: seq<Turn>, n: nat, stop: StopReason, events: seq<Event>)
    requires n <= |turns|
  {
    && (FellTo(stop, events, LLM_ERROR) <==> n > 0 && !turns[n - 1].cancelled && turns[n - 1].outcome.Broke?)
    && (FellTo(stop, events, LOOP_DETECTED) <==> n > 0 && Loops(env, HistoryOf(env, turns[..n - 1]), turns[n - 1]))
    && (FellTo(stop, events, TOOL_RETRIES_EXCEEDED) <==>
      n > 0 && Exhausts(env, HistoryOf(env, turns[..n - 1]), turns[n - 1]))
  }

  predicate Asks(turn: Turn) {
    !turn.cancelled && turn.outcome.Answered? && turn.outcome.reply.Call?
  }

  /** A call that repeats one of the last two executed, which did not fail, right
      after a nudge. */
  ghost predicate Loops(env: Env, h: seq<Act>, turn: Turn) {
    Asks(turn) && h != [] && History.Last(h).Nudged? && IsRepeat(h, SignatureOf(env, turn.outcome.reply))
  }

  /** One more failure, not of its service, of a tool that has two in a row. */
  ghost predicate Exhausts(env: Env, h: seq<Act>, turn: Turn) {
    && Asks(turn) && !IsRepeat(h, SignatureOf(env, turn.outcome.reply))
    && !turn.tool.ok && !IsUnavailable(turn.tool.error)
    && |Counted(h, turn.outcome.reply.name)| == 2
  }

  lemma NudgedLast(h: seq<Act>)
    requires Disciplined(h)
    ensures NudgesSince(h) < MAX_LOOP_NUDGES <==> h == [] || History.Last(h).Executed?
  {
  }

  lemma ResultWeighs(env: Env, h: seq<Act>, call: Reply, tool: ToolOutcome)
    requires call.Call? && BelowCap(h)
    ensures var act, deed := ExecutionOf(env, h, call, tool), After(env, h, call, tool);
      && deed.acts == [act] && deed.record == RecordOf(call, tool) && deed.aired == ReportOf(call, tool)
      && (act.down ==> deed.fate == GoesOn && deed.said == Exchange(call.raw, env.say(ToolGone(call.name))))
      && (!act.down && !tool.ok && Streak(h, call.name) + 1 >= MAX_TOOL_RETRIES ==>
            deed.fate == Fails(TOOL_RETRIES_EXCEEDED, env.complain(TOOL_RETRIES_EXCEEDED, call.name, tool.error))
              && deed.said == [])
      && (!act.down && (tool.ok || Streak(h, call.name) + 1 < MAX_TOOL_RETRIES) ==>
            deed.fate == GoesOn
              && deed.said == Exchange(call.raw, env.say(Observe(call.name, env.observe(call.name, tool)))))
  {
    Snoc(h, ExecutionOf(env, h, call, tool));
  }

  lemma CodesDiffer()
    ensures LLM_ERROR != LOOP_DETECTED && LLM_ERROR != TOOL_RETRIES_EXCEEDED && LOOP_DETECTED != TOOL_RETRIES_EXCEEDED
  {
    assert |LLM_ERROR| == 9 && |LOOP_DETECTED| == 13 && |TOOL_RETRIES_EXCEEDED| == 21;
  }

  /** A repeat is fatal exactly right after a nudge. */
  lemma RepeatFatal(env: Env, h: seq<Act>, call: Reply, tool: ToolOutcome)
    requires Disciplined(h) && call.Call? && IsRepeat(h, SignatureOf(env, call))
    ensures var fate := Judge(env, h, call, tool).fate;
      if h != [] && History.Last(h).Nudged? then fate.Fails? && fate.code == LOOP_DETECTED else fate.GoesOn?
  {
    hide IsRepeat, Disciplined, NudgesSince, After;
    NudgedLast(h);
  }

  /** Anything else is fatal exactly when it is the failure too many. */
  lemma ResultFatal(env: Env, h: seq<Act>, call: Reply, tool: ToolOutcome)
    requires BelowCap(h) && call.Call? && !IsRepeat(h, SignatureOf(env, call))
    ensures var fate := Judge(env, h, call, tool).fate;
      if !tool.ok && !IsUnavailable(tool.error) && |Counted(h, call.name)| == 2
      then fate.Fails? && fate.code == TOOL_RETRIES_EXCEEDED else fate.GoesOn?
  {
    assert Streak(h, call.name) < MAX_TOOL_RETRIES;
    hide IsRepeat, BelowCap, Streak, After, IsUnavailable, Counted;
    StreakIs(h, call.name);
    ResultWeighs(env, h, call, tool);
  }

  /** Which turns are fatal, and with which code. */
  lemma FatalExactly(env: Env, h: seq<Act>, turn: Turn)
    requires Disciplined(h) && BelowCap(h)
    ensures var fate := Conduct(env, h, turn).fate;
      && (fate.Fails? ==> KnownCode(fate.code)) && (fate.Ends? ==> fate.reason != Error)
      && (fate.Fails? && fate.code == LLM_ERROR <==> !turn.cancelled && turn.outcome.Broke?)
      && (fate.Fails? && fate.code == LOOP_DETECTED <==> Loops(env, h, turn))
      && (fate.Fails? && fate.code == TOOL_RETRIES_EXCEEDED <==> Exhausts(env, h, turn))
  {
    CodesDiffer();
    hide LLM_ERROR, LOOP_DETECTED, TOOL_RETRIES_EXCEEDED, Disciplined, BelowCap, Streak, IsUnavailable, Signatures,
        LatestFailed, Judge;
    if Asks(turn) {
      var call, tool := turn.outcome.reply, turn.tool;
      if IsRepeat(h, SignatureOf(env, call)) { RepeatFatal(env, h, call, tool); } else { ResultFatal(env, h, call,
          tool); }
    }
  }

  /** The last of the first `n` turns causes no fatal error. */
  ghost predicate Blameless(env: Env, turns: seq<Turn>, n: nat)
    requires n <= |turns|
  {
    n > 0 ==>
      var h := HistoryOf(env, turns[..n - 1]);
      && (turns[n - 1].cancelled || !turns[n - 1].outcome.Broke?)
      && !Loops(env, h, turns[n - 1]) && !Exhausts(env, h, turns[n - 1])
  }

  lemma Blame(env: Env, turns: seq<Turn>, i: nat)
    requires i < |turns| && Disciplined(HistoryOf(env, turns[..i])) && BelowCap(HistoryOf(env, turns[..i]))
    ensures forall stop, events :: Met(FateAt(env, turns, i), Some(stop), events) ==>
      Blamed(env, turns, i + 1, stop, events)
    ensures FateAt(env, turns, i).GoesOn? ==> Blameless(env, turns, i + 1)
  {
    hide Conduct, HistoryOf, Loops, Exhausts;
    FatalExactly(env, HistoryOf(env, turns[..i]), turns[i]);
  }

  lemma NobodyBlamed(env: Env, turns: seq<Turn>, n: nat, stop: StopReason, events: seq<Event>)
    requires n <= |turns| && Blameless(env, turns, n) && stop != Error
    ensures Blamed(env, turns, n, stop, events)
  {
  }

  /** The header of loop.py says a repeated call aborts the run. A call that
      repeats one of the last two executed does so if and only if its latest
      execution succeeded and the act before was a nudge already. */
  lemma RepeatAborts(env: Env, h: seq<Act>, turn: Turn)
    requires Disciplined(h) && BelowCap(h) && Asks(turn)
    requires exists i :: Recent(h, i) && h[i].sig == SignatureOf(env, turn.outcome.reply)
    ensures var name := turn.outcome.reply.name;
      Conduct(env, h, turn).fate == Fails(LOOP_DETECTED, env.complain(LOOP_DETECTED, name, None)) <==>
      (forall k :: LatestOf(h, k, SignatureOf(env, turn.outcome.reply)) ==> h[k].ok) && History.Last(h).Nudged?
  {
    CodesDiffer();
    var call := turn.outcome.reply;
    if IsRepeat(h, SignatureOf(env, call)) {
      RepeatFatal(env, h, call, turn.tool);
    } else {
      ResultFatal(env, h, call, turn.tool);
    }
    hide LOOP_DETECTED, TOOL_RETRIES_EXCEEDED, Disciplined, BelowCap, Streak, IsUnavailable, LatestOf, Recent;
  }

  /** A call other than the two most recent executions is executed, with exactly its
      own arguments and outcome, and nothing else is. */
  lemma OtherCallRuns(env: Env, h: seq<Act>, turn: Turn)
    requires Asks(turn)
    requires forall i :: 0 <= i < |h| && h[i].Executed? && h[i].sig == SignatureOf(env, turn.outcome.reply) ==>
      exists a, b :: i < a < b < |h| && h[a].Executed? && h[b].Executed?
    ensures var call, tool, deed := turn.outcome.reply, turn.tool, Conduct(env, h, turn);
      && |deed.acts| == 1 && deed.acts[0].Executed? && deed.acts[0].sig == Signature(call.name, env.canon(call.args))
      && deed.acts[0].ok == tool.ok && deed.acts[0].down == (!tool.ok && IsUnavailable(tool.error))
      && deed.acts[0].offered ==
        (if env.grammarOn then Some(Without(env.registry, Down(h))) else None)
      && deed.record == StepRecord(Some(ToolCall(call.callId, call.name, call.args)),
                                   Some(ToolResult(call.callId, tool.ok, Summary(tool), tool.durationMs, tool.spilled)))
      && deed.aired == [deed.record.call.value, deed.record.result.value]
           + (if call.name == Lit("search_documents") && tool.ok
              then if |tool.citations| <= 5 then tool.citations else tool.citations[..5] else [])
           + tool.artifacts
  {
    var sig := SignatureOf(env, turn.outcome.reply);
    forall i | 0 <= i < |h| && h[i].Executed? && h[i].sig == sig ensures !Recent(h, i) { NotRecent(h, i); }
    assert !exists i :: Recent(h, i) && h[i].sig == sig;
    hide Recent, LatestOf, Streak, Summary, Without, IsUnavailable, Lit;
  }

  lemma NotRecent(h: seq<Act>, i: nat)
    requires exists a, b :: i < a < b < |h| && h[a].Executed? && h[b].Executed?
    ensures !Recent(h, i)
  {
  }

  /** A call that is one of the two most recent executions again is executed if it
      last failed; if not, it is answered by a nudge, with nothing executed and
      nothing on the wire, unless the act before was one. */
  lemma RepeatedCall(env: Env, h: seq<Act>, turn: Turn)
    requires Asks(turn) && Disciplined(h)
    requires exists i :: Recent(h, i) && h[i].sig == SignatureOf(env, turn.outcome.reply)
    ensures var sig, deed := SignatureOf(env, turn.outcome.reply), Conduct(env, h, turn);
      if exists k :: LatestOf(h, k, sig) && !h[k].ok
      then |deed.acts| == 1 && deed.acts[0].Executed? && deed.acts[0].sig == sig
      else
        && deed.record == QUIET && deed.aired == []
        && deed.acts == (if History.Last(h).Nudged? then [] else [Nudged(sig)])
  {
    NudgedLast(h);
    hide Recent, LatestOf, Streak, Disciplined, NudgesSince, Without, IsUnavailable, RecordOf;
  }

  /** The same call again and again, always with success: executed, nudged, and
      only then the end. */
  lemma RepeatSurvives(env: Env, turn: Turn)
    requires Asks(turn) && turn.tool.ok
    ensures var turns := [turn, turn, turn];
      && FateAt(env, turns, 0).GoesOn? && FateAt(env, turns, 1).GoesOn?
      && FateAt(env, turns, 2).Fails? && FateAt(env, turns, 2).code == LOOP_DETECTED
  {
    hide Conduct, Streak, Without, Down, TalkOf, RecordsOf, StepsOn, IsUnavailable;
    var turns := [turn, turn, turn];
    var first := ExecutionOf(env, [], turn.outcome.reply, turn.tool);
    assert HistoryOf(env, turns[..0]) == [];
    ThirdTime(env, turn);
    TurnsSnoc(env, turns, 0);
    TurnsSnoc(env, turns, 1);
    assert [] + [first] == [first] && [first] + [Nudged(first.sig)] == [first, Nudged(first.sig)];
  }

  lemma ThirdTime(env: Env, turn: Turn)
    requires Asks(turn) && turn.tool.ok
    ensures var first := ExecutionOf(env, [], turn.outcome.reply, turn.tool);
      && Conduct(env, [], turn).acts == [first] && Conduct(env, [], turn).fate.GoesOn?
      && Conduct(env, [first], turn).acts == [Nudged(first.sig)] && Conduct(env, [first], turn).fate.GoesOn?
      && Conduct(env, [first, Nudged(first.sig)], turn).fate.Fails?
      && Conduct(env, [first, Nudged(first.sig)], turn).fate.code == LOOP_DETECTED
  {
    hide Without, Down, IsUnavailable;
    var first := ExecutionOf(env, [], turn.outcome.reply, turn.tool);
    var again := Nudged(first.sig);
    assert Streak([] + [first], first.sig.name) == 0 by { Snoc([], first); }
    assert Init([first]) == [] && Init([first, again]) == [first];
    OneBefore([first], 0);
    OneBefore([first, again], 0);
  }

  lemma OneBefore(h: seq<Act>, i: nat)
    requires i < |h| && h[i].Executed? && h[i].ok && forall m :: 0 <= m < |h| && m != i ==> h[m].Nudged?
    ensures IsRepeat(h, h[i].sig)
  {
    assert Recent(h, i);
  }

  lemma CompactConverses(messages: seq<Message>)
    requires |messages| >= 2 && messages[0].role.System? && messages[1].role.User?
    ensures var c := Compacted(messages); |c| >= 2 && c[0] == messages[0] && c[1] == messages[1]
  {
  }

  lemma SwapsFollow(events: seq<Event>, swaps: seq<Event>)
    requires Follow(events).Some? && Follow(events).value.phase.Generating? && SwapsOnly(swaps)
    ensures Follow(events + swaps) == Follow(events)
  {
    FollowGeneration(events, swaps);
    NoTokens(swaps);
    var p := Follow(events).value;
    assert p.bubble + [] == p.bubble && p.stepText + [] == p.stepText;
  }

  lemma {:induction false} NoTokens(swaps: seq<Event>)
    requires SwapsOnly(swaps)
    ensures TokenText(swaps) == []
  {
    if swaps != [] { NoTokens(swaps[..|swaps| - 1]); }
  }

  lemma FreshShown(canon: seq<(Text, Value)> -> Text, steps: seq<StepRecord>)
    ensures Shown(canon, steps + [StepRecord(None, None)]) == Shown(canon, steps)
  {
    assert (steps + [StepRecord(None, None)])[..|steps|] == steps;
    assert Shown(canon, steps) + [] == Shown(canon, steps);
  }

  lemma {:induction false} TokenTextIs(events: seq<Event>)
    ensures TokenText(events) == Concat(TokensIn(events))
  {
    if events != [] {
      var init, last := events[..|events| - 1], events[|events| - 1];
      TokenTextIs(init);
      ConcatAppend(TokensIn(init), [[]]);
      assert TokenText(init) + [] == TokenText(init) && TokensIn(init) + [] == TokensIn(init);
      if last.Token? {
        ConcatAppend(TokensIn(init), [last.text]);
        assert [last.text][1..] == [] && last.text + [] == last.text;
      }
    }
  }

  /** A step event and a generation, in the protocol. */
  lemma StepFollows(events: seq<Event>, ev: Event, program: seq<Produce>, schedule: seq<bool>)
    requires Follow(events).Some? && GoodProgram(program)
    requires var p := Follow(events).value;
      && (p.phase.Idle? || p.phase.Generating? || p.phase.Reported?)
      && ev.AgentStep? && ev.step == |p.steps| + 1 && ev.step <= ev.maxSteps
    ensures var p := Follow(events).value;
      var w := RunAll(Start(program), schedule);
      && w.audited == w.yielded + w.pending && SwapsOnly(w.pending)
      && Follow(events + [ev] + w.yielded) == Some(Progress(Generating, p.steps + [StepRecord(None, None)],
           p.bubble + Concat(Puts(program)), Concat(Puts(program)), p.done))
  {
    EveryInterleaving(program, schedule);
    var w := RunAll(Start(program), schedule);
    FollowSnoc(events, ev);
    FollowGeneration(events + [ev], w.yielded);
    TokenTextIs(w.yielded);
    assert [] + Concat(Puts(program)) == Concat(Puts(program));
  }

  lemma NudgedLawful(h: seq<Act>, sig: Signature, registry: seq<Text>, grammarOn: bool)
    requires Disciplined(h) && BelowCap(h) && IsRepeat(h, sig)
    requires grammarOn ==> AskedUnderGrammar(h, registry)
    ensures NudgesSince(h) < MAX_LOOP_NUDGES ==> Disciplined(h + [Nudged(sig)])
    ensures grammarOn ==> AskedUnderGrammar(h + [Nudged(sig)], registry)
    ensures Ran(h + [Nudged(sig)]) == Ran(h)
    ensures BelowCap(h + [Nudged(sig)])
  {
    Snoc(h, Nudged(sig));
    CapSnoc(h, Nudged(sig));
    assert Ran(h) + [] == Ran(h);
    if grammarOn { AskedSnoc(h, Nudged(sig), registry); }
  }

  lemma Verdict(failStreak: map<Text, nat>, h: seq<Act>, act: Act)
    requires BelowCap(h) && TracksStreaks(failStreak, h) && act.Executed? && (act.down ==> !act.ok)
    ensures StreakIn(failStreak, act.sig.name) == Streak(h, act.sig.name)
    ensures act.down ==> BelowCap(h + [act]) && TracksStreaks(failStreak, h + [act])
    ensures !act.down ==>
      var after := failStreak[act.sig.name := if act.ok then 0 else StreakIn(failStreak, act.sig.name) + 1];
      && TracksStreaks(after, h + [act])
      && (BelowCap(h + [act]) <==> act.ok || StreakIn(after, act.sig.name) < MAX_TOOL_RETRIES)
  {
    StreaksSnoc(failStreak, h, act);
    Snoc(h, act);
    assert StreakIn(failStreak, act.sig.name) == Streak(h, act.sig.name) < MAX_TOOL_RETRIES;
    if Streak(h + [act], act.sig.name) < MAX_TOOL_RETRIES { CapSnoc(h, act); }
  }

  lemma ExecutedLawful(h: seq<Act>, act: Act, registry: seq<Text>, grammarOn: bool)
    requires Disciplined(h) && BelowCap(h) && act.Executed? && !IsRepeat(h, act.sig) && (act.down ==> !act.ok)
    requires grammarOn ==> AskedUnderGrammar(h, registry) && act.offered == Some(Without(registry, Down(h)))
    ensures Disciplined(h + [act]) && (grammarOn ==> AskedUnderGrammar(h + [act], registry))
    ensures Signatures(h + [act]) == Signatures(h) + [act.sig] && NudgesSince(h + [act]) == 0
    ensures Down(h + [act]) == Down(h) + (if act.down then {act.sig.name} else {})
    ensures Ran(h + [act]) == Ran(h) + [(act.sig, act.ok)]
  {
    Snoc(h, act);
    if grammarOn { AskedSnoc(h, act, registry); }
  }

  lemma {:induction false} ShownWritten(canon: seq<(Text, Value)> -> Text, steps: seq<StepRecord>, call: Reply,
                                        tool: ToolOutcome)
    requires call.Call? && steps != [] && steps[|steps| - 1].call.None?
    ensures Shown(canon, Written(steps, RecordOf(call, tool))) ==
      Shown(canon, steps) + [(Signature(call.name, canon(call.args)), tool.ok)]
  {
    var init := steps[..|steps| - 1];
    assert Written(steps, RecordOf(call, tool))[..|steps| - 1] == init;
    assert Shown(canon, init) + [] == Shown(canon, init);
  }

  predicate GoodTool(tool: ToolOutcome) {
    && (forall i :: 0 <= i < |tool.citations| ==> tool.citations[i].Citation?)
    && (forall i :: 0 <= i < |tool.artifacts| ==> tool.artifacts[i].Artifact?)
  }

  function CallEvent(call: Reply): Event
    requires call.Call?
  {
    ToolCall(call.callId, call.name, call.args)
  }

  function ResultEvent(call: Reply, tool: ToolOutcome): Event
    requires call.Call?
  {
    ToolResult(call.callId, tool.ok, Summary(tool), tool.durationMs, tool.spilled)
  }

  /** _citations_from: only a successful search cites, and at most five hits. */
  function CitationsFrom(name: Text, tool: ToolOutcome): seq<Event> {
    if name != Lit("search_documents") || !tool.ok then [] else Take(tool.citations, 5)
  }

  /** Everything one executed call puts on the wire. */
  function ReportOf(call: Reply, tool: ToolOutcome): seq<Event>
    requires call.Call?
  {
    [CallEvent(call), ResultEvent(call, tool)] + CitationsFrom(call.name, tool) + tool.artifacts
  }

  lemma CallFollows(events: seq<Event>, asked: Event, told: Event)
    requires Follow(events).Some? && asked.ToolCall? && told.ToolResult? && told.callId == asked.callId
    requires var p := Follow(events).value; p.phase.Generating? && p.steps != []
    ensures var p := Follow(events).value;
      Follow(events + [asked] + [told]) ==
      Some(p.(phase := Reported, steps := p.steps[|p.steps| - 1 := StepRecord(Some(asked), Some(told))]))
  {
    FollowSnoc(events, asked);
    FollowSnoc(events + [asked], told);
    var p := Follow(events).value;
    var l := |p.steps| - 1;
    assert p.steps[l := StepRecord(Some(asked), None)][l := StepRecord(Some(asked), Some(told))] ==
      p.steps[l := StepRecord(Some(asked), Some(told))];
  }

  /** What was executed, by the history and by the wire. */
  function Ran(h: seq<Act>): seq<(Signature, bool)> {
    if h == [] then []
    else Ran(Init(h)) + (if History.Last(h).Executed? then [(History.Last(h).sig, History.Last(h).ok)] else [])
  }

  function Shown(canon: seq<(Text, Value)> -> Text, steps: seq<StepRecord>): seq<(Signature, bool)> {
    if steps == [] then []
    else
      var last := steps[|steps| - 1];
      Shown(canon, steps[..|steps| - 1])
      + (if last.call.Some? && last.call.value.ToolCall? && last.result.Some? && last.result.value.ToolResult?
         then [(Signature(last.call.value.name, canon(last.call.value.args)), last.result.value.ok)] else [])
  }

  // --- endings, on values ------------------------------------------------------------------

  ghost predicate EndedBy(events: seq<Event>, done: Event)
    requires done.Done?
  {
    && Follow(events).Some? && Follow(events).value.phase.Ended?
    && Follow(events).value.done == Some(done)
    && |Follow(events).value.steps| == done.stepsUsed
  }

  lemma DoneFollows(events: seq<Event>, done: Event)
    requires Follow(events).Some? && done.Done? && done.stepsUsed == |Follow(events).value.steps|
    requires var ph := Follow(events).value.phase;
      !ph.Called? && !ph.Ended? && (ph.Failed? <==> done.stopReason == Error)
    ensures Follow(events + [done]) == Some(Follow(events).value.(phase := Events.Ended, done := Some(done)))
  {
    FollowSnoc(events, done);
  }

  lemma ErrorFollows(events: seq<Event>, error: Event, done: Event)
    requires Follow(events).Some? && done.Done? && done.stepsUsed == |Follow(events).value.steps|
    requires var ph := Follow(events).value.phase; ph.Generating? || ph.Reported?
    requires error.AgentError? && !error.recoverable && done.stopReason == Error
    ensures Follow(events + [error] + [done]) == Some(Follow(events).value.(phase := Events.Ended, done := Some(done)))
  {
    FollowSnoc(events, error);
    DoneFollows(events + [error], done);
  }

  lemma ChunksFollow(events: seq<Event>, text: Text)
    requires Follow(events).Some? && Follow(events).value.phase.Generating?
    ensures forall i :: 0 <= i < |Chunks(text)| ==> !Chunks(text)[i].AgentError?
    ensures Follow(events + Chunks(text)) == Some(Follow(events).value.(
        bubble := Follow(events).value.bubble + text, stepText := Follow(events).value.stepText + text))
  {
    ChunksSpell(text);
    FollowGeneration(events, Chunks(text));
  }

  /** The audit log and the wire differ at most by swap events that stood right
      before the error that ended the run. */
  ghost predicate LostOnly(audited: seq<Event>, yielded: seq<Event>, dropped: seq<Event>, reason: StopReason) {
    && SwapsOnly(dropped)
    && (dropped == [] ==> audited == yielded)
    && (dropped != [] ==>
          && reason == Error && |yielded| >= 2
          && yielded[|yielded| - 2].AgentError? && yielded[|yielded| - 2].code == LLM_ERROR
          && audited == yielded[..|yielded| - 2] + dropped + yielded[|yielded| - 2..])
  }

  lemma SwapsLost(yielded: seq<Event>, dropped: seq<Event>, error: Event, done: Event)
    requires SwapsOnly(dropped) && error.AgentError?
    requires dropped != [] ==> error.code == LLM_ERROR
    ensures LostOnly(yielded + dropped + [error] + [done], yielded + [error] + [done], dropped, Error)
  {
    var y := yielded + [error] + [done];
    assert y[..|y| - 2] == yielded && y[|y| - 2..] == [error] + [done];
    assert yielded + dropped + [error] + [done] == yielded + dropped + ([error] + [done]);
    assert yielded + [] == yielded;
  }

  /** Chunking loses nothing. */
  lemma {:induction false} ChunksSpell(text: Text)
    ensures TokenText(Chunks(text)) == text
    ensures IsGeneration(Chunks(text)) && forall i :: 0 <= i < |Chunks(text)| ==> Chunks(text)[i].Token?
    decreases |text|
  {
    if text != [] {
      ChunksSpell(AfterTake(text));
      TokenTextCons(Token(Take(text, TOKEN_CHUNK_CHARS)), Chunks(AfterTake(text)));
      TakeRest(text);
    }
  }

  lemma {:induction false} ChunkCount(text: Text)
    ensures 48 * |Chunks(text)| - 48 < |text| <= 48 * |Chunks(text)|
    decreases |text|
  {
    if text != [] { ChunkCount(AfterTake(text)); }
  }

  /** The pieces have 48 characters, the last one what is left; there is no empty one. */
  lemma {:induction false} ChunksAre(text: Text, i: nat)
    requires i < |Chunks(text)|
    ensures 48 * i < |text| <= 48 * |Chunks(text)|
    ensures Chunks(text)[i] == Token(text[48 * i..if 48 * i + 48 <= |text| then 48 * i + 48 else |text|])
    decreases i
  {
    ChunkCount(text);
    if i > 0 {
      ChunksAre(AfterTake(text), i - 1);
      SliceBehind(text, i);
    }
  }

  lemma SliceBehind(text: Text, i: nat)
    requires i > 0 && 48 * i < |text|
    ensures var rest, j := text[48..], 48 * (i - 1);
      rest[j..if j + 48 <= |rest| then j + 48 else |rest|]
        == text[48 * i..if 48 * i + 48 <= |text| then 48 * i + 48 else |text|]
  {
  }

  // --- the small decisions, character by character -------------------------------------------

  /** What a result event says of a result: the first 200 characters of its content,
      or of its error when it has none. */
  lemma SummaryIs(r: ToolOutcome)
    ensures var said := if r.content == [] && r.error.Some? then r.error.value else r.content;
      Summary(r) <= said && |Summary(r)| == if |said| > 200 then 200 else |said|
  {
  }

  /** The row a run without an answer leaves in the transcript. */
  lemma MarkerIs(env: Env, note: Text, error: Event)
    requires error.AgentError?
    ensures NoteFor(env, MaxSteps, []) ==
      Lit("gave up after ") + env.decimal(env.maxSteps) + Lit(" steps without a final answer")
    ensures NoteFor(env, Cancelled, []) == Lit("stopped by the user")
    ensures NoteFor(env, StopReason.Error, ErrorText(error)) == error.code + Lit(": ") + error.message
    ensures Marker(MaxSteps, note) == Lit("[stopped: max_steps] ") + note
    ensures Marker(StopReason.Error, note) == Lit("[stopped: error] ") + note
    ensures Marker(Cancelled, note) == Lit("[stopped: cancelled] ") + note
    ensures Marker(FinalAnswer, note) == Lit("[stopped: final_answer] ") + note
  {
    ErrorSpeaks(error);
    assert Lit("[stopped: ") + Lit("max_steps") + Lit("] ") == Lit("[stopped: max_steps] ");
    assert Lit("[stopped: ") + Lit("error") + Lit("] ") == Lit("[stopped: error] ");
    assert Lit("[stopped: ") + Lit("cancelled") + Lit("] ") == Lit("[stopped: cancelled] ");
    assert Lit("[stopped: ") + Lit("final_answer") + Lit("] ") == Lit("[stopped: final_answer] ");
  }

  /** `w`, a small letter or a blank, in some case. */
  ghost predicate Spells(c: Code, w: Code) {
    c == w || (w != SPACE && c == w - 0x20) || (w == 'k' as int && c == 0x212A)
  }

  ghost predicate SpelledAt(s: Text, w: Text, i: int) {
    0 <= i && i + |w| <= |s| && forall j :: 0 <= j < |w| ==> Spells(s[i + j], w[j])
  }

  ghost predicate Small(w: Text) { forall j :: 0 <= j < |w| ==> w[j] == SPACE || 0x61 <= w[j] <= 0x7A }

  lemma SpelledNext(s: Text, w: Text, i: int)
    requires i > 0 && s != []
    ensures SpelledAt(s, w, i) <==> SpelledAt(s[1..], w, i - 1)
  {
    hide Spells;
    if i + |w| <= |s| {
      forall j | 0 <= j < |w| ensures Spells(s[1..][i - 1 + j], w[j]) <==> Spells(s[i + j], w[j]) {
        assert s[1..][i - 1 + j] == s[i + j];
      }
    }
  }

  lemma FrontSpelled(s: Text, w: Text)
    requires Small(w) && |w| <= |s|
    ensures LowersTo(s[..|w|], w) <==> SpelledAt(s, w, 0)
  {
    var front := s[..|w|];
    forall j | 0 <= j < |w| ensures LowerCode(front[j]) == w[j] <==> Spells(s[0 + j], w[j]) {
      assert front[j] == s[j];
    }
    hide LowerCode, Spells;
  }

  lemma {:induction false} ContainsIs(s: Text, w: Text)
    requires Small(w)
    ensures Contains(s, w) <==> exists i :: SpelledAt(s, w, i)
  {
    SpelledInside(s, w);
    if |w| <= |s| {
      FrontSpelled(s, w);
      hide SpelledAt, LowersTo, Small;
      if s != [] {
        ContainsIs(s[1..], w);
        SpelledInside(s[1..], w);
        if i :| SpelledAt(s, w, i) && i > 0 { SpelledNext(s, w, i); }
        if i :| SpelledAt(s[1..], w, i) { SpelledNext(s, w, i + 1); }
      }
    }
  }

  lemma SpelledInside(s: Text, w: Text)
    ensures forall i :: SpelledAt(s, w, i) ==> 0 <= i && i + |w| <= |s|
  {
  }

  lemma MarkersSmall()
    ensures Small(Lit("sandbox unavailable")) && Small(Lit("docker unavailable"))
    ensures Small(Lit("ragsvc unreachable")) && Small(Lit("docker sdk not installed"))
  {
  }

  /** A failed tool counts as down exactly when its error has one of four phrases in
      it, in whatever case. */
  lemma UnavailableIs(error: Option<Text>)
    ensures error.None? ==> !IsUnavailable(error)
    ensures error.Some? ==> (IsUnavailable(error) <==>
      exists i, w :: (SpelledAt(error.value, w, i)
        && w in [Lit("sandbox unavailable"), Lit("docker unavailable"), Lit("ragsvc unreachable"),
                 Lit("docker sdk not installed")]))
  {
    if error.Some? {
      MarkersSmall();
      hide Lit, Small, SpelledAt, Contains;
      var ws := [Lit("sandbox unavailable"), Lit("docker unavailable"), Lit("ragsvc unreachable"),
                 Lit("docker sdk not installed")];
      assert UNAVAILABLE_MARKERS == ws;
      forall k | 0 <= k < 4 ensures Contains(error.value, ws[k]) <==> exists i :: SpelledAt(error.value, ws[k], i) {
        ContainsIs(error.value, ws[k]);
      }
      if i, w :| SpelledAt(error.value, w, i) && w in ws {
        var k :| 0 <= k < 4 && ws[k] == w;
        assert Contains(error.value, UNAVAILABLE_MARKERS[k]);
      }
      if IsUnavailable(error) {
        var k :| 0 <= k < 4 && Contains(error.value, UNAVAILABLE_MARKERS[k]);
        var i :| SpelledAt(error.value, ws[k], i);
        assert ws[k] in ws;
      }
    }
  }

  lemma {:induction false} TokenTextCons(ev: Event, events: seq<Event>)
    ensures TokenText([ev] + events) == (if ev.Token? then ev.text else []) + TokenText(events)
  {
    var all := [ev] + events;
    if events == [] {
      assert all[..|all| - 1] == [];
      assert [] + (if ev.Token? then ev.text else []) == (if ev.Token? then ev.text else []) + [];
    } else {
      var init := events[..|events| - 1];
      assert all[..|all| - 1] == [ev] + init && all[|all| - 1] == events[|events| - 1];
      TokenTextCons(ev, init);
      var last := events[|events| - 1];
      var t := if last.Token? then last.text else [];
      assert ((if ev.Token? then ev.text else []) + TokenText(init)) + t ==
        (if ev.Token? then ev.text else []) + (TokenText(init) + t);
    }
  }

  function TotalIn(usage: seq<(nat, nat)>): nat {
    if usage == [] then 0 else TotalIn(usage[..|usage| - 1]) + usage[|usage| - 1].0
  }

  function TotalOut(usage: seq<(nat, nat)>): nat {
    if usage == [] then 0 else TotalOut(usage[..|usage| - 1]) + usage[|usage| - 1].1
  }

  lemma TotalsSnoc(usage: seq<(nat, nat)>, u: (nat, nat))
    ensures TotalIn(usage + [u]) == TotalIn(usage) + u.0 && TotalOut(usage + [u]) == TotalOut(usage) + u.1
  {
    assert (usage + [u])[..|usage|] == usage;
  }
}
