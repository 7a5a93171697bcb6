/** The twelve contract events (contracts/contracts/events.py) and the protocol a
    run of the agent loop speaks in them. The protocol is stated on its own, as
    an acceptor that reads one event at a time; the loop and the reducer are each
    proved against it. */
module Events {
  import opened Codes
  import opened Json

  datatype StopReason = FinalAnswer | MaxSteps | Error | Cancelled

  datatype Event =
    | SessionStart(sessionId: Text)
    | RouterDecision(routedTo: Text)
    | ModelLoading(modelId: Text, evicting: Option<Text>, etaS: int)
    | ModelReady(modelId: Text, loadMs: int, vramMb: int)
    | AgentStep(step: int, maxSteps: int)
    | Token(text: Text)
    | ToolCall(callId: Text, name: Text, args: seq<(Text, Value)>)
    | ToolResult(callId: Text, ok: bool, summary: Text, durationMs: int, truncated: bool)
    | Citation(docId: Text, filename: Text, page: int, snippet: Text)
    | Artifact(artifactId: Text, artifactName: Text)
    | AgentError(code: Text, message: Text, recoverable: bool)
    | Done(stopReason: StopReason, stepsUsed: int, tokensIn: int, tokensOut: int, latencyMs: int)

  predicate IsSwap(ev: Event) { ev.ModelLoading? || ev.ModelReady? }

  predicate IsSideEffect(ev: Event) { ev.Citation? || ev.Artifact? }

  // --- the protocol --------------------------------------------------------------------

  /** What one step of the run did with tools, if anything. */
  datatype StepRecord = StepRecord(call: Option<Event>, result: Option<Event>)

  datatype Phase = Idle | Generating | Called | Reported | Failed | Ended

  /** What a reader of the events so far knows: where in a step the run is, what
      each step did, and the token texts of the run and of the current step. */
  datatype Progress = Progress(phase: Phase, steps: seq<StepRecord>, bubble: Text, stepText: Text, done: Option<Event>)

  const START: Progress := Progress(Idle, [], [], [], None)

  function Latest(p: Progress): StepRecord
    requires p.steps != []
  {
    p.steps[|p.steps| - 1]
  }

  function WithLatest(p: Progress, r: StepRecord): Progress
    requires p.steps != []
  {
    p.(steps := p.steps[|p.steps| - 1 := r])
  }

  /** One event. None is a breach: a step out of turn, a call without its result
      or a result that is not its own, an error that is not the last thing before
      `done`, an error reason without an error, a step count that is not true,
      anything after `done`. */
  function Next(p: Progress, ev: Event): Option<Progress> {
    match ev
    case AgentStep(step, maxSteps) =>
      if (p.phase.Idle? || p.phase.Generating? || p.phase.Reported?) && step == |p.steps| + 1 && step <= maxSteps
      then Some(p.(phase := Generating, steps := p.steps + [StepRecord(None, None)], stepText := []))
      else None
    case Token(text) =>
      if p.phase.Generating? then Some(p.(bubble := p.bubble + text, stepText := p.stepText + text)) else None
    case ModelLoading(_, _, _) => if p.phase.Generating? then Some(p) else None
    case ModelReady(_, _, _) => if p.phase.Generating? then Some(p) else None
    case ToolCall(_, _, _) =>
      if p.phase.Generating? && p.steps != []
      then Some(WithLatest(p, StepRecord(Some(ev), None)).(phase := Called)) else None
    case ToolResult(callId, _, _, _, _) =>
      if p.phase.Called? && p.steps != [] && Latest(p).call.Some? && Latest(p).call.value.ToolCall?
         && Latest(p).call.value.callId == callId
      then Some(WithLatest(p, Latest(p).(result := Some(ev))).(phase := Reported)) else None
    case Citation(_, _, _, _) => if p.phase.Reported? then Some(p) else None
    case Artifact(_, _) => if p.phase.Reported? then Some(p) else None
    case AgentError(_, _, recoverable) =>
      if (p.phase.Generating? || p.phase.Reported?) && !recoverable then Some(p.(phase := Failed)) else None
    case Done(reason, stepsUsed, _, _, _) =>
      if (p.phase.Idle? || p.phase.Generating? || p.phase.Reported? || p.phase.Failed?)
         && (reason == Error <==> p.phase.Failed?) && stepsUsed == |p.steps|
      then Some(p.(phase := Ended, done := Some(ev))) else None
    case _ => None
  }

  /** The protocol state after a whole sequence of events, if none is a breach. */
  function Follow(events: seq<Event>): Option<Progress> {
    if events == [] then Some(START)
    else
      match Follow(events[..|events| - 1])
      case None => None
      case Some(p) => Next(p, events[|events| - 1])
  }

  lemma FollowSnoc(events: seq<Event>, ev: Event)
    ensures Follow(events + [ev]) == match Follow(events) case None => None case Some(p) => Next(p, ev)
  {
    assert (events + [ev])[..|events|] == events;
  }

  function TokenText(events: seq<Event>): Text {
    if events == [] then []
    else TokenText(events[..|events| - 1]) + (if events[|events| - 1].Token? then events[|events| - 1].text else [])
  }

  /** Swap events and tokens only: what a generation may put on the wire. */
  predicate IsGeneration(events: seq<Event>) {
    forall i :: 0 <= i < |events| ==> IsSwap(events[i]) || events[i].Token?
  }

  /** The progress after more text. */
  function Heard(p: Progress, text: Text): Progress { p.(bubble := p.bubble + text, stepText := p.stepText + text) }

  lemma NextGeneration(p: Progress, ev: Event)
    requires p.phase.Generating? && (IsSwap(ev) || ev.Token?)
    ensures Next(p, ev) == Some(Heard(p, if ev.Token? then ev.text else []))
  {
    assert p.bubble + [] == p.bubble && p.stepText + [] == p.stepText;
  }

  lemma HeardTwice(p: Progress, a: Text, b: Text)
    ensures Heard(Heard(p, a), b) == Heard(p, a + b) && Heard(p, []) == p
  {
    assert (p.bubble + a) + b == p.bubble + (a + b) && (p.stepText + a) + b == p.stepText + (a + b);
    assert p.bubble + [] == p.bubble && p.stepText + [] == p.stepText;
  }

  lemma {:induction false} FollowGeneration(events: seq<Event>, more: seq<Event>)
    requires Follow(events).Some? && Follow(events).value.phase.Generating?
    requires forall i :: 0 <= i < |more| ==> more[i].ModelLoading? || more[i].ModelReady? || more[i].Token?
    ensures Follow(events + more) == Some(Follow(events).value.(
        bubble := Follow(events).value.bubble + TokenText(more),
          stepText := Follow(events).value.stepText + TokenText(more)))
    decreases |more|
  {
    hide Follow, Next;
    var p := Follow(events).value;
    HeardTwice(p, [], []);
    if more == [] {
      assert events + more == events;
    } else {
      var init, last := more[..|more| - 1], more[|more| - 1];
      FollowGeneration(events, init);
      assert events + more == (events + init) + [last];
      FollowSnoc(events + init, last);
      NextGeneration(Heard(p, TokenText(init)), last);
      HeardTwice(p, TokenText(init), if last.Token? then last.text else []);
    }
  }

  lemma {:induction false} FollowSideEffects(events: seq<Event>, more: seq<Event>)
    requires Follow(events).Some? && Follow(events).value.phase.Reported?
    requires forall i :: 0 <= i < |more| ==> IsSideEffect(more[i])
    ensures Follow(events + more) == Follow(events)
    decreases |more|
  {
    if more == [] {
      assert events + more == events;
    } else {
      var init := more[..|more| - 1];
      FollowSideEffects(events, init);
      assert events + more == (events + init) + [more[|more| - 1]];
      FollowSnoc(events + init, more[|more| - 1]);
    }
  }

  /** What the protocol guarantees about any accepted sequence, whoever spoke it. */
  ghost predicate Sound(p: Progress) {
    && (p.phase.Generating? || p.phase.Called? || p.phase.Reported? || p.phase.Failed? ==> p.steps != [])
    && (p.phase.Ended? <==> p.done.Some?)
    && (p.done.Some? ==> p.done.value.Done? && p.done.value.stepsUsed == |p.steps|)
    && (forall i :: 0 <= i < |p.steps| ==>
          && (p.steps[i].result.Some? ==> p.steps[i].call.Some?)
          && (p.steps[i].call.Some? ==> p.steps[i].call.value.ToolCall?)
          && (p.steps[i].result.Some? ==> p.steps[i].result.value.ToolResult?)
          && (p.steps[i].result.Some? ==> p.steps[i].result.value.callId == p.steps[i].call.value.callId)
          && (p.steps[i].call.Some? && p.steps[i].result.None? ==> p.phase.Called? && i == |p.steps| - 1))
    && (p.phase.Generating? ==> Latest(p).call.None?)
    && (p.phase.Called? ==> Latest(p).call.Some? && Latest(p).result.None?)
  }

  lemma NextSound(p: Progress, ev: Event)
    requires Sound(p) && Next(p, ev).Some?
    ensures Sound(Next(p, ev).value)
  {
  }

  lemma {:induction false} FollowSound(events: seq<Event>)
    requires Follow(events).Some?
    ensures Sound(Follow(events).value)
  {
    if events != [] {
      FollowSound(events[..|events| - 1]);
      NextSound(Follow(events[..|events| - 1]).value, events[|events| - 1]);
    }
  }
}
