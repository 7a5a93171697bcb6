/** The client's event reducer and store (frontend/src/store/session.ts), and what
    it makes of every run the agent loop can put on the wire. */
module Session {
  import opened Codes
  import opened Json
  import Events
  import opened AgentLoop
  import opened Compaction

  type Event = Events.Event
  type StopReason = Events.StopReason

  // --- view models ---------------------------------------------------------------------

  datatype ChatMessage = ChatMessage(role: Role, content: Text, stopReason: Option<StopReason>, citations: seq<Event>)

  datatype TraceStep = TraceStep(
    step: int, callId: Option<Text>, tool: Option<Text>, args: seq<(Text, Value)>, ok: Option<bool>,
    summary: Option<Text>, durationMs: Option<int>, truncated: bool, startedAt: int)

  datatype RunStats = RunStats(stopReason: StopReason, stepsUsed: int, tokensIn: int, tokensOut: int, latencyMs: int)

  datatype StreamError = StreamError(code: Text, message: Text, recoverable: bool)

  datatype UiPhase = Idle | Waiting | Routing | Swapping | Streaming

  /** `swap` is the model.loading event being shown. */
  datatype State = State(
    phase: UiPhase, sessionId: Option<Text>, messages: seq<ChatMessage>, router: Option<Event>, swap: Option<Event>,
    activeModel: Option<Text>, step: int, maxSteps: int, trace: seq<TraceStep>, artifacts: seq<Event>,
    citations: seq<Event>, errors: seq<StreamError>, lastRun: Option<RunStats>)

  const EMPTY: State := State(Idle, None, [], None, None, None, 0, 0, [], [], [], [], None)

  // --- helpers ---------------------------------------------------------------------------

  function LastIndexWhere<T>(items: seq<T>, pred: T -> bool): (i: int)
    ensures -1 <= i < |items|
    ensures i >= 0 ==> pred(items[i])
    ensures forall j :: i < j < |items| ==> !pred(items[j])
  {
    if items == [] then -1
    else if pred(items[|items| - 1]) then |items| - 1
    else LastIndexWhere(items[..|items| - 1], pred)
  }

  /** lastIndexWhere, the loop. */
  method FindLast<T>(items: seq<T>, pred: T -> bool) returns (i: int)
    ensures i == LastIndexWhere(items, pred)
    ensures -1 <= i < |items| && (i >= 0 ==> pred(items[i]))
    ensures forall j :: i < j < |items| ==> !pred(items[j])
  {
    i := |items| - 1;
    assert items[..|items|] == items;
    while i >= 0
      invariant -1 <= i < |items|
      invariant LastIndexWhere(items[..i + 1], pred) == LastIndexWhere(items, pred)
      invariant forall j :: i < j < |items| ==> !pred(items[j])
    {
      if pred(items[i]) { return; }
      assert items[..i + 1][..i] == items[..i];
      i := i - 1;
    }
  }

  predicate Ticking(t: TraceStep) { t.ok.None? && t.durationMs.None? }

  function Frozen(t: TraceStep, now: int): TraceStep {
    if Ticking(t) then t.(durationMs := Some(now - t.startedAt)) else t
  }

  function FreezeOpenSteps(trace: seq<TraceStep>, now: int): seq<TraceStep> {
    seq(|trace|, i requires 0 <= i < |trace| => Frozen(trace[i], now))
  }

  function MarkLastAssistant(messages: seq<ChatMessage>, update: ChatMessage -> ChatMessage): seq<ChatMessage> {
    var i := LastIndexWhere(messages, (m: ChatMessage) => m.role.Assistant?);
    if i < 0 then messages else messages[i := update(messages[i])]
  }

  // --- the reducer -------------------------------------------------------------------------

  function OpenRow(ev: Event, now: int): TraceStep
    requires ev.AgentStep?
  {
    TraceStep(ev.step, None, None, [], None, None, None, false, now)
  }

  function ReduceCall(s: State, ev: Event, now: int): State
    requires ev.ToolCall?
  {
    var i := LastIndexWhere(s.trace, (t: TraceStep) => t.callId.None?);
    var row := TraceStep(if i >= 0 then s.trace[i].step else s.step, Some(ev.callId), Some(ev.name), ev.args,
                         None, None, None, false, if i >= 0 then s.trace[i].startedAt else now);
    s.(trace := if i >= 0 then s.trace[i := row] else s.trace + [row])
  }

  function ReduceResult(s: State, ev: Event): State
    requires ev.ToolResult?
  {
    var i := LastIndexWhere(s.trace, (t: TraceStep) => t.callId == Some(ev.callId));
    if i < 0 then s
    else s.(trace := s.trace[i := s.trace[i].(ok := Some(ev.ok), summary := Some(ev.summary),
                                             durationMs := Some(ev.durationMs), truncated := ev.truncated)])
  }

  function ReduceDone(s: State, ev: Event, now: int): State
    requires ev.Done?
  {
    s.(phase := Idle, swap := None, trace := FreezeOpenSteps(s.trace, now),
       lastRun := Some(RunStats(ev.stopReason, ev.stepsUsed, ev.tokensIn, ev.tokensOut, ev.latencyMs)),
       messages := MarkLastAssistant(s.messages, (m: ChatMessage) => m.(stopReason := Some(ev.stopReason))))
  }

  function Reduce(s: State, ev: Event, now: int): State {
    match ev
    case SessionStart(id) => s.(sessionId := Some(id), phase := Routing)
    case RouterDecision(_) => s.(router := Some(ev), phase := Routing)
    case ModelLoading(_, _, _) => s.(phase := Swapping, swap := Some(ev))
    case ModelReady(id, _, _) => s.(phase := Streaming, swap := None, activeModel := Some(id))
    case AgentStep(step, maxSteps) =>
      s.(phase := Streaming, step := step, maxSteps := maxSteps, trace := s.trace + [OpenRow(ev, now)])
    case Token(text) =>
      s.(phase := Streaming,
        messages := MarkLastAssistant(s.messages, (m: ChatMessage) => m.(content := m.content + text)))
    case ToolCall(_, _, _) => ReduceCall(s, ev, now)
    case ToolResult(_, _, _, _, _) => ReduceResult(s, ev)
    case Citation(_, _, _, _) =>
      s.(citations := s.citations + [ev],
         messages := MarkLastAssistant(s.messages, (m: ChatMessage) => m.(citations := m.citations + [ev])))
    case Artifact(_, _) => s.(artifacts := s.artifacts + [ev])
    case AgentError(code, message, recoverable) =>
      s.(errors := s.errors + [StreamError(code, message, recoverable)],
         phase := if recoverable then s.phase else Idle,
         trace := if recoverable then s.trace else FreezeOpenSteps(s.trace, now))
    case Done(_, _, _, _, _) => ReduceDone(s, ev, now)
  }

  /** What `send` sets before the stream opens. */
  function Sent(s: State, text: Text): State {
    s.(phase := Waiting, router := None, swap := None, step := 0, maxSteps := 0, trace := [], lastRun := None,
       messages := s.messages + [ChatMessage(User, text, None, []), ChatMessage(Assistant, [], None, [])])
  }

  /** What the transport's error callback sets. */
  function Dropped(s: State, message: Text, now: int): State {
    s.(phase := Idle, trace := FreezeOpenSteps(s.trace, now),
      errors := s.errors + [StreamError(Lit("TRANSPORT"), message, false)])
  }

  function Stopped(s: State, now: int): State {
    s.(phase := Idle, swap := None, trace := FreezeOpenSteps(s.trace, now),
       lastRun := if s.lastRun.Some? then s.lastRun else Some(RunStats(Events.Cancelled, s.step, 0, 0, 0)),
       messages := MarkLastAssistant(s.messages, (m: ChatMessage) =>
         m.(stopReason := if m.stopReason.Some? then m.stopReason else Some(Events.Cancelled))))
  }

  /** The store and its stream handle. */
  class SessionStore {
    var state: State
    var active: bool

    constructor ()
      ensures state == EMPTY && !active
      ensures state.phase.Idle? && state.messages == [] && state.trace == [] && state.step == state.maxSteps == 0
      ensures state.artifacts == [] && state.citations == [] && state.errors == [] && state.lastRun.None?
      ensures state.sessionId.None? && state.router.None? && state.swap.None? && state.activeModel.None?
    {
      state, active := EMPTY, false;
    }

    method Send(message: Text)
      modifies this
      ensures var text := JsTrim(message);
        if text == [] || !old(state).phase.Idle? then state == old(state) && active == old(active)
        else state == Sent(old(state), text) && active
    {
      var text := JsTrim(message);
      if text == [] || !state.phase.Idle? { return; }
      state := Sent(state, text);
      active := true;
    }

    /** One event from the stream: the reducer, with the trace patched in place at
        the row the loop above finds. */
    method Receive(ev: Event, now: int)
      modifies this
      ensures state == Reduce(old(state), ev, now)
      ensures active == (old(active) && !ev.Done?)
    {
      if ev.Done? { active := false; }
      if ev.ToolCall? {
        var i := FindLast(state.trace, (t: TraceStep) => t.callId.None?);
        var row := TraceStep(if i >= 0
          then state.trace[i].step else state.step, Some(ev.callId), Some(ev.name), ev.args,
                             None, None, None, false, if i >= 0 then state.trace[i].startedAt else now);
        state := state.(trace := if i >= 0 then state.trace[i := row] else state.trace + [row]);
      } else if ev.ToolResult? {
        var i := FindLast(state.trace, (t: TraceStep) => t.callId == Some(ev.callId));
        if i < 0 { return; }
        var row := state.trace[i].(ok := Some(ev.ok), summary := Some(ev.summary),
                                   durationMs := Some(ev.durationMs), truncated := ev.truncated);
        state := state.(trace := state.trace[i := row]);
      } else {
        state := Reduce(state, ev, now);
      }
    }

    method Stop(now: int)
      modifies this
      ensures if old(state).phase.Idle? then state == old(state) && active == old(active)
              else state == Stopped(old(state), now) && !active
    {
      if state.phase.Idle? { return; }
      active := false;
      state := Stopped(state, now);
    }
  }

  // --- a whole run -------------------------------------------------------------------------

  /** The reducer over a whole event list; `clock` says when each one arrived. */
  function Fold(s: State, events: seq<Event>, clock: int -> int): State {
    if events == [] then s
    else Reduce(Fold(s, events[..|events| - 1], clock), events[|events| - 1], clock(|events|))
  }

  function Cites(events: seq<Event>): seq<Event> {
    if events == [] then []
    else Cites(events[..|events| - 1]) + (if events[|events| - 1].Citation? then [events[|events| - 1]] else [])
  }

  predicate Over(p: Events.Progress) { p.phase.Failed? || p.phase.Ended? }

  /** Row `t` is step number `n`, shows its call and that call's result if there
      were any, and ticks exactly while its run is not over and it has no result. */
  predicate RowShows(t: TraceStep, n: int, r: Events.StepRecord, over: bool) {
    && t.step == n
    && (match r.call
        case None => t.callId.None? && t.tool.None?
        case Some(c) => c.ToolCall? && t.callId == Some(c.callId) && t.tool == Some(c.name) && t.args == c.args)
    && (match r.result
        case None => t.ok.None? && t.summary.None? && !t.truncated && (Ticking(t) <==> !over)
        case Some(x) => x.ToolResult? && t.ok == Some(x.ok) && t.summary == Some(x.summary)
                        && t.durationMs == Some(x.durationMs) && t.truncated == x.truncated)
  }

  predicate TraceShows(trace: seq<TraceStep>, steps: seq<Events.StepRecord>, over: bool) {
    |trace| == |steps| && forall i :: 0 <= i < |steps| ==> RowShows(trace[i], i + 1, steps[i], over)
  }

  /** The stop reason the bubble of a run shows. */
  function Reason(p: Events.Progress): Option<StopReason> {
    if p.done.Some? && p.done.value.Done? then Some(p.done.value.stopReason) else None
  }

  function Stats(p: Events.Progress): Option<RunStats> {
    if p.done.Some? && p.done.value.Done? then
      var d := p.done.value;
      Some(RunStats(d.stopReason, d.stepsUsed, d.tokensIn, d.tokensOut, d.latencyMs))
    else None
  }

  /** What the screen says when the protocol says `p`. */
  predicate Screen(s: State, p: Events.Progress, before: seq<ChatMessage>, cites: seq<Event>) {
    && TraceShows(s.trace, p.steps, Over(p))
    && s.messages == before + [ChatMessage(Assistant, p.bubble, Reason(p), cites)]
    && s.lastRun == Stats(p)
    && (s.phase.Idle? <==> Over(p))
    && s.step == |p.steps|
    && (p.phase.Ended? ==> s.swap.None?)
  }

  lemma LastAssistant(before: seq<ChatMessage>, m: ChatMessage, update: ChatMessage -> ChatMessage)
    requires m.role.Assistant?
    ensures MarkLastAssistant(before + [m], update) == before + [update(m)]
  {
  }

  /** Freezing makes a finished trace of an unfinished one. */
  lemma FreezeShows(trace: seq<TraceStep>, steps: seq<Events.StepRecord>, over: bool, now: int)
    requires TraceShows(trace, steps, over)
    ensures TraceShows(FreezeOpenSteps(trace, now), steps, true)
  {
    forall i | 0 <= i < |steps| ensures RowShows(FreezeOpenSteps(trace, now)[i], i + 1, steps[i], true) {
      assert RowShows(trace[i], i + 1, steps[i], over);
    }
  }

  lemma StepShows(s: State, p: Events.Progress, before: seq<ChatMessage>, cites: seq<Event>, ev: Event, now: int)
    requires Screen(s, p, before, cites) && ev.AgentStep? && Events.Next(p, ev).Some?
    ensures Screen(Reduce(s, ev, now), Events.Next(p, ev).value, before, cites)
  {
    var s', p' := Reduce(s, ev, now), Events.Next(p, ev).value;
    forall i | 0 <= i < |p'.steps| ensures RowShows(s'.trace[i], i + 1, p'.steps[i], false) {
      if i < |p.steps| { assert RowShows(s.trace[i], i + 1, p.steps[i], false); }
    }
  }

  lemma CallShows(s: State, p: Events.Progress, before: seq<ChatMessage>, cites: seq<Event>, ev: Event, now: int)
    requires Screen(s, p, before, cites) && Events.Sound(p) && ev.ToolCall? && Events.Next(p, ev).Some?
    ensures Screen(Reduce(s, ev, now), Events.Next(p, ev).value, before, cites)
  {
    var s', p' := Reduce(s, ev, now), Events.Next(p, ev).value;
    var l := |p.steps| - 1;
    assert RowShows(s.trace[l], l + 1, p.steps[l], false);
    forall i | 0 <= i < |p'.steps| ensures RowShows(s'.trace[i], i + 1, p'.steps[i], false) {
      assert RowShows(s.trace[i], i + 1, p.steps[i], false);
    }
  }

  lemma ResultShows(s: State, p: Events.Progress, before: seq<ChatMessage>, cites: seq<Event>, ev: Event, now: int)
    requires Screen(s, p, before, cites) && Events.Sound(p) && ev.ToolResult? && Events.Next(p, ev).Some?
    ensures Screen(Reduce(s, ev, now), Events.Next(p, ev).value, before, cites)
  {
    var s', p' := Reduce(s, ev, now), Events.Next(p, ev).value;
    var l := |p.steps| - 1;
    assert RowShows(s.trace[l], l + 1, p.steps[l], false);
    forall i | 0 <= i < |p'.steps| ensures RowShows(s'.trace[i], i + 1, p'.steps[i], false) {
      assert RowShows(s.trace[i], i + 1, p.steps[i], false);
    }
  }

  lemma DoneShows(s: State, p: Events.Progress, before: seq<ChatMessage>, cites: seq<Event>, ev: Event, now: int)
    requires Screen(s, p, before, cites) && p.done.None? && ev.Done? && Events.Next(p, ev).Some?
    ensures Screen(Reduce(s, ev, now), Events.Next(p, ev).value, before, cites)
  {
    FreezeShows(s.trace, p.steps, Over(p), now);
    LastAssistant(before, ChatMessage(Assistant, p.bubble, None, cites),
      (m: ChatMessage) => m.(stopReason := Some(ev.stopReason)));
  }

  lemma OtherShows(s: State, p: Events.Progress, before: seq<ChatMessage>, cites: seq<Event>, ev: Event, now: int)
    requires Screen(s, p, before, cites) && Events.Next(p, ev).Some?
    requires !ev.AgentStep? && !ev.ToolCall? && !ev.ToolResult? && !ev.Done?
    ensures Screen(Reduce(s, ev, now), Events.Next(p, ev).value, before, cites + (if ev.Citation? then [ev] else []))
  {
    assert cites + [] == cites;
    var m := ChatMessage(Assistant, p.bubble, Reason(p), cites);
    if ev.Token? {
      LastAssistant(before, m, (m: ChatMessage) => m.(content := m.content + ev.text));
    } else if ev.Citation? {
      LastAssistant(before, m, (m: ChatMessage) => m.(citations := m.citations + [ev]));
    } else if ev.AgentError? {
      FreezeShows(s.trace, p.steps, Over(p), now);
    }
  }

  /** The reducer follows the protocol: after every prefix of every accepted run
      the screen says exactly what has happened. */
  lemma {:induction false} FoldShows(s: State, events: seq<Event>, clock: int -> int, before: seq<ChatMessage>)
    requires Events.Follow(events).Some? && Screen(s, Events.START, before, [])
    ensures Screen(Fold(s, events, clock), Events.Follow(events).value, before, Cites(events))
    decreases |events|
  {
    if events != [] {
      var init, ev, now := events[..|events| - 1], events[|events| - 1], clock(|events|);
      FoldShows(s, init, clock, before);
      Events.FollowSound(init);
      var s', p := Fold(s, init, clock), Events.Follow(init).value;
      assert Cites(init) + [] == Cites(init);
      if ev.AgentStep? { StepShows(s', p, before, Cites(init), ev, now); }
      else if ev.ToolCall? { CallShows(s', p, before, Cites(init), ev, now); }
      else if ev.ToolResult? { ResultShows(s', p, before, Cites(init), ev, now); }
      else if ev.Done? { DoneShows(s', p, before, Cites(init), ev, now); }
      else { OtherShows(s', p, before, Cites(init), ev, now); }
    }
  }

  lemma {:induction false} BubbleIs(events: seq<Event>)
    requires Events.Follow(events).Some?
    ensures Events.Follow(events).value.bubble == Events.TokenText(events)
  {
    if events != [] {
      var init := events[..|events| - 1];
      BubbleIs(init);
      assert Events.TokenText(init) + [] == Events.TokenText(init);
    }
  }

  function Later(clock: int -> int, shift: nat): int -> int { (n: int) => clock(n + shift) }

  lemma {:induction false} FoldAfter(s: State, first: seq<Event>, events: seq<Event>, clock: int -> int)
    ensures Fold(s, first + events, clock) == Fold(Fold(s, first, clock), events, Later(clock, |first|))
    decreases |events|
  {
    hide Reduce;
    if events == [] {
      assert first + events == first;
    } else {
      var init := events[..|events| - 1];
      FoldAfter(s, first, init, clock);
      assert (first + events)[..|first + events| - 1] == first + init;
    }
  }

  /** What the chat endpoint puts on the wire before the loop's first event. */
  predicate Prelude(first: seq<Event>) { Begun(first) && |first| == 2 }

  /** That, or the start of it. */
  predicate Begun(first: seq<Event>) {
    && |first| <= 2
    && (|first| >= 1 ==> first[0].SessionStart?)
    && (|first| >= 2 ==> first[1].RouterDecision?)
  }

  lemma PreludeIs(id: Text, route: Text)
    ensures Prelude([Events.SessionStart(id), Events.RouterDecision(route)])
    ensures Begun([]) && Begun([Events.SessionStart(id)])
  {
  }

  /** The screen before the loop's first event is the screen of an empty run. */
  lemma PreludeShows(s: State, text: Text, first: seq<Event>, clock: int -> int)
    requires Begun(first)
    ensures Screen(Fold(Sent(s, text), first, clock), Events.START, s.messages + [ChatMessage(User, text, None, [])],
      [])
  {
    var s0 := Sent(s, text);
    if |first| == 2 {
      assert first[..1][..0] == [] && first[..1][0] == first[0];
      assert Fold(s0, first[..1], clock) == Reduce(s0, first[0], clock(1));
    }
    assert s.messages + [ChatMessage(User, text, None, []), ChatMessage(Assistant, [], None, [])]
        == (s.messages + [ChatMessage(User, text, None, [])]) + [ChatMessage(Assistant, [], None, [])];
  }

  /** A run as the user sees it: every accepted sequence of loop events, whole or
      cut short, even within the prelude, sent into the state `send` left. */
  lemma RunOnScreen(s: State, text: Text, first: seq<Event>, events: seq<Event>, clock: int -> int)
    requires Begun(first) && Events.Follow(events).Some? && (Prelude(first) || events == [])
    ensures var p := Events.Follow(events).value;
      Screen(Fold(Sent(s, text), first + events, clock), p, s.messages + [ChatMessage(User, text, None, [])],
        Cites(events))
    ensures Events.Follow(events).value.bubble == Events.TokenText(events)
  {
    FoldAfter(Sent(s, text), first, events, clock);
    PreludeShows(s, text, first, clock);
    FoldShows(Fold(Sent(s, text), first, clock), events, Later(clock, |first|),
      s.messages + [ChatMessage(User, text, None, [])]);
    BubbleIs(events);
  }

  /** Every completed run leaves the screen idle, with exactly one row for each of
      its steps, none of them ticking, every call shown with its own result, the
      bubble holding all token texts and the run's own reason to stop. */
  lemma CompletedOnScreen(s: State, text: Text, first: seq<Event>, events: seq<Event>, clock: int -> int, done: Event)
    requires Prelude(first) && done.Done? && EndedBy(events, done)
    ensures var end := Fold(Sent(s, text), first + events, clock);
      && end.phase.Idle? && end.swap.None?
      && |end.trace| == done.stepsUsed
      && (forall i :: 0 <= i < |end.trace| ==> end.trace[i].step == i + 1 && !Ticking(end.trace[i]))
      && (forall i :: 0 <= i < |end.trace| ==> (end.trace[i].ok.Some? <==> end.trace[i].tool.Some?))
      && TraceShows(end.trace, Events.Follow(events).value.steps, true)
      && end.messages == s.messages + [ChatMessage(User, text, None, [])]
           + [ChatMessage(Assistant, Events.TokenText(events), Some(done.stopReason), Cites(events))]
      && end.lastRun == Some(RunStats(done.stopReason, done.stepsUsed, done.tokensIn, done.tokensOut, done.latencyMs))
  {
    RunOnScreen(s, text, first, events, clock);
    Events.FollowSound(events);
    var end, steps := Fold(Sent(s, text), first + events, clock), Events.Follow(events).value.steps;
    forall i | 0 <= i < |end.trace|
      ensures end.trace[i].step == i + 1 && !Ticking(end.trace[i])
        && (end.trace[i].ok.Some? <==> end.trace[i].tool.Some?)
    {
      assert RowShows(end.trace[i], i + 1, steps[i], true);
    }
  }

  /** A stream that dies at any point leaves an idle screen with nothing ticking,
      one row for each step begun and the answer text received so far. */
  lemma DroppedOnScreen(s: State, text: Text, first: seq<Event>, events: seq<Event>, clock: int -> int, message: Text,
    now: int)
    requires Begun(first) && Events.Follow(events).Some? && (Prelude(first) || events == [])
    ensures var end := Dropped(Fold(Sent(s, text), first + events, clock), message, now);
      && end.phase.Idle?
      && TraceShows(end.trace, Events.Follow(events).value.steps, true)
      && (forall i :: 0 <= i < |end.trace| ==> !Ticking(end.trace[i]))
      && end.messages != []
      && end.messages[|end.messages| - 1].content == Events.TokenText(events)
  {
    RunOnScreen(s, text, first, events, clock);
    var last, p := Fold(Sent(s, text), first + events, clock), Events.Follow(events).value;
    FreezeShows(last.trace, p.steps, Over(p), now);
  }

  /** Stopping before the end, wherever the stream has got to, leaves an idle screen
      that is settled: one row for each step begun and none ticking, no swap, the
      text and the citations so far, marked as cancelled, with the step reached. */
  lemma StoppedOnScreen(s: State, text: Text, first: seq<Event>, events: seq<Event>, clock: int -> int, now: int)
    requires Begun(first) && Events.Follow(events).Some? && (Prelude(first) || events == [])
    requires !Fold(Sent(s, text), first + events, clock).phase.Idle?
    ensures var end, p := Stopped(Fold(Sent(s, text), first + events, clock), now), Events.Follow(events).value;
      && end.phase.Idle? && end.swap.None?
      && TraceShows(end.trace, p.steps, true) && (forall i :: 0 <= i < |end.trace| ==> !Ticking(end.trace[i]))
      && end.messages == s.messages + [ChatMessage(User, text, None, [])]
           + [ChatMessage(Assistant, Events.TokenText(events), Some(Events.Cancelled), Cites(events))]
      && end.lastRun == Some(RunStats(Events.Cancelled, |p.steps|, 0, 0, 0))
  {
    RunOnScreen(s, text, first, events, clock);
    Events.FollowSound(events);
    var last, p := Fold(Sent(s, text), first + events, clock), Events.Follow(events).value;
    FreezeShows(last.trace, p.steps, Over(p), now);
    LastAssistant(s.messages + [ChatMessage(User, text, None, [])],
      ChatMessage(Assistant, p.bubble, None, Cites(events)),
      (m: ChatMessage) => m.(stopReason := if m.stopReason.Some? then m.stopReason else Some(Events.Cancelled)));
    var end := Stopped(last, now);
    forall i | 0 <= i < |end.trace| ensures !Ticking(end.trace[i]) { assert RowShows(end.trace[i], i
      + 1, p.steps[i], true); }
  }

  // --- reopening a session -------------------------------------------------------------------

  const OPEN: Text := Lit("[stopped: ")
  const CLOSE: Text := Lit("]")

  function Prefix(reason: StopReason): Text { OPEN + ReasonName(reason) + CLOSE }

  /** The STOPPED pattern: a marker at the very start, any white space behind it,
      and what is left after the match. */
  function StopMarker(content: Text): Option<(StopReason, Text)> {
    if StartsWith(content, Prefix(Events.FinalAnswer))
      then Some((Events.FinalAnswer, After(content, Events.FinalAnswer)))
    else if StartsWith(content, Prefix(Events.MaxSteps)) then Some((Events.MaxSteps, After(content, Events.MaxSteps)))
    else if StartsWith(content, Prefix(Events.Error)) then Some((Events.Error, After(content, Events.Error)))
    else if StartsWith(content, Prefix(Events.Cancelled))
      then Some((Events.Cancelled, After(content, Events.Cancelled)))
    else None
  }

  function After(content: Text, reason: StopReason): Text
    requires StartsWith(content, Prefix(reason))
  {
    JsTrimStart(content[|Prefix(reason)|..])
  }

  /** One stored row as `loadSession` shows it. */
  function Lift(role: Role, content: Text): ChatMessage {
    var hit := if role.Assistant? then StopMarker(content) else None;
    match hit
    case Some(found) => ChatMessage(role, found.1, Some(found.0), [])
    case None => ChatMessage(role, content, None, [])
  }

  function Loaded(rows: seq<Message>): seq<ChatMessage> {
    if rows == [] then []
    else
      var last := rows[|rows| - 1];
      Loaded(rows[..|rows| - 1])
        + (if last.role.User? || last.role.Assistant? then [Lift(last.role, last.content)] else [])
  }

  lemma Clash(a: StopReason, b: StopReason)
    requires a != b
    ensures !StartsWith(Prefix(a), Prefix(b))
    ensures |Prefix(a)| >= 16 && |Prefix(b)| >= 16 && Prefix(a)[10] != Prefix(b)[10]
  {
    assert |OPEN| == 10;
    assert Prefix(a)[10] == ReasonName(a)[0] && Prefix(b)[10] == ReasonName(b)[0];
  }

  /** No text carries two markers. */
  lemma OneMarker(content: Text, reason: StopReason)
    requires StartsWith(content, Prefix(reason))
    ensures StopMarker(content) == Some((reason, After(content, reason)))
  {
    if reason != Events.FinalAnswer { Clash(reason, Events.FinalAnswer); }
    if reason != Events.MaxSteps { Clash(reason, Events.MaxSteps); }
    if reason != Events.Error { Clash(reason, Events.Error); }
    if reason != Events.Cancelled { Clash(reason, Events.Cancelled); }
  }

  /** The stored marker parses back to its reason, and to its note exactly when
      the note does not begin with white space. */
  lemma MarkerRoundTrip(reason: StopReason, note: Text)
    ensures StopMarker(Marker(reason, note)) == Some((reason, JsTrimStart(note)))
    ensures JsTrimStart(note) == note <==> note == [] || !IsJsSpace(note[0])
  {
    MarkerParts(reason, note);
    OneMarker(Marker(reason, note), reason);
    assert Marker(reason, note)[|Prefix(reason)|..] == [SPACE] + note;
    assert ([SPACE] + note)[1..] == note;
    TrimShrinks(note);
  }

  lemma MarkerParts(reason: StopReason, note: Text)
    ensures Marker(reason, note) == Prefix(reason) + ([SPACE] + note)
  {
    assert Lit("] ") == CLOSE + [SPACE];
  }

  lemma {:induction false} TrimShrinks(s: Text)
    ensures |JsTrimStart(s)| <= |s|
    ensures s != [] && IsJsSpace(s[0]) ==> |JsTrimStart(s)| < |s|
  {
    if s != [] && IsJsSpace(s[0]) { TrimShrinks(s[1..]); }
  }

  /** The notes the loop writes never begin with white space, so a run that
      stopped without an answer reopens with exactly its reason and its note. */
  lemma StoppedReopens(env: Env, reason: StopReason, lastError: Text, events: seq<Event>)
    requires reason != Events.FinalAnswer && (lastError != [] <==> reason == Events.Error)
    requires lastError != [] ==>
      events != [] && FatalError(events[|events| - 1]) && lastError == ErrorText(events[|events| - 1])
    ensures var note := NoteFor(env, reason, lastError);
      Lift(Assistant, Marker(reason, note)) == ChatMessage(Assistant, note, Some(reason), [])
  {
    var note := NoteFor(env, reason, lastError);
    MarkerRoundTrip(reason, note);
    NoteBegins(env, reason, lastError, events);
  }

  lemma NoteBegins(env: Env, reason: StopReason, lastError: Text, events: seq<Event>)
    requires reason != Events.FinalAnswer && (lastError != [] <==> reason == Events.Error)
    requires lastError != [] ==>
      events != [] && FatalError(events[|events| - 1]) && lastError == ErrorText(events[|events| - 1])
    ensures var note := NoteFor(env, reason, lastError); note != [] && !IsJsSpace(note[0])
  {
    if lastError != [] {
      var ev := events[|events| - 1];
      assert |LLM_ERROR| == 9 && |LOOP_DETECTED| == 13 && |TOOL_RETRIES_EXCEEDED| == 21;
      assert lastError[0] == ev.code[0];
    } else if reason == Events.MaxSteps {
      assert NoteFor(env, reason, lastError)[0] == Lit("gave up after ")[0];
    }
  }

  /** Where the marker misleads: a final answer reopens as it was given exactly
      when it does not itself begin with one. */
  lemma AnswerReopens(text: Text)
    ensures Lift(Assistant, text) == ChatMessage(Assistant, text, None, []) <==>
      (forall reason: StopReason :: !StartsWith(text, Prefix(reason)))
  {
    forall reason: StopReason | StartsWith(text, Prefix(reason)) ensures Lift(Assistant, text).stopReason ==
      Some(reason) {
      OneMarker(text, reason);
    }
  }

  /** An answer that quotes a marker loses it, and turns into a stopped run. */
  lemma AnswerMisread(note: Text)
    requires note != [] && !IsJsSpace(note[0])
    ensures Lift(Assistant, Marker(Events.Error, note)) == ChatMessage(Assistant, note, Some(Events.Error), [])
    ensures Lift(Assistant, Marker(Events.Error, note)) != ChatMessage(Assistant, Marker(Events.Error, note), None, [])
  {
    MarkerRoundTrip(Events.Error, note);
  }
}
