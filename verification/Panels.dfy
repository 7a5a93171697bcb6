/** What the panels beside the transcript show after any events whatever
    (frontend/src/store/session.ts): lists grow by what arrived, in order, and the
    others show the latest of their kind. */
module Panels {
  import opened Codes
  import opened Events
  import opened Session
  import opened Compaction

  // --- the lists: everything that arrived ---------------------------------------------------

  ghost function Artifacts(events: seq<Events.Event>): seq<Events.Event> {
    if events == [] then []
    else
      var last := events[|events| - 1];
      Artifacts(events[..|events| - 1]) + (if last.Artifact? then [last] else [])
  }

  /** Every error, recoverable or not, with its three fields. */
  ghost function Errors(events: seq<Events.Event>): seq<StreamError> {
    if events == [] then []
    else
      var last := events[|events| - 1];
      Errors(events[..|events| - 1])
        + (if last.AgentError? then [StreamError(last.code, last.message, last.recoverable)] else [])
  }

  /** No event is left out of the lists, none is in them twice and none changes
      place; what earlier turns left in them stays. */
  lemma {:induction false} ListsAre(s: State, events: seq<Events.Event>, clock: int -> int)
    ensures var f := Fold(s, events, clock);
      && f.artifacts == s.artifacts + Artifacts(events)
      && f.errors == s.errors + Errors(events)
      && f.citations == s.citations + Cites(events)
    decreases |events|
  {
    if events == [] {
      assert s.artifacts + [] == s.artifacts && s.errors + [] == s.errors && s.citations + [] == s.citations;
    } else {
      ListsAre(s, events[..|events| - 1], clock);
      ListsStep(Fold(s, events[..|events| - 1], clock), events[|events| - 1], clock(|events|));
    }
  }

  lemma ListsStep(s: State, ev: Events.Event, now: int)
    ensures var f := Reduce(s, ev, now);
      && f.artifacts == s.artifacts + (if ev.Artifact? then [ev] else [])
      && f.citations == s.citations + (if ev.Citation? then [ev] else [])
      && f.errors ==
         s.errors + (if ev.AgentError? then [StreamError(ev.code, ev.message, ev.recoverable)] else [])
  {
    assert s.artifacts + [] == s.artifacts && s.errors + [] == s.errors && s.citations + [] == s.citations;
  }

  // --- the others: the latest of their kind -------------------------------------------------

  /** The last of the events that `kind` picks, if it picks any. */
  ghost predicate LastOf(events: seq<Events.Event>, kind: Events.Event -> bool, at: int) {
    && -1 <= at < |events|
    && (at >= 0 ==> kind(events[at]))
    && (forall j :: at < j < |events| ==> !kind(events[j]))
  }

  predicate Starts(ev: Events.Event) { ev.SessionStart? }

  predicate Routes(ev: Events.Event) { ev.RouterDecision? }

  predicate Readies(ev: Events.Event) { ev.ModelReady? }

  predicate Steps(ev: Events.Event) { ev.AgentStep? }

  predicate Swaps(ev: Events.Event) { ev.ModelLoading? || ev.ModelReady? || ev.Done? }

  predicate Moves(ev: Events.Event) {
    || ev.SessionStart? || ev.RouterDecision? || ev.ModelLoading? || ev.ModelReady? || ev.AgentStep? || ev.Token?
    || (ev.AgentError? && !ev.recoverable) || ev.Done?
  }

  ghost predicate PhaseAfter(ev: Events.Event, phase: UiPhase) {
    && (ev.SessionStart? || ev.RouterDecision? ==> phase == Session.Routing)
    && (ev.ModelLoading? ==> phase == Session.Swapping)
    && (ev.ModelReady? || ev.AgentStep? || ev.Token? ==> phase == Session.Streaming)
    && (ev.AgentError? || ev.Done? ==> phase == Session.UiPhase.Idle)
  }

  lemma OneStep(s: State, ev: Events.Event, now: int)
    ensures var f := Reduce(s, ev, now);
      && f.sessionId == (if Starts(ev) then Some(ev.sessionId) else s.sessionId)
      && f.router == (if Routes(ev) then Some(ev) else s.router)
      && f.activeModel == (if Readies(ev) then Some(ev.modelId) else s.activeModel)
      && f.step == (if Steps(ev) then ev.step else s.step)
      && f.maxSteps == (if Steps(ev) then ev.maxSteps else s.maxSteps)
      && f.swap == (if !Swaps(ev) then s.swap else if ev.ModelLoading? then Some(ev) else None)
      && (if Moves(ev) then PhaseAfter(ev, f.phase) else f.phase == s.phase)
  {
  }

  /** Each panel is what the last event that concerns it says, and untouched when
      there was none: a swap is shown from its loading to the next ready or the
      end of the run, a fatal error leaves it standing. */
  lemma LatestShown(s: State, events: seq<Events.Event>, clock: int -> int, kind: Events.Event -> bool, at: int)
    requires LastOf(events, kind, at)
    ensures var f := Fold(s, events, clock);
      && (kind == Starts ==> f.sessionId == if at < 0 then s.sessionId else Some(events[at].sessionId))
      && (kind == Routes ==> f.router == if at < 0 then s.router else Some(events[at]))
      && (kind == Readies ==> f.activeModel == if at < 0 then s.activeModel else Some(events[at].modelId))
      && (kind == Steps ==> f.step == if at < 0 then s.step else events[at].step)
      && (kind == Steps ==> f.maxSteps == if at < 0 then s.maxSteps else events[at].maxSteps)
      && (kind == Swaps ==>
        f.swap == if at < 0 then s.swap else if events[at].ModelLoading? then Some(events[at]) else None)
      && (kind == Moves ==> if at < 0 then f.phase == s.phase else PhaseAfter(events[at], f.phase))
    decreases |events|
  {
    if events != [] {
      var init, last := events[..|events| - 1], events[|events| - 1];
      if at < |init| {
        assert LastOf(init, kind, at);
        LatestShown(s, init, clock, kind, at);
      }
      OneStep(Fold(s, init, clock), last, clock(|events|));
    }
  }

  /** A turn, and a stream that breaks off in it: what it added to the lists stays
      behind what earlier turns left there; router, swap and step count are its own. */
  lemma TurnShows(s: State, text: Text, events: seq<Events.Event>, clock: int -> int, message: Text, now: int)
    ensures var f := Fold(Sent(s, text), events, clock);
      var d := Dropped(f, message, now);
      && f.artifacts == d.artifacts == s.artifacts + Artifacts(events)
      && f.citations == d.citations == s.citations + Cites(events)
      && f.errors == s.errors + Errors(events)
      && d.errors == s.errors + Errors(events) + [StreamError(Lit("TRANSPORT"), message, false)]
      && (LastOf(events, Routes, -1) ==> f.router.None?)
      && (LastOf(events, Swaps, -1) ==> f.swap.None?)
      && (LastOf(events, Steps, -1) ==> f.step == f.maxSteps == 0)
      && (LastOf(events, Starts, -1) ==> f.sessionId == s.sessionId)
      && (LastOf(events, Readies, -1) ==> f.activeModel == s.activeModel)
  {
    ListsAre(Sent(s, text), events, clock);
    forall kind: Events.Event -> bool | LastOf(events, kind, -1)
      ensures kind == Routes ==> Fold(Sent(s, text), events, clock).router.None?
      ensures kind == Swaps ==> Fold(Sent(s, text), events, clock).swap.None?
      ensures kind == Steps ==>
        Fold(Sent(s, text), events, clock).step == Fold(Sent(s, text), events, clock).maxSteps == 0
      ensures kind == Starts ==> Fold(Sent(s, text), events, clock).sessionId == s.sessionId
      ensures kind == Readies ==> Fold(Sent(s, text), events, clock).activeModel == s.activeModel
    {
      LatestShown(Sent(s, text), events, clock, kind, -1);
    }
  }

  // --- the clocks of the rows ---------------------------------------------------------------

  /** When each step was announced. */
  ghost function Opened(events: seq<Events.Event>, clock: int -> int): seq<int> {
    if events == [] then []
    else
      Opened(events[..|events| - 1], clock)
        + (if events[|events| - 1].AgentStep? then [clock(|events|)] else [])
  }

  predicate Ends(ev: Events.Event) { (ev.AgentError? && !ev.recoverable) || ev.Done? }

  /** When the first event arrived that ends a run, if one has. */
  ghost function EndedAt(events: seq<Events.Event>, clock: int -> int): Option<int> {
    if events == [] then None
    else
      var before := EndedAt(events[..|events| - 1], clock);
      if before.None? && Ends(events[|events| - 1]) then Some(clock(|events|)) else before
  }

  /** A row counts from its own step; one that never had a result counts until the
      run ended, and no longer. */
  ghost predicate Timed(trace: seq<TraceStep>, since: seq<int>, ended: Option<int>) {
    && |trace| == |since|
    && forall i :: 0 <= i < |trace| ==> RowTimed(trace[i], since[i], ended)
  }

  ghost predicate RowTimed(t: TraceStep, since: int, ended: Option<int>) {
    && t.startedAt == since
    && (t.ok.None? ==> t.durationMs == if ended.None? then None else Some(ended.value - since))
  }

  lemma StepTimed(s: State, p: Progress, before: seq<ChatMessage>, cites: seq<Events.Event>, ev: Events.Event, now: int,
    since: seq<int>, ended: Option<int>)
    requires Screen(s, p, before, cites) && Sound(p) && Next(p, ev).Some?
    requires Timed(s.trace, since, ended) && (ended.Some? <==> Over(p))
    ensures Timed(Reduce(s, ev, now).trace, since + (if ev.AgentStep? then [now] else []),
      if ended.None? && Ends(ev) then Some(now) else ended)
    ensures Over(Next(p, ev).value) <==> Over(p) || Ends(ev)
  {
    assert since + [] == since;
    var trace := Reduce(s, ev, now).trace;
    var after := if ended.None? && Ends(ev) then Some(now) else ended;
    if ev.ToolCall? {
      CallTimed(s, p, before, cites, ev, now, since);
    } else {
      hide RowShows;
      forall i | 0 <= i < |s.trace| ensures RowTimed(trace[i], since[i], after) {
        assert RowTimed(s.trace[i], since[i], ended);
      }
    }
  }

  lemma CallTimed(s: State, p: Progress, before: seq<ChatMessage>, cites: seq<Events.Event>, ev: Events.Event, now: int,
    since: seq<int>)
    requires Screen(s, p, before, cites) && Sound(p) && ev.ToolCall? && Next(p, ev).Some?
    requires Timed(s.trace, since, None)
    ensures Timed(Reduce(s, ev, now).trace, since, None)
  {
    var trace := Reduce(s, ev, now).trace;
    var l := |p.steps| - 1;
    assert RowShows(s.trace[l], l + 1, p.steps[l], false);
    assert RowTimed(s.trace[l], since[l], None);
    forall i | 0 <= i < |s.trace| ensures RowTimed(trace[i], since[i], None) {
      assert RowTimed(s.trace[i], since[i], None);
    }
  }

  lemma {:induction false} FoldTimed(s: State, events: seq<Events.Event>, clock: int -> int, before: seq<ChatMessage>)
    requires Follow(events).Some? && Screen(s, START, before, [])
    ensures Timed(Fold(s, events, clock).trace, Opened(events, clock), EndedAt(events, clock))
    ensures EndedAt(events, clock).Some? <==> Over(Follow(events).value)
    decreases |events|
  {
    hide Screen, Timed, Reduce, Next;
    if events == [] {
      NothingTimed(s, before);
    } else {
      var init := events[..|events| - 1];
      FoldTimed(s, init, clock, before);
      FoldShows(s, init, clock, before);
      FollowSound(init);
      StepTimed(Fold(s, init, clock), Follow(init).value, before, Cites(init), events[|events| - 1], clock(|events|),
        Opened(init, clock), EndedAt(init, clock));
    }
  }

  lemma NothingTimed(s: State, before: seq<ChatMessage>)
    requires Screen(s, START, before, [])
    ensures Timed(s.trace, [], None)
  {
  }

  /** The times a turn shows, whole or cut short: each row counts from the arrival of
      its own step, and a row without a result stands at the time it had counted when
      the run failed or ended. */
  lemma TurnTimed(s: State, text: Text, first: seq<Events.Event>, events: seq<Events.Event>, clock: int -> int)
    requires Begun(first) && Follow(events).Some? && (Prelude(first) || events == [])
    ensures Timed(Fold(Sent(s, text), first + events, clock).trace,
      Opened(events, Later(clock, |first|)), EndedAt(events, Later(clock, |first|)))
  {
    FoldAfter(Sent(s, text), first, events, clock);
    PreludeShows(s, text, first, clock);
    FoldTimed(Fold(Sent(s, text), first, clock), events, Later(clock, |first|),
      s.messages + [ChatMessage(User, text, None, [])]);
  }
}
