/** The single-resident model manager (backend/llm/manager.py): any number of
    `ensure` calls interleaved around one lock, with children that die, loads that
    fail and callers that give up at any await. A call runs without interruption
    from one await to the next, so a step of the machine is one such stretch. */
module Manager {
  import opened Codes

  type ModelId = Text

  /** Where a call stands: what it awaits. */
  datatype Place =
    | Queued              // the lock
    | Checking            // the probe of the resident model
    | Announcing          // emit(ModelLoading)
    | Draining            // _wait_port_free
    | Warming             // _wait_healthy
    | Declaring           // emit(ModelReady)
    | Returned
    | Raised

  datatype Call = Call(model: ModelId, emits: bool, place: Place)

  /** A llama-server this manager started; `answered` is whether a probe has
      succeeded since. */
  datatype Child = Child(model: ModelId, alive: bool, answered: bool)

  datatype Swap = Loading(caller: nat, model: ModelId, evicting: Option<ModelId>) | Ready(caller: nat, model: ModelId)

  datatype State = State(
    managed: bool, calls: seq<Call>, lock: Option<nat>, children: seq<Child>, proc: Option<nat>,
    loaded: Option<ModelId>, log: seq<Swap>)

  /** What happens next: a queued call gets the free lock; a call resumes with the
      answer it awaited, `late` if its deadline has passed, and `luck` decides
      whether what it then runs raises; a call is abandoned at its await (or what
      it awaits raises); a child dies. */
  datatype Move = Acquire(c: nat, luck: bool) | Resume(c: nat, answer: bool, late: bool,
    luck: bool) | Abandon(c: nat) | Die(child: nat)

  predicate Critical(p: Place) { p.Checking? || p.Announcing? || p.Draining? || p.Warming? || p.Declaring? }

  function At(s: State, c: nat, p: Place): State
    requires c < |s.calls|
  {
    s.(calls := s.calls[c := s.calls[c].(place := p)])
  }

  /** Leaving `async with self._lock`, by return or by exception. */
  function Leave(s: State, c: nat, p: Place): State
    requires c < |s.calls|
  {
    At(s, c, p).(lock := None)
  }

  // --- the stretches of ensure --------------------------------------------------------------------

  /** After the residency check failed. */
  function Decide(s: State, c: nat, luck: bool): State
    requires c < |s.calls|
  {
    var call := s.calls[c];
    if !s.managed then Leave(s, c, if s.loaded == Some(call.model) then Returned else Raised)
    else if call.emits then
      At(s, c, Announcing).(log := s.log + [Loading(c, call.model, s.loaded)])
    else Replace(s, c, luck)
  }

  /** _stop_server, and the id forgotten. A child that outlives kill() raises, and
      then neither field has changed. */
  function Replace(s: State, c: nat, luck: bool): State
    requires c < |s.calls|
  {
    if s.proc.Some? && s.proc.value < |s.children| && s.children[s.proc.value].alive then
      if luck then
        At(s, c, Draining).(
          children := s.children[s.proc.value := s.children[s.proc.value].(alive := false)], proc := None,
            loaded := None)
      else Leave(s, c, Raised)
    else At(s, c, Draining).(proc := None, loaded := None)
  }

  /** _start_server; Popen may raise. */
  function Spawn(s: State, c: nat, luck: bool): State
    requires c < |s.calls|
  {
    if !luck then Leave(s, c, Raised)
    else
      At(s, c, Warming).(children := s.children + [Child(s.calls[c].model, true, false)], proc := Some(|s.children|))
  }

  /** The probe in _wait_healthy succeeded: the model is resident. Recording the
      load may raise. */
  function Settle(s: State, c: nat, luck: bool): State
    requires c < |s.calls|
  {
    var call := s.calls[c];
    var s1 := if s.proc.Some? && s.proc.value < |s.children|
              then s.(children := s.children[s.proc.value := s.children[s.proc.value].(answered := true)],
                loaded := Some(call.model))
              else s.(loaded := Some(call.model));
    if !luck then Leave(s1, c, Raised)
    else if call.emits then At(s1, c, Declaring).(log := s1.log + [Ready(c, call.model)])
    else Leave(s1, c, Returned)
  }

  function Step(s: State, m: Move): State {
    match m
    case Die(i) => if i < |s.children| then s.(children := s.children[i := s.children[i].(alive := false)]) else s
    case Acquire(c, luck) =>
      if c < |s.calls| && s.calls[c].place.Queued? && s.lock.None? then
        var s1 := s.(lock := Some(c));
        if s.loaded == Some(s.calls[c].model) then At(s1, c, Checking) else Decide(s1, c, luck)
      else s
    case Abandon(c) =>
      if c >= |s.calls| then s
      else if s.calls[c].place.Queued? then At(s, c, Raised)
      else if Critical(s.calls[c].place) then Leave(s, c, Raised)
      else s
    case Resume(c, answer, late, luck) =>
      if c >= |s.calls| then s
      else match s.calls[c].place
        case Checking => if answer then Leave(s, c, Returned) else Decide(s, c, luck)
        case Announcing => Replace(s, c, luck)
        case Draining => if answer && !late then s else Spawn(s, c, luck)
        case Warming =>
          if answer then Settle(s, c, luck)
          else if !late && s.proc.Some? && s.proc.value < |s.children| && s.children[s.proc.value].alive then s
          else Leave(s, c, Raised)
        case Declaring => Leave(s, c, Returned)
        case _ => s
  }

  function Run(s: State, moves: seq<Move>): State {
    if moves == [] then s else Step(Run(s, moves[..|moves| - 1]), moves[|moves| - 1])
  }

  /** Callers waiting, nothing started, nothing resident. */
  predicate Fresh(s: State) {
    && (forall c :: 0 <= c < |s.calls| ==> s.calls[c].place.Queued?)
    && s.lock.None? && s.children == [] && s.proc.None? && s.log == []
    && (s.managed ==> s.loaded.None?)
  }

  // --- what every step keeps -----------------------------------------------------------------------

  /** At most the current child is alive, and a resident model is the one the
      current child was started with, seen answering since. */
  predicate Resident(s: State) {
    && (forall i :: 0 <= i < |s.children| && s.children[i].alive ==> s.proc == Some(i))
    && (s.proc.Some? ==> s.proc.value < |s.children|)
    && (s.managed && s.loaded.Some? ==>
          && s.proc.Some? && s.children[s.proc.value].model == s.loaded.value && s.children[s.proc.value].answered)
    && (!s.managed ==> s.children == [] && s.log == [])
  }

  /** One call at a time is past the lock. */
  predicate Locked(s: State) {
    && (s.lock.Some? ==> s.lock.value < |s.calls| && Critical(s.calls[s.lock.value].place))
    && (forall c :: 0 <= c < |s.calls| && Critical(s.calls[c].place) ==> s.lock == Some(c))
  }

  /** Every ready stands right behind the loading of the same call and model. */
  predicate Paired(log: seq<Swap>) {
    forall j :: 0 <= j < |log| && log[j].Ready? ==>
      j > 0 && log[j - 1].Loading? && log[j - 1].caller == log[j].caller && log[j - 1].model == log[j].model
  }

  /** The last event is this call's own loading, if it emits at all. */
  predicate Announced(s: State, c: nat)
    requires c < |s.calls|
  {
    s.calls[c].emits ==>
      s.log != [] && s.log[|s.log| - 1].Loading? && s.log[|s.log| - 1].caller == c
        && s.log[|s.log| - 1].model == s.calls[c].model
  }

  /** What the call inside the lock may rely on, by where it stands. */
  predicate Holding(s: State) {
    s.lock.Some? && s.lock.value < |s.calls| ==>
      var c := s.lock.value;
      var call := s.calls[c];
      match call.place
      case Checking => s.loaded == Some(call.model)
      case Announcing => s.managed && call.emits && Announced(s, c)
      case Draining => s.managed && s.proc.None? && s.loaded.None? && Announced(s, c)
      case Warming =>
        s.managed && s.proc.Some? && s.proc.value < |s.children| && s.children[s.proc.value].model == call.model
        && s.loaded.None? && Announced(s, c)
      case Declaring => s.loaded == Some(call.model)
      case _ => true
  }

  predicate Inv(s: State) { Resident(s) && Locked(s) && Paired(s.log) && Holding(s) }

  lemma LeaveKeeps(s: State, c: nat, p: Place)
    requires Resident(s) && Locked(s) && Paired(s.log) && s.lock == Some(c) && c < |s.calls| && !Critical(p)
    ensures Inv(Leave(s, c, p))
  {
  }

  lemma ReplaceKeeps(s: State, c: nat, luck: bool)
    requires Inv(s) && s.lock == Some(c) && s.managed && Announced(s, c)
    ensures Inv(Replace(s, c, luck))
  {
  }

  lemma DecideKeeps(s: State, c: nat, luck: bool)
    requires Resident(s) && Locked(s) && Paired(s.log) && s.lock == Some(c)
    ensures Inv(Decide(s, c, luck))
    ensures var t := Decide(s, c, luck);
      c < |t.calls| && (t.calls[c].place.Returned? ==> t.loaded == Some(t.calls[c].model))
  {
    if !s.managed {
      LeaveKeeps(s, c, if s.loaded == Some(s.calls[c].model) then Returned else Raised);
    } else if s.calls[c].emits {
      PairedSnoc(s.log, Loading(c, s.calls[c].model, s.loaded));
    } else {
      ReplaceSilent(s, c, luck);
    }
  }

  lemma ReplaceSilent(s: State, c: nat, luck: bool)
    requires Resident(s) && Locked(s) && Paired(s.log) && s.lock == Some(c) && s.managed && !s.calls[c].emits
    ensures Inv(Replace(s, c, luck)) && !Replace(s, c, luck).calls[c].place.Returned?
  {
  }

  lemma PairedSnoc(log: seq<Swap>, ev: Swap)
    requires Paired(log)
    requires ev.Ready? ==>
      log != [] && log[|log| - 1].Loading? && log[|log| - 1].caller == ev.caller && log[|log| - 1].model == ev.model
    ensures Paired(log + [ev])
  {
  }

  lemma SpawnKeeps(s: State, c: nat, luck: bool)
    requires Inv(s) && s.lock == Some(c) && s.calls[c].place.Draining?
    ensures Inv(Spawn(s, c, luck))
  {
    if !luck { LeaveKeeps(s, c, Raised); }
  }

  lemma SettleKeeps(s: State, c: nat, luck: bool)
    requires Inv(s) && s.lock == Some(c) && s.calls[c].place.Warming?
    ensures Inv(Settle(s, c, luck))
    ensures var t := Settle(s, c, luck); t.loaded == Some(s.calls[c].model)
  {
    if s.calls[c].emits { PairedSnoc(s.log, Ready(c, s.calls[c].model)); }
  }

  lemma DieKeeps(s: State, i: nat)
    requires Inv(s) && i < |s.children|
    ensures Inv(Step(s, Die(i)))
  {
  }

  lemma AcquireKeeps(s: State, c: nat, luck: bool)
    requires Inv(s)
    ensures Inv(Step(s, Acquire(c, luck)))
    ensures var t := Step(s, Acquire(c, luck));
      c < |s.calls| && s.calls[c].place.Queued? && c < |t.calls| && t.calls[c].place.Returned? ==>
        t.loaded == Some(t.calls[c].model)
  {
    if c < |s.calls| && s.calls[c].place.Queued? && s.lock.None? {
      var s1 := s.(lock := Some(c));
      if s.loaded != Some(s.calls[c].model) { DecideQueued(s, c, luck); }
    }
  }

  /** As DecideKeeps, straight from the queue. */
  lemma DecideQueued(s: State, c: nat, luck: bool)
    requires Inv(s) && c < |s.calls| && s.calls[c].place.Queued? && s.lock.None?
    ensures Inv(Decide(s.(lock := Some(c)), c, luck))
    ensures var t := Decide(s.(lock := Some(c)), c, luck);
      c < |t.calls| && (t.calls[c].place.Returned? ==> t.loaded == Some(t.calls[c].model))
  {
    var s1 := At(s.(lock := Some(c)), c, Checking);
    DecideKeeps(s1, c, luck);
    SameDecision(s, c, luck);
  }

  lemma SameDecision(s: State, c: nat, luck: bool)
    requires c < |s.calls|
    ensures Decide(At(s.(lock := Some(c)), c, Checking), c, luck) == Decide(s.(lock := Some(c)), c, luck)
  {
    assert forall p ::
      s.calls[c := s.calls[c].(place := Checking)][c := s.calls[c].(place := p)] ==
      s.calls[c := s.calls[c].(place := p)];
  }

  /** A call that resumes and returns leaves its model resident. */
  lemma ResumeKeeps(s: State, c: nat, answer: bool, late: bool, luck: bool)
    requires Inv(s) && c < |s.calls| && Critical(s.calls[c].place)
    ensures Inv(Step(s, Resume(c, answer, late, luck)))
    ensures var t := Step(s, Resume(c, answer, late, luck));
      c < |t.calls| && (t.calls[c].place.Returned? ==> t.loaded == Some(t.calls[c].model))
  {
    hide Decide, Paired, Resident;
    match s.calls[c].place
    case Checking => if answer { LeaveKeeps(s, c, Returned); } else { DecideKeeps(s, c, luck); }
    case Announcing => ReplaceKeeps(s, c, luck);
    case Draining => if !answer || late { SpawnKeeps(s, c, luck); }
    case Warming => if answer { SettleKeeps(s, c, luck); } else { LeaveKeeps(s, c, Raised); }
    case Declaring => LeaveKeeps(s, c, Returned);
  }

  lemma StepKeeps(s: State, m: Move)
    requires Inv(s)
    ensures Inv(Step(s, m))
  {
    match m
    case Die(i) => if i < |s.children| { DieKeeps(s, i); }
    case Acquire(c, luck) => AcquireKeeps(s, c, luck);
    case Abandon(c) => if c < |s.calls| && Critical(s.calls[c].place) { LeaveKeeps(s, c, Raised); }
    case Resume(c, answer, late, luck) =>
      if c < |s.calls| && Critical(s.calls[c].place) { ResumeKeeps(s, c, answer, late, luck); }
  }

  /** Under every interleaving of any number of calls. */
  lemma {:induction false} AlwaysInv(s: State, moves: seq<Move>)
    requires Fresh(s)
    ensures Inv(Run(s, moves))
  {
    if moves != [] {
      AlwaysInv(s, moves[..|moves| - 1]);
      StepKeeps(Run(s, moves[..|moves| - 1]), moves[|moves| - 1]);
    }
  }

  /** So: never two of our servers alive; a model called resident is what the
      current one was started with, and it has answered; every ready directly
      follows its own loading; and a call returns only with its model resident. */
  lemma SingleResident(s: State, moves: seq<Move>, last: Move)
    requires Fresh(s)
    ensures var t := Run(s, moves);
      && (forall i, j ::
            0 <= i < |t.children| && 0 <= j < |t.children| && t.children[i].alive && t.children[j].alive ==> i == j)
      && (t.managed && t.loaded.Some? ==>
            t.proc.Some? && t.proc.value < |t.children|
            && t.children[t.proc.value].model == t.loaded.value && t.children[t.proc.value].answered)
      && Paired(t.log)
    ensures var t, u := Run(s, moves), Step(Run(s, moves), last);
      forall c :: 0 <= c < |t.calls| && c < |u.calls| && !t.calls[c].place.Returned? && u.calls[c].place.Returned? ==>
        u.loaded == Some(u.calls[c].model)
  {
    AlwaysInv(s, moves);
    var t := Run(s, moves);
    var u := Step(t, last);
    forall c | 0 <= c < |t.calls| && c < |u.calls| && !t.calls[c].place.Returned? && u.calls[c].place.Returned?
      ensures u.loaded == Some(u.calls[c].model)
    {
      OnlyMover(t, last, c);
      match last
      case Acquire(d, luck) => AcquireKeeps(t, c, luck);
      case Resume(d, answer, late, luck) => ResumeKeeps(t, c, answer, late, luck);
      case _ =>
    }
  }

  /** The calls of `t` are those of `s` but for call `c`. */
  predicate OthersSame(s: State, t: State, c: nat) {
    |t.calls| == |s.calls| && forall d :: 0 <= d < |s.calls| && d != c ==> t.calls[d] == s.calls[d]
  }

  lemma StretchMovesOne(s: State, c: nat, luck: bool, p: Place)
    requires c < |s.calls|
    ensures OthersSame(s, Leave(s, c, p), c) && OthersSame(s, At(s, c, p), c)
    ensures OthersSame(s, Replace(s, c, luck), c) && OthersSame(s, Spawn(s, c, luck), c)
    ensures OthersSame(s, Settle(s, c, luck), c) && OthersSame(s, Decide(s, c, luck), c)
  {
  }

  /** Only the call that moves changes its place. */
  lemma OnlyMover(s: State, m: Move, c: nat)
    requires c < |s.calls| && c < |Step(s, m).calls| && Step(s, m).calls[c].place != s.calls[c].place
    ensures (m.Acquire? && m.c == c && s.calls[c].place.Queued?)
      || (m.Resume? && m.c == c && Critical(s.calls[c].place))
            || (m.Abandon? && m.c == c && Step(s, m).calls[c].place.Raised?)
  {
    hide Leave, At, Replace, Spawn, Settle, Decide;
    match m
    case Die(i) =>
    case Acquire(d, luck) =>
      if d < |s.calls| {
        StretchMovesOne(s.(lock := Some(d)), d, luck, Checking);
        assert s.(lock := Some(d)).calls == s.calls;
      }
    case Abandon(d) => if d < |s.calls| { AbandonRaises(s, d); }
    case Resume(d, answer, late, luck) =>
      if d < |s.calls| {
        StretchMovesOne(s, d, luck, Returned);
        StretchMovesOne(s, d, luck, Raised);
      }
  }

  lemma AbandonRaises(s: State, d: nat)
    requires d < |s.calls|
    ensures OthersSame(s, At(s, d, Raised), d) && OthersSame(s, Leave(s, d, Raised), d)
    ensures At(s, d, Raised).calls[d].place.Raised? && Leave(s, d, Raised).calls[d].place.Raised?
  {
  }

  // --- a resident model is left alone ----------------------------------------------------------------

  /** A call that finds its model resident and answering returns at once: nothing is
      killed, started, announced or forgotten. */
  lemma AnsweringReturns(s: State, c: nat, late: bool, luck: bool)
    requires Inv(s) && s.lock == Some(c) && c < |s.calls| && s.calls[c].place.Checking?
    ensures var t := Step(s, Resume(c, true, late, luck));
      && t.children == s.children && t.proc == s.proc && t.loaded == s.loaded && t.log == s.log && t.lock.None?
      && OthersSame(s, t, c) && t.calls[c] == s.calls[c].(place := Returned)
  {
  }

  /** Nobody is in the middle of a swap, and `m` is resident. */
  predicate Settled(s: State, m: ModelId) {
    && s.loaded == Some(m)
    && (s.lock.Some? && s.lock.value < |s.calls| ==>
          s.calls[s.lock.value].place.Checking? || s.calls[s.lock.value].place.Declaring?)
  }

  /** A move of a call for `m`; a probe of the resident model answers. */
  predicate Peaceful(s: State, mv: Move, m: ModelId) {
    match mv
    case Die(_) => false
    case Acquire(c, _) => c < |s.calls| ==> s.calls[c].model == m
    case Abandon(c) => c < |s.calls| ==> s.calls[c].model == m
    case Resume(c, answer, _, _) =>
      c < |s.calls| ==> s.calls[c].model == m && (s.calls[c].place.Checking? ==> answer)
  }

  lemma PeacefulStep(s: State, mv: Move, m: ModelId)
    requires Inv(s) && Settled(s, m) && Peaceful(s, mv, m)
    ensures var t := Step(s, mv);
      && t.children == s.children && t.proc == s.proc && t.log == s.log && Settled(t, m)
      && |t.calls| == |s.calls| && forall c :: 0 <= c < |s.calls| ==> t.calls[c].model == s.calls[c].model
  {
  }

  ghost predicate AllPeaceful(s: State, moves: seq<Move>, m: ModelId) {
    forall i :: 0 <= i < |moves| ==> Peaceful(Run(s, moves[..i]), moves[i], m)
  }

  lemma {:induction false} RunInv(s: State, moves: seq<Move>)
    requires Inv(s)
    ensures Inv(Run(s, moves))
  {
    if moves != [] {
      RunInv(s, moves[..|moves| - 1]);
      StepKeeps(Run(s, moves[..|moves| - 1]), moves[|moves| - 1]);
    }
  }

  /** While a model is resident and answers, any number of calls for it, however
      they interleave, start nothing, stop nothing and announce nothing. */
  lemma {:induction false} ResidentLeftAlone(s: State, moves: seq<Move>, m: ModelId)
    requires Inv(s) && Settled(s, m) && AllPeaceful(s, moves, m)
    ensures var t := Run(s, moves);
      t.children == s.children && t.proc == s.proc && t.loaded == s.loaded && t.log == s.log && Settled(t, m)
  {
    if moves != [] {
      var n := |moves| - 1;
      var init := moves[..n];
      hide Inv, Step, Settled, Peaceful;
      forall i | 0 <= i < n ensures Peaceful(Run(s, init[..i]), init[i], m) {
        assert init[..i] == moves[..i];
        assert Peaceful(Run(s, moves[..i]), moves[i], m);
      }
      ResidentLeftAlone(s, init, m);
      RunInv(s, init);
      assert Peaceful(Run(s, moves[..n]), moves[n], m);
      PeacefulStep(Run(s, init), moves[n], m);
      SettledIs(s, m);
      SettledIs(Run(s, moves), m);
    }
  }

  lemma SettledIs(s: State, m: ModelId)
    ensures Settled(s, m) ==> s.loaded == Some(m)
  {
  }

  // --- what a swap does -----------------------------------------------------------------------------------

  /** Whatever is announced: a loading names the call's own model and what was
      resident until then, and is not that of a model found answering; a ready
      answers a successful probe, and its model is resident. */
  lemma WhatIsAnnounced(s: State, mv: Move)
    requires Inv(s)
    ensures var t := Step(s, mv);
      t.log != s.log ==>
        && (mv.Acquire? || mv.Resume?) && mv.c < |s.calls| && s.calls[mv.c].emits && s.managed
        && var model := s.calls[mv.c].model;
        || (t.log == s.log + [Loading(mv.c, model, s.loaded)] && t.children == s.children && t.loaded == s.loaded
            && (s.loaded == Some(model) ==> mv.Resume? && !mv.answer && s.calls[mv.c].place.Checking?))
        || (t.log == s.log + [Ready(mv.c, model)] && mv.Resume? && mv.answer && s.calls[mv.c].place.Warming?
            && t.loaded == Some(model))
  {
    hide Paired;
  }

  /** Whatever is started or stopped: a server is started for the call's own model,
      only when none of ours is alive and the port is quiet or has been waited for
      long enough; one is stopped only for a call whose model does not answer. */
  lemma WhatIsStarted(s: State, mv: Move)
    requires Inv(s) && !mv.Die?
    ensures var t := Step(s, mv);
      && |t.children| >= |s.children|
      && (|t.children| > |s.children| ==>
            && mv.Resume? && mv.c < |s.calls| && s.calls[mv.c].place.Draining? && (!mv.answer || mv.late)
            && t.children == s.children + [Child(s.calls[mv.c].model, true, false)] && t.proc == Some(|s.children|)
            && forall i :: 0 <= i < |s.children| ==> !s.children[i].alive)
      && (forall i :: 0 <= i < |s.children| && s.children[i].alive && !t.children[i].alive ==>
            && s.managed && (mv.Acquire? || mv.Resume?) && mv.c < |s.calls| && t.proc.None? && t.loaded.None?
            && (s.loaded == Some(s.calls[mv.c].model) && mv.Resume? && s.calls[mv.c].place.Checking? ==> !mv.answer))
  {
    hide Paired;
  }

  /** A call given up is the only other way to be refused. */
  predicate GivenUp(moves: seq<Move>, c: nat) { exists i :: 0 <= i < |moves| && moves[i] == Abandon(c) }

  /** In external mode nothing is ever started, stopped or announced, and a call
      returns only if its model is the one that is there, and raises only if it is
      not or the call was given up. */
  lemma {:induction false} ExternalOnly(s: State, moves: seq<Move>)
    requires Fresh(s) && !s.managed
    ensures var t := Run(s, moves);
      && !t.managed && t.children == [] && t.log == [] && t.loaded == s.loaded && |t.calls| == |s.calls|
      && forall c :: 0 <= c < |t.calls| ==>
        && t.calls[c].model == s.calls[c].model
        && (t.calls[c].place.Returned? ==> s.loaded == Some(t.calls[c].model))
        && (t.calls[c].place.Raised? ==> s.loaded != Some(t.calls[c].model) || GivenUp(moves, c))
        && (t.calls[c].place.Queued? || t.calls[c].place.Checking? || t.calls[c].place.Returned?
            || t.calls[c].place.Raised?)
  {
    if moves != [] {
      var init, last := moves[..|moves| - 1], moves[|moves| - 1];
      hide Fresh, Inv, Step;
      ExternalOnly(s, init);
      AlwaysInv(s, init);
      ExternalStep(Run(s, init), last);
      forall c | GivenUp(init, c) ensures GivenUp(moves, c) {
        var i :| 0 <= i < |init| && init[i] == Abandon(c);
        assert moves[i] == Abandon(c);
      }
      if last.Abandon? {
        assert moves[|moves| - 1] == Abandon(last.c);
        assert GivenUp(moves, last.c);
      }
    } else {
      FreshIs(s);
    }
  }

  lemma FreshIs(s: State)
    requires Fresh(s)
    ensures s.children == [] && s.log == [] && forall c :: 0 <= c < |s.calls| ==> s.calls[c].place.Queued?
  {
  }

  lemma ExternalStep(s: State, mv: Move)
    requires Inv(s) && !s.managed && s.children == []
    requires (forall c :: 0 <= c < |s.calls| ==>
      s.calls[c].place.Queued? || s.calls[c].place.Checking? || s.calls[c].place.Returned? || s.calls[c].place.Raised?)
    ensures var t := Step(s, mv);
      && !t.managed && t.children == [] && t.log == s.log && t.loaded == s.loaded && |t.calls| == |s.calls|
      && forall c :: 0 <= c < |t.calls| ==>
        && t.calls[c].model == s.calls[c].model
        && (t.calls[c].place.Returned? && !s.calls[c].place.Returned? ==> s.loaded == Some(t.calls[c].model))
        && (t.calls[c].place.Raised? && !s.calls[c].place.Raised? ==>
              s.loaded != Some(t.calls[c].model) || mv == Abandon(c))
        && (t.calls[c].place.Queued? || t.calls[c].place.Checking? || t.calls[c].place.Returned?
            || t.calls[c].place.Raised?)
  {
    hide Paired;
  }

  // --- a swap from beginning to end -----------------------------------------------------------------------

  function Again(mv: Move, n: nat): seq<Move> { seq(n, i => mv) }

  lemma {:induction false} RunAppend(s: State, a: seq<Move>, b: seq<Move>)
    ensures Run(s, a + b) == Run(Run(s, a), b)
    decreases |b|
  {
    if b == [] {
      assert a + b == a;
    } else {
      hide Step;
      assert (a + b)[..|a + b| - 1] == a + b[..|b| - 1];
      RunAppend(s, a, b[..|b| - 1]);
    }
  }

  lemma RunOne(s: State, mv: Move)
    ensures Run(s, [mv]) == Step(s, mv)
  {
    assert [mv][..0] == [];
  }

  lemma {:induction false} Waiting(s: State, mv: Move, n: nat)
    requires Step(s, mv) == s
    ensures Run(s, Again(mv, n)) == s
  {
    if n > 0 {
      hide Step;
      assert Again(mv, n)[..n - 1] == Again(mv, n - 1);
      Waiting(s, mv, n - 1);
    }
  }

  /** The calls of `s`, with call `c` at another place. */
  function Moved(s: State, c: nat, p: Place): seq<Call>
    requires c < |s.calls|
  {
    s.calls[c := s.calls[c].(place := p)]
  }

  /** The children, the current one stopped. */
  predicate Stopped(before: seq<Child>, after: seq<Child>) {
    |after| == |before| && forall i :: 0 <= i < |before| ==> after[i] == before[i].(alive := false)
  }

  /** Up to the wait for the port. */
  lemma Evicts(s: State, c: nat) returns (d: State)
    requires Inv(s) && s.managed && s.lock.None? && c < |s.calls| && s.calls[c].place.Queued?
    requires s.loaded != Some(s.calls[c].model)
    ensures var model, first := s.calls[c].model, [Acquire(c, true)];
      Run(s, if s.calls[c].emits then first + [Resume(c, true, false, true)] else first) == d
    ensures d.calls == Moved(s, c, Draining) && d.managed && d.lock == Some(c)
    ensures Stopped(s.children, d.children) && d.proc.None? && d.loaded.None?
    ensures d.log == s.log + (if s.calls[c].emits then [Loading(c, s.calls[c].model, s.loaded)] else [])
  {
    hide Paired, Holding;
    var first, second := Acquire(c, true), Resume(c, true, false, true);
    var a := Step(s, first);
    d := if s.calls[c].emits then Step(a, second) else a;
    RunOne(s, first);
    RunAppend(s, [first], [second]);
    RunOne(a, second);
    assert s.log + [] == s.log;
    assert d.calls == Moved(s, c, Draining);
  }

  /** From there to an answer of the new server. */
  lemma Starts(d: State, c: nat, waits: nat, polls: nat) returns (r: State)
    requires d.managed && d.lock == Some(c) && c < |d.calls| && d.calls[c].place.Draining? && d.proc.None?
    ensures Run(d, Again(Resume(c, true, false, true), waits) + [Resume(c, false, false, true)]
                   + Again(Resume(c, false, false, true), polls) + [Resume(c, true, false, true)]) == r
    ensures r.calls == Moved(d, c, if d.calls[c].emits then Declaring else Returned)
    ensures r.children == d.children + [Child(d.calls[c].model, true, true)] && r.proc == Some(|d.children|)
    ensures r.loaded == Some(d.calls[c].model) && r.managed
    ensures if d.calls[c].emits then r.lock == Some(c) && r.log == d.log + [Ready(c, d.calls[c].model)]
            else r.lock.None? && r.log == d.log
  {
    var wait, poll := Resume(c, true, false, true), Resume(c, false, false, true);
    var w := Step(d, poll);
    r := Step(w, wait);
    Waiting(d, wait, waits);
    Waiting(w, poll, polls);
    RunOne(d, poll);
    RunOne(w, wait);
    RunAppend(d, Again(wait, waits), [poll]);
    RunAppend(d, Again(wait, waits) + [poll], Again(poll, polls));
    RunAppend(d, Again(wait, waits) + [poll] + Again(poll, polls), [wait]);
    assert r.calls == Moved(d, c, if d.calls[c].emits then Declaring else Returned);
  }

  /** The moves of a load in which nothing goes wrong: the old server takes `waits`
      polls to go quiet, the new one `polls` to answer. */
  function LoadMoves(c: nat, emits: bool, waits: nat, polls: nat): seq<Move> {
    var wait, poll := Resume(c, true, false, true), Resume(c, false, false, true);
    var middle := Again(wait, waits) + [poll] + Again(poll, polls) + [wait];
    if emits then [Acquire(c, true), wait] + middle + [wait] else [Acquire(c, true)] + middle
  }

  /** From any state with the lock free: whoever asks for another model gets it, when
      nothing goes wrong. The old server is stopped, a new one is started with that
      model and has answered, and the caller is told of both, in this order. */
  lemma EnsureSwaps(s: State, c: nat, waits: nat, polls: nat)
    requires Inv(s) && s.managed && s.lock.None? && c < |s.calls| && s.calls[c].place.Queued?
    requires s.loaded != Some(s.calls[c].model)
    ensures var t, call := Run(s, LoadMoves(c, s.calls[c].emits, waits, polls)), s.calls[c];
      && t.calls == Moved(s, c, Returned) && t.lock.None? && t.loaded == Some(call.model)
      && |t.children| == |s.children| + 1 && Stopped(s.children, t.children[..|s.children|])
      && t.proc == Some(|s.children|) && t.children[|s.children|] == Child(call.model, true, true)
      && t.log == s.log
        + (if call.emits then [Loading(c, call.model, s.loaded), Ready(c, call.model)] else [])
  {
    var d := Evicts(s, c);
    var r := Starts(d, c, waits, polls);
    Composed(s, d, r, c, waits, polls);
    hide Inv, Step, Run, LoadMoves;
    var call := s.calls[c];
    MovedAgain(s, d, c, Draining, Declaring);
    MovedAgain(s, d, c, Draining, Returned);
    if call.emits {
      Declares(r, c);
      MovedAgain(s, r, c, Declaring, Returned);
      assert s.log + [Loading(c, call.model, s.loaded)] + [Ready(c, call.model)]
        == s.log + [Loading(c, call.model, s.loaded), Ready(c, call.model)];
    } else {
      assert s.log + [] == s.log;
    }
    assert r.children[..|s.children|] == d.children;
  }

  lemma MovedAgain(s: State, t: State, c: nat, p: Place, q: Place)
    requires c < |s.calls| && t.calls == Moved(s, c, p)
    ensures Moved(t, c, q) == Moved(s, c, q)
  {
  }

  /** The stretches of a load, one after another. */
  lemma Composed(s: State, d: State, r: State, c: nat, waits: nat, polls: nat)
    requires c < |s.calls|
    requires Run(s, if s.calls[c].emits then [Acquire(c, true)] + [Resume(c, true, false, true)]
                    else [Acquire(c, true)]) == d
    requires Run(d, Again(Resume(c, true, false, true), waits) + [Resume(c, false, false, true)]
                   + Again(Resume(c, false, false, true), polls) + [Resume(c, true, false, true)]) == r
    ensures Run(s, LoadMoves(c, s.calls[c].emits, waits, polls))
      == if s.calls[c].emits then Step(r, Resume(c, true, false, true)) else r
  {
    hide Step, Run;
    var wait, poll := Resume(c, true, false, true), Resume(c, false, false, true);
    var middle := Again(wait, waits) + [poll] + Again(poll, polls) + [wait];
    if s.calls[c].emits {
      assert [Acquire(c, true)] + [wait] == [Acquire(c, true), wait];
      RunAppend(s, [Acquire(c, true), wait], middle);
      RunAppend(s, [Acquire(c, true), wait] + middle, [wait]);
      RunOne(r, wait);
    } else {
      RunAppend(s, [Acquire(c, true)], middle);
    }
  }

  lemma Declares(r: State, c: nat)
    requires c < |r.calls| && r.calls[c].place.Declaring?
    ensures Step(r, Resume(c, true, false, true)) == r.(calls := Moved(r, c, Returned), lock := None)
  {
  }
}
