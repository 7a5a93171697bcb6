/** One generation of the agent loop (backend/agent/loop.py:294-325): a task that
    produces swap events and tokens, and a consumer that drains a queue, advancing
    in any order. Swap events are audited when produced; tokens are audited in the
    same breath in which they are yielded. */
module Wire {
  import opened Codes
  import opened Events

  /** What generate() does while it runs: emit a swap event, or put a token. */
  datatype Produce = Swap(ev: Event) | Put(text: Text)

  /** `closed` is the done marker standing behind everything in the queue. */
  datatype Wire = Wire(
    todo: seq<Produce>, closed: bool, queue: seq<Text>, held: Option<Text>,
    pending: seq<Event>, yielded: seq<Event>, audited: seq<Event>, finished: bool)

  function Start(program: seq<Produce>): Wire {
    Wire(program, false, [], None, [], [], [], false)
  }

  predicate CanProduce(w: Wire) { w.todo != [] || !w.closed }

  predicate CanConsume(w: Wire) { w.held.Some? || w.queue != [] || w.closed }

  /** One atomic step of the generation task. */
  function ProducerStep(w: Wire): Wire
    requires CanProduce(w)
  {
    if w.todo == [] then w.(closed := true)
    else match w.todo[0]
      case Swap(ev) => w.(todo := w.todo[1..], audited := w.audited + [ev], pending := w.pending + [ev])
      case Put(text) => w.(todo := w.todo[1..], queue := w.queue + [text])
  }

  /** One atomic step of the consumer: each yield hands control away. */
  function ConsumerStep(w: Wire): Wire
    requires CanConsume(w)
  {
    match w.held
    case Some(text) =>
      if w.pending != [] then w.(yielded := w.yielded + [w.pending[0]], pending := w.pending[1..])
      else w.(audited := w.audited + [Token(text)], yielded := w.yielded + [Token(text)], held := None)
    case None =>
      if w.queue != [] then w.(held := Some(w.queue[0]), queue := w.queue[1..])
      else w.(finished := true)
  }

  /** The scheduler's choice, as far as it has one. */
  function Step(w: Wire, producerFirst: bool): Wire {
    if CanProduce(w) && (producerFirst || !CanConsume(w)) then ProducerStep(w) else ConsumerStep(w)
  }

  function Measure(w: Wire): nat {
    3 * |w.todo| + (if w.closed then 0 else 1) + 2 * |w.queue| + (if w.held.Some? then 1 else 0)
    + |w.pending| + (if w.finished then 0 else 1)
  }

  lemma StepProgress(w: Wire, producerFirst: bool)
    requires !w.finished
    ensures Measure(Step(w, producerFirst)) < Measure(w)
  {
  }

  /** Run to the end under a schedule; when it is used up the consumer goes first. */
  function RunAll(w: Wire, schedule: seq<bool>): Wire
    decreases Measure(w)
  {
    if w.finished then w
    else
      StepProgress(w, schedule != [] && schedule[0]);
      RunAll(Step(w, schedule != [] && schedule[0]), if schedule == [] then [] else schedule[1..])
  }

  // --- what is conserved -----------------------------------------------------------------------

  function Puts(program: seq<Produce>): seq<Text> {
    if program == [] then []
    else (if program[0].Put? then [program[0].text] else []) + Puts(program[1..])
  }

  function Swaps(program: seq<Produce>): seq<Event> {
    if program == [] then []
    else (if program[0].Swap? then [program[0].ev] else []) + Swaps(program[1..])
  }

  function TokensIn(events: seq<Event>): seq<Text> {
    if events == [] then []
    else TokensIn(events[..|events| - 1]) + (if events[|events| - 1].Token? then [events[|events| - 1].text] else [])
  }

  function SwapsIn(events: seq<Event>): seq<Event> {
    if events == [] then []
    else SwapsIn(events[..|events| - 1]) + (if IsSwap(events[|events| - 1]) then [events[|events| - 1]] else [])
  }

  predicate SwapsOnly(events: seq<Event>) { forall i :: 0 <= i < |events| ==> IsSwap(events[i]) }

  /** Only swap events are emitted through `emit`. */
  predicate GoodProgram(program: seq<Produce>) {
    forall i :: 0 <= i < |program| && program[i].Swap? ==> IsSwap(program[i].ev)
  }

  function HeldTexts(w: Wire): seq<Text> { match w.held case Some(t) => [t] case None => [] }

  /** Nothing is yielded that is not audited, nothing audited waits except swap
      events, and nothing is lost, repeated or reordered. */
  predicate Inv(w: Wire, program: seq<Produce>) {
    && GoodProgram(w.todo)
    && w.audited == w.yielded + w.pending
    && SwapsOnly(w.pending) && IsGeneration(w.yielded)
    && TokensIn(w.yielded) + HeldTexts(w) + w.queue + Puts(w.todo) == Puts(program)
    && SwapsIn(w.yielded) + w.pending + Swaps(w.todo) == Swaps(program)
    && (w.closed ==> w.todo == [])
    && (w.finished ==> w.closed && w.held.None? && w.queue == [])
  }

  lemma TokensSnoc(events: seq<Event>, ev: Event)
    ensures TokensIn(events + [ev]) == if ev.Token? then TokensIn(events) + [ev.text] else TokensIn(events)
    ensures SwapsIn(events + [ev]) == if IsSwap(ev) then SwapsIn(events) + [ev] else SwapsIn(events)
  {
    assert (events + [ev])[..|events|] == events;
    assert TokensIn(events) + [] == TokensIn(events) && SwapsIn(events) + [] == SwapsIn(events);
  }

  /** What is left to do, after its next item. */
  lemma TodoCons(program: seq<Produce>)
    requires program != [] && GoodProgram(program)
    ensures GoodProgram(program[1..]) && (program[0].Swap? ==> IsSwap(program[0].ev))
    ensures Puts(program) == (if program[0].Put? then [program[0].text] + Puts(program[1..]) else Puts(program[1..]))
    ensures Swaps(program) == (if program[0].Swap? then [program[0].ev] + Swaps(program[1..]) else Swaps(program[1..]))
  {
    assert [] + Puts(program[1..]) == Puts(program[1..]) && [] + Swaps(program[1..]) == Swaps(program[1..]);
  }

  lemma SwapKeeps(w: Wire, program: seq<Produce>)
    requires Inv(w, program) && w.todo != [] && w.todo[0].Swap? && !w.finished
    ensures Inv(ProducerStep(w), program)
  {
    TodoCons(w.todo);
    var ev, back := w.todo[0].ev, Swaps(w.todo[1..]);
    assert SwapsOnly(w.pending + [ev]);
    hide GoodProgram, IsGeneration, TokensIn, SwapsIn, Puts, Swaps, IsSwap, SwapsOnly;
    SameHeld(w, ProducerStep(w));
    hide HeldTexts;
    Shift(SwapsIn(w.yielded) + w.pending, ev, back);
    PutLast(SwapsIn(w.yielded), w.pending, ev);
    PutLast(w.yielded, w.pending, ev);
  }

  lemma PutKeeps(w: Wire, program: seq<Produce>)
    requires Inv(w, program) && w.todo != [] && w.todo[0].Put? && !w.finished
    ensures Inv(ProducerStep(w), program)
  {
    TodoCons(w.todo);
    hide GoodProgram, IsGeneration, TokensIn, SwapsIn, Puts, Swaps, SwapsOnly, HeldTexts;
    var text, back := w.todo[0].text, Puts(w.todo[1..]);
    Shift(TokensIn(w.yielded) + HeldTexts(w) + w.queue, text, back);
    PutLast(TokensIn(w.yielded) + HeldTexts(w), w.queue, text);
    assert HeldTexts(ProducerStep(w)) == HeldTexts(w) by { SameHeld(w, ProducerStep(w)); }
  }

  lemma SameHeld(a: Wire, b: Wire)
    requires a.held == b.held
    ensures HeldTexts(a) == HeldTexts(b)
  {
  }

  lemma PutLast<T>(a: seq<T>, b: seq<T>, x: T)
    ensures (a + b) + [x] == a + (b + [x])
  {
  }

  lemma ProducerKeeps(w: Wire, program: seq<Produce>)
    requires Inv(w, program) && CanProduce(w) && !w.finished
    ensures Inv(ProducerStep(w), program)
  {
    if w.todo != [] {
      hide Inv, ProducerStep;
      if w.todo[0].Swap? { SwapKeeps(w, program); } else { PutKeeps(w, program); }
    }
  }

  lemma Shift<T>(front: seq<T>, x: T, back: seq<T>)
    ensures front + ([x] + back) == (front + [x]) + back
  {
  }

  lemma PendingKeeps(w: Wire, program: seq<Produce>)
    requires Inv(w, program) && w.held.Some? && w.pending != [] && !w.finished
    ensures Inv(ConsumerStep(w), program)
  {
    var ev, rest := w.pending[0], w.pending[1..];
    assert IsSwap(ev) && SwapsOnly(rest) && IsGeneration(w.yielded + [ev]);
    hide GoodProgram, IsGeneration, TokensIn, SwapsIn, Puts, Swaps, SwapsOnly;
    TokensSnoc(w.yielded, ev);
    assert w.pending == [ev] + rest;
    Shift(SwapsIn(w.yielded), ev, rest);
    Shift(w.yielded, ev, rest);
  }

  lemma TokenKeeps(w: Wire, program: seq<Produce>)
    requires Inv(w, program) && w.held.Some? && w.pending == [] && !w.finished
    ensures Inv(ConsumerStep(w), program)
  {
    var text := w.held.value;
    assert IsGeneration(w.yielded + [Token(text)]);
    hide GoodProgram, IsGeneration, TokensIn, SwapsIn, Puts, Swaps;
    TokensSnoc(w.yielded, Token(text));
    assert (TokensIn(w.yielded) + [text]) + [] == TokensIn(w.yielded) + [text];
    assert w.yielded + [] == w.yielded;
    assert (w.yielded + [Token(text)]) + [] == w.yielded + [Token(text)];
  }

  lemma TakeKeeps(w: Wire, program: seq<Produce>)
    requires Inv(w, program) && w.held.None? && w.queue != [] && !w.finished
    ensures Inv(ConsumerStep(w), program)
  {
    hide GoodProgram, IsGeneration, TokensIn, SwapsIn, Puts, Swaps, SwapsOnly;
    assert w.queue == [w.queue[0]] + w.queue[1..];
    assert TokensIn(w.yielded) + [] == TokensIn(w.yielded);
    Shift(TokensIn(w.yielded), w.queue[0], w.queue[1..]);
  }

  lemma ConsumerKeeps(w: Wire, program: seq<Produce>)
    requires Inv(w, program) && CanConsume(w) && !w.finished
    ensures Inv(ConsumerStep(w), program)
  {
    if w.held.Some? {
      if w.pending != [] { PendingKeeps(w, program); } else { TokenKeeps(w, program); }
    } else if w.queue != [] {
      TakeKeeps(w, program);
    }
  }

  lemma {:induction false} RunKeeps(w: Wire, program: seq<Produce>, schedule: seq<bool>)
    requires Inv(w, program)
    ensures RunAll(w, schedule).finished && Inv(RunAll(w, schedule), program)
    decreases Measure(w)
  {
    if !w.finished {
      var choice := schedule != [] && schedule[0];
      StepProgress(w, choice);
      if CanProduce(w) && (choice || !CanConsume(w)) { ProducerKeeps(w, program); } else { ConsumerKeeps(w, program); }
      RunKeeps(Step(w, choice), program, if schedule == [] then [] else schedule[1..]);
    }
  }

  /** Under every interleaving: what is audited is what is yielded followed by the
      swap events still pending, all tokens arrive in order, and the swap events
      that have not been yielded are exactly the pending ones. */
  lemma EveryInterleaving(program: seq<Produce>, schedule: seq<bool>)
    requires GoodProgram(program)
    ensures var w := RunAll(Start(program), schedule);
      && w.audited == w.yielded + w.pending
      && SwapsOnly(w.pending) && IsGeneration(w.yielded)
      && TokensIn(w.yielded) == Puts(program)
      && SwapsIn(w.yielded) + w.pending == Swaps(program)
  {
    assert [] + Puts(program) == Puts(program) && [] + Swaps(program) == Swaps(program);
    RunKeeps(Start(program), program, schedule);
    var w := RunAll(Start(program), schedule);
    assert TokensIn(w.yielded) + [] + [] + [] == TokensIn(w.yielded);
    assert SwapsIn(w.yielded) + w.pending + [] == SwapsIn(w.yielded) + w.pending;
  }

  // --- the order on the wire -----------------------------------------------------------------------

  /** ensure() runs before the first token: no swap event after a token. */
  predicate SwapsFirst(program: seq<Produce>) {
    program == [] || (if program[0].Swap? then SwapsFirst(program[1..]) else Swaps(program) == [])
  }

  function TokenEvents(texts: seq<Text>): seq<Event> {
    seq(|texts|, i requires 0 <= i < |texts| => Token(texts[i]))
  }

  /** Swap events, then tokens, and no tokens while swap events are outstanding. */
  predicate Ordered(w: Wire) {
    && w.yielded == SwapsIn(w.yielded) + TokenEvents(TokensIn(w.yielded))
    && SwapsFirst(w.todo)
    && (TokensIn(w.yielded) != [] ==> w.pending == [])
    && (TokensIn(w.yielded) != [] || w.held.Some? || w.queue != [] ==> Swaps(w.todo) == [])
  }

  lemma ProducerOrdered(w: Wire)
    requires Ordered(w) && CanProduce(w)
    ensures Ordered(ProducerStep(w))
  {
    hide TokensIn, SwapsIn, TokenEvents;
    if w.todo != [] {
      assert [] + Swaps(w.todo[1..]) == Swaps(w.todo[1..]);
      if w.todo[0].Put? { NoSwapsFirst(w.todo[1..]); }
    }
  }

  lemma PendingOrdered(w: Wire)
    requires Ordered(w) && w.held.Some? && w.pending != [] && IsSwap(w.pending[0])
    ensures Ordered(ConsumerStep(w))
  {
    hide TokensIn, SwapsIn, Swaps, SwapsFirst;
    var ev := w.pending[0];
    TokensSnoc(w.yielded, ev);
    assert TokenEvents([]) == [];
    assert w.yielded == SwapsIn(w.yielded);
    assert (SwapsIn(w.yielded) + [ev]) + [] == w.yielded + [ev];
  }

  lemma TokenOrdered(w: Wire)
    requires Ordered(w) && w.held.Some? && w.pending == []
    ensures Ordered(ConsumerStep(w))
  {
    hide TokensIn, SwapsIn, Swaps, SwapsFirst, TokenEvents;
    var text := w.held.value;
    TokensSnoc(w.yielded, Token(text));
    TokenEventsSnoc(TokensIn(w.yielded), text);
    PutLast(SwapsIn(w.yielded), TokenEvents(TokensIn(w.yielded)), Token(text));
  }

  lemma StepOrdered(w: Wire, program: seq<Produce>, choice: bool)
    requires Inv(w, program) && Ordered(w) && !w.finished
    ensures Ordered(Step(w, choice))
  {
    if CanProduce(w) && (choice || !CanConsume(w)) {
      ProducerOrdered(w);
    } else if w.held.Some? {
      if w.pending != [] { PendingOrdered(w); } else { TokenOrdered(w); }
    }
  }

  lemma TokenEventsSnoc(texts: seq<Text>, t: Text)
    ensures TokenEvents(texts + [t]) == TokenEvents(texts) + [Token(t)]
  {
  }

  lemma NoSwapsFirst(program: seq<Produce>)
    requires Swaps(program) == []
    ensures SwapsFirst(program)
  {
  }

  lemma {:induction false} RunOrdered(w: Wire, program: seq<Produce>, schedule: seq<bool>)
    requires Inv(w, program) && Ordered(w)
    ensures Ordered(RunAll(w, schedule))
    decreases Measure(w)
  {
    if !w.finished {
      var choice := schedule != [] && schedule[0];
      StepProgress(w, choice);
      StepOrdered(w, program, choice);
      if CanProduce(w) && (choice || !CanConsume(w)) { ProducerKeeps(w, program); } else { ConsumerKeeps(w, program); }
      RunOrdered(Step(w, choice), program, if schedule == [] then [] else schedule[1..]);
    }
  }

  lemma StartOrdered(program: seq<Produce>)
    requires GoodProgram(program) && SwapsFirst(program)
    ensures Inv(Start(program), program) && Ordered(Start(program)) && TokenEvents([]) == []
  {
    assert [] + Puts(program) == Puts(program) && [] + Swaps(program) == Swaps(program);
  }

  /** When swap events come before tokens, as generate() emits them, the schedule
      cannot be told from the wire: the swap events, then the tokens. */
  lemma ScheduleInvisible(program: seq<Produce>, schedule: seq<bool>)
    requires GoodProgram(program) && SwapsFirst(program)
    ensures var w := RunAll(Start(program), schedule);
      w.yielded + w.pending == Swaps(program) + TokenEvents(Puts(program))
  {
    EveryInterleaving(program, schedule);
    StartOrdered(program);
    hide RunAll, Puts, Swaps, TokensIn, SwapsIn, SwapsFirst, GoodProgram, SwapsOnly, IsGeneration, Inv;
    RunOrdered(Start(program), program, schedule);
    var w := RunAll(Start(program), schedule);
    AllSwapsThenTokens(w.yielded, SwapsIn(w.yielded), TokenEvents(Puts(program)), w.pending, Swaps(program));
  }

  lemma AllSwapsThenTokens(yielded: seq<Event>, swaps: seq<Event>, tokens: seq<Event>, pending: seq<Event>,
    all: seq<Event>)
    requires yielded == swaps + tokens && swaps + pending == all && (tokens != [] ==> pending == [])
    ensures yielded + pending == all + tokens
  {
    if tokens == [] {
      assert yielded == swaps && all + tokens == all;
    } else {
      assert all == swaps && yielded + pending == yielded;
    }
  }

  /** With nothing to say, nothing is ever held back for a token. */
  lemma {:induction false} QuietRun(w: Wire, program: seq<Produce>, schedule: seq<bool>)
    requires Inv(w, program) && Puts(program) == [] && w.yielded == []
    ensures RunAll(w, schedule).yielded == []
    decreases Measure(w)
  {
    if !w.finished {
      NothingHeld(w, program);
      var choice := schedule != [] && schedule[0];
      StepProgress(w, choice);
      if CanProduce(w) && (choice || !CanConsume(w)) { ProducerKeeps(w, program); } else { ConsumerKeeps(w, program); }
      QuietRun(Step(w, choice), program, if schedule == [] then [] else schedule[1..]);
    }
  }

  lemma NothingHeld(w: Wire, program: seq<Produce>)
    requires Inv(w, program) && Puts(program) == []
    ensures w.held.None? && w.queue == []
  {
    hide GoodProgram, SwapsOnly, IsGeneration, TokensIn, SwapsIn, Swaps, Puts;
    assert |TokensIn(w.yielded) + HeldTexts(w) + w.queue + Puts(w.todo)| == 0;
  }

  /** What a generation has put on the wire when it ends, and what it has left
      waiting, when swap events come first: the same for every schedule. */
  lemma WireFixed(program: seq<Produce>, schedule: seq<bool>)
    requires GoodProgram(program) && SwapsFirst(program)
    ensures var w := RunAll(Start(program), schedule);
      && w.yielded == (if Puts(program) == [] then [] else Swaps(program) + TokenEvents(Puts(program)))
      && w.pending == (if Puts(program) == [] then Swaps(program) else [])
  {
    ScheduleInvisible(program, schedule);
    EveryInterleaving(program, schedule);
    StartOrdered(program);
    RunOrdered(Start(program), program, schedule);
    if Puts(program) == [] { QuietRun(Start(program), program, schedule); }
    hide RunAll, Puts, Swaps, TokensIn, SwapsIn, SwapsFirst, GoodProgram, SwapsOnly, IsGeneration, Inv;
    var w := RunAll(Start(program), schedule);
    assert w.yielded + [] == w.yielded && [] + w.pending == w.pending && Swaps(program) + [] == Swaps(program);
  }
}
