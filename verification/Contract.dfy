/** The contract events on the wire and off it: what contracts/contracts/events.py
    writes of each, what the client reads back, and a whole run from the loop to
    the screen. */
module Contract {
  import opened Codes
  import opened Json
  import opened Events
  import opened Sse
  import Torn
  import AgentLoop
  import Client
  import Compaction
  import Protocol
  import Session
  import Transcript

  // --- whole numbers --------------------------------------------------------------------------

  function DigitsOf(t: Text): int { if t == [] then 0 else 10 * DigitsOf(t[..|t| - 1]) + (t[|t| - 1] - 0x30) }

  function IntOf(lexeme: Text): Option<int> {
    if |lexeme| > 1 && lexeme[0] == '-' as int && AllDigits(lexeme[1..]) then Some(-DigitsOf(lexeme[1..]))
    else if lexeme != [] && AllDigits(lexeme) then Some(DigitsOf(lexeme))
    else None
  }

  lemma {:induction false} DigitsBack(n: nat)
    ensures GoodDigits(Digits(n)) && DigitsOf(Digits(n)) == n && (n > 0 ==> Digits(n)[0] != '0' as int)
  {
    if n >= 10 {
      DigitsBack(n / 10);
      assert Digits(n)[..|Digits(n)| - 1] == Digits(n / 10);
    }
  }

  lemma PartsOf(minus: bool, d: Text)
    requires GoodDigits(d)
    ensures NumberParts((if minus then ['-' as int] else []) + d).Some?
  {
    var lexeme := (if minus then ['-' as int] else []) + d;
    var m := if lexeme != [] && lexeme[0] == '-' as int then 1 else 0;
    assert m == (if minus then 1 else 0) && lexeme[m..] == d;
    CountDigitsOver(d, []);
    assert d + [] == d && d[..|d|] == d && d[|d|..] == [];
    assert FractionLength([]) == 0;
    assert Yield(NumberTree(minus, d, [], [])) == lexeme;
  }

  /** A number is written as JSON allows, and read back. */
  lemma DecimalBack(n: int)
    ensures IntOf(Decimal(n)) == Some(n) && NumberParts(Decimal(n)).Some?
  {
    hide NumberParts, Digits, DigitsOf;
    var d := Digits(if n < 0 then -n else n);
    DigitsBack(if n < 0 then -n else n);
    PartsOf(n < 0, d);
    if n < 0 { assert Decimal(n)[1..] == d; } else { assert [] + d == d; }
  }

  // --- writing --------------------------------------------------------------------------------------

  function TypeIndex(ev: Event): (i: nat)
    ensures i < |EVENT_TYPES|
  {
    match ev
    case SessionStart(_) => 0
    case RouterDecision(_) => 1
    case ModelLoading(_, _, _) => 2
    case ModelReady(_, _, _) => 3
    case AgentStep(_, _) => 4
    case Token(_) => 5
    case ToolCall(_, _, _) => 6
    case ToolResult(_, _, _, _, _) => 7
    case Citation(_, _, _, _) => 8
    case Artifact(_, _) => 9
    case AgentError(_, _, _) => 10
    case Done(_, _, _, _, _) => 11
  }

  function Int(n: int): Value { Number(Decimal(n)) }

  function OrNull(t: Option<Text>): Value { if t.Some? then Str(t.value) else Null }

  /** The fields of a contract event that the client reads, in the order they are
      declared. */
  function Fields(ev: Event): seq<(Text, Value)> {
    [(Lit("type"), Str(EVENT_TYPES[TypeIndex(ev)]))] +
    match ev
    case SessionStart(id) => [(Lit("session_id"), Str(id))]
    case RouterDecision(model) => [(Lit("model_id"), Str(model))]
    case ModelLoading(model, evicting, eta) =>
      [(Lit("model_id"), Str(model)), (Lit("evicting"), OrNull(evicting)), (Lit("eta_s"), Int(eta))]
    case ModelReady(model, load, vram) => [(Lit("model_id"), Str(model)), (Lit("load_ms"), Int(load)),
      (Lit("vram_mb"), Int(vram))]
    case AgentStep(step, most) => [(Lit("step"), Int(step)), (Lit("max_steps"), Int(most))]
    case Token(text) => [(Lit("text"), Str(text))]
    case ToolCall(id, name, args) => [(Lit("call_id"), Str(id)), (Lit("name"), Str(name)), (Lit("args"), Object(args))]
    case ToolResult(id, ok, summary, ms, truncated) =>
      [(Lit("call_id"), Str(id)), (Lit("ok"), Bool(ok)), (Lit("summary"), Str(summary)), (Lit("duration_ms"), Int(ms)),
       (Lit("truncated"), Bool(truncated))]
    case Citation(doc, file, page, snippet) =>
      [(Lit("doc_id"), Str(doc)), (Lit("filename"), Str(file)), (Lit("page"), Int(page)),
        (Lit("snippet"), Str(snippet))]
    case Artifact(id, file) => [(Lit("artifact_id"), Str(id)), (Lit("filename"), Str(file))]
    case AgentError(code, message, recoverable) =>
      [(Lit("code"), Str(code)), (Lit("message"), Str(message)), (Lit("recoverable"), Bool(recoverable))]
    case Done(reason, steps, spent, made, latency) =>
      [(Lit("stop_reason"), Str(AgentLoop.ReasonName(reason))), (Lit("steps_used"), Int(steps)),
        (Lit("tokens_in"), Int(spent)),
       (Lit("tokens_out"), Int(made)), (Lit("latency_ms"), Int(latency))]
  }

  /** The event as an object; `more` are the fields the client does not read. */
  function Encoded(ev: Event, more: seq<(Text, Value)>): Value { Object(Fields(ev) + more) }

  /** All that the event says can be sent: its texts hold no lone surrogate. */
  predicate Sayable(ev: Event) {
    match ev
    case SessionStart(id) => Encodable(id)
    case RouterDecision(model) => Encodable(model)
    case ModelLoading(model, evicting, _) => Encodable(model) && (evicting.Some? ==> Encodable(evicting.value))
    case ModelReady(model, _, _) => Encodable(model)
    case AgentStep(_, _) => true
    case Token(text) => Encodable(text)
    case ToolCall(id, name, args) => Encodable(id) && Encodable(name) && Printable(Object(args))
    case ToolResult(id, _, summary, _, _) => Encodable(id) && Encodable(summary)
    case Citation(doc, file, _, snippet) => Encodable(doc) && Encodable(file) && Encodable(snippet)
    case Artifact(id, file) => Encodable(id) && Encodable(file)
    case AgentError(code, message, _) => Encodable(code) && Encodable(message)
    case Done(_, _, _, _, _) => true
  }

  /** Other fields of the object, none of them under a name of those. */
  predicate Spare(ev: Event, more: seq<(Text, Value)>) {
    forall i :: 0 <= i < |more| ==>
      Encodable(more[i].0) && Printable(more[i].1) && forall k :: 0 <= k < |Fields(ev)| ==> Fields(ev)[k].0 != more[i].0
  }

  // --- reading ----------------------------------------------------------------------------------------

  function TextAt(members: seq<(Text, Value)>, key: Text): Option<Text> {
    match Get(members, key) case Some(Str(t)) => Some(t) case _ => None
  }

  function IntAt(members: seq<(Text, Value)>, key: Text): Option<int> {
    match Get(members, key) case Some(Number(lexeme)) => IntOf(lexeme) case _ => None
  }

  function BoolAt(members: seq<(Text, Value)>, key: Text): Option<bool> {
    match Get(members, key) case Some(Bool(b)) => Some(b) case _ => None
  }

  function MembersAt(members: seq<(Text, Value)>, key: Text): Option<seq<(Text, Value)>> {
    match Get(members, key) case Some(Object(args)) => Some(args) case _ => None
  }

  /** A text or null. */
  function MaybeAt(members: seq<(Text, Value)>, key: Text): Option<Option<Text>> {
    match Get(members, key) case Some(Str(t)) => Some(Some(t)) case Some(Null) => Some(None) case _ => None
  }

  function ReasonOf(name: Text): Option<StopReason> {
    if name == AgentLoop.ReasonName(FinalAnswer) then Some(FinalAnswer)
    else if name == AgentLoop.ReasonName(MaxSteps) then Some(MaxSteps)
    else if name == AgentLoop.ReasonName(Error) then Some(Error)
    else if name == AgentLoop.ReasonName(Cancelled) then Some(Cancelled)
    else None
  }

  function ReasonAt(members: seq<(Text, Value)>, key: Text): Option<StopReason> {
    var name := TextAt(members, key);
    if name.Some? then ReasonOf(name.value) else None
  }

  function ReadLoading(f: seq<(Text, Value)>): Option<Event> {
    var model, evicting, eta := TextAt(f, Lit("model_id")), MaybeAt(f, Lit("evicting")), IntAt(f, Lit("eta_s"));
    if model.Some? && evicting.Some? && eta.Some?
      then Some(ModelLoading(model.value, evicting.value, eta.value)) else None
  }

  function ReadReady(f: seq<(Text, Value)>): Option<Event> {
    var model, load, vram := TextAt(f, Lit("model_id")), IntAt(f, Lit("load_ms")), IntAt(f, Lit("vram_mb"));
    if model.Some? && load.Some? && vram.Some? then Some(ModelReady(model.value, load.value, vram.value)) else None
  }

  function ReadStep(f: seq<(Text, Value)>): Option<Event> {
    var step, most := IntAt(f, Lit("step")), IntAt(f, Lit("max_steps"));
    if step.Some? && most.Some? then Some(AgentStep(step.value, most.value)) else None
  }

  function ReadCall(f: seq<(Text, Value)>): Option<Event> {
    var id, name, args := TextAt(f, Lit("call_id")), TextAt(f, Lit("name")), MembersAt(f, Lit("args"));
    if id.Some? && name.Some? && args.Some? then Some(ToolCall(id.value, name.value, args.value)) else None
  }

  function ReadResult(f: seq<(Text, Value)>): Option<Event> {
    var id, ok, summary := TextAt(f, Lit("call_id")), BoolAt(f, Lit("ok")), TextAt(f, Lit("summary"));
    var ms, truncated := IntAt(f, Lit("duration_ms")), BoolAt(f, Lit("truncated"));
    if id.Some? && ok.Some? && summary.Some? && ms.Some? && truncated.Some?
    then Some(ToolResult(id.value, ok.value, summary.value, ms.value, truncated.value)) else None
  }

  function ReadCitation(f: seq<(Text, Value)>): Option<Event> {
    var doc, file, page, snippet := TextAt(f, Lit("doc_id")), TextAt(f, Lit("filename")), IntAt(f, Lit("page")),
      TextAt(f, Lit("snippet"));
    if doc.Some? && file.Some? && page.Some? && snippet.Some?
    then Some(Citation(doc.value, file.value, page.value, snippet.value)) else None
  }

  function ReadArtifact(f: seq<(Text, Value)>): Option<Event> {
    var id, file := TextAt(f, Lit("artifact_id")), TextAt(f, Lit("filename"));
    if id.Some? && file.Some? then Some(Artifact(id.value, file.value)) else None
  }

  function ReadError(f: seq<(Text, Value)>): Option<Event> {
    var code, message, recoverable := TextAt(f, Lit("code")), TextAt(f, Lit("message")), BoolAt(f, Lit("recoverable"));
    if code.Some? && message.Some? && recoverable.Some?
      then Some(AgentError(code.value, message.value, recoverable.value)) else None
  }

  function ReadDone(f: seq<(Text, Value)>): Option<Event> {
    var reason, steps := ReasonAt(f, Lit("stop_reason")), IntAt(f, Lit("steps_used"));
    var spent, made, latency := IntAt(f, Lit("tokens_in")), IntAt(f, Lit("tokens_out")), IntAt(f, Lit("latency_ms"));
    if reason.Some? && steps.Some? && spent.Some? && made.Some? && latency.Some?
    then Some(Done(reason.value, steps.value, spent.value, made.value, latency.value)) else None
  }

  function ReadStart(f: seq<(Text, Value)>): Option<Event> {
    var id := TextAt(f, Lit("session_id"));
    if id.Some? then Some(SessionStart(id.value)) else None
  }

  function ReadRouting(f: seq<(Text, Value)>): Option<Event> {
    var model := TextAt(f, Lit("model_id"));
    if model.Some? then Some(RouterDecision(model.value)) else None
  }

  function ReadToken(f: seq<(Text, Value)>): Option<Event> {
    var text := TextAt(f, Lit("text"));
    if text.Some? then Some(Token(text.value)) else None
  }

  /** The fields read as those of type number `i`. */
  function ReadAs(i: nat, f: seq<(Text, Value)>): Option<Event> {
    if i == 0 then ReadStart(f) else if i == 1 then ReadRouting(f) else if i == 2 then ReadLoading(f)
    else if i == 3 then ReadReady(f) else if i == 4 then ReadStep(f) else if i == 5 then ReadToken(f)
    else if i == 6 then ReadCall(f) else if i == 7 then ReadResult(f) else if i == 8 then ReadCitation(f)
    else if i == 9 then ReadArtifact(f) else if i == 10 then ReadError(f) else if i == 11 then ReadDone(f)
    else None
  }

  function Position(t: Text, list: seq<Text>): nat {
    if list == [] || list[0] == t then 0 else 1 + Position(t, list[1..])
  }

  /** The event an object stands for, by its type and the fields of that type. */
  function Decoded(v: Value): Option<Event> {
    if IsEvent(v) then ReadAs(Position(Kind(v), EVENT_TYPES), v.members) else None
  }

  // --- one event there and back -----------------------------------------------------------------------

  predicate DistinctKeys(members: seq<(Text, Value)>) {
    forall i, j :: 0 <= i < j < |members| ==> members[i].0 != members[j].0
  }

  /** With distinct keys, and other members behind, every field is found. */
  lemma {:induction false} GetField(fields: seq<(Text, Value)>, more: seq<(Text, Value)>, i: nat)
    requires DistinctKeys(fields) && i < |fields|
    requires forall k :: 0 <= k < |more| ==> more[k].0 != fields[i].0
    ensures Get(fields + more, fields[i].0) == Some(fields[i].1)
  {
    var all := fields + more;
    assert all[1..] == fields[1..] + more;
    if i > 0 {
      GetField(fields[1..], more, i - 1);
    } else {
      forall k | 0 <= k < |all[1..]| ensures all[1..][k].0 != fields[0].0 {
        if k < |fields| - 1 { assert all[1..][k] == fields[k + 1]; }
          else { assert all[1..][k] == more[k - (|fields| - 1)]; }
      }
    }
  }

  /** A number that tells the names here apart: the length and the first two
      characters. */
  function Print(name: Text): int { if |name| < 2 then |name| else 0x10000 * |name| + 0x100 * name[0] + name[1] }

  predicate AllDiffer(names: seq<Text>) {
    forall i, j :: 0 <= i < j < |names| ==> Print(names[i]) != Print(names[j])
  }

  lemma TypesDiffer()
    ensures AllDiffer(EVENT_TYPES)
  {
    TypePrints();
    hide Print, EVENT_TYPES;
  }

  lemma TypePrints()
    ensures |EVENT_TYPES| == 12
    ensures Print(EVENT_TYPES[0]) == 0xD7365 && Print(EVENT_TYPES[1]) == 0xF726F && Print(EVENT_TYPES[2]) == 0xD6D6F
    ensures Print(EVENT_TYPES[3]) == 0xB6D6F && Print(EVENT_TYPES[4]) == 0xA6167 && Print(EVENT_TYPES[5]) == 0x5746F
    ensures Print(EVENT_TYPES[6]) == 0x9746F && Print(EVENT_TYPES[7]) == 0xB746F && Print(EVENT_TYPES[8]) == 0x86369
    ensures Print(EVENT_TYPES[9]) == 0x86172 && Print(EVENT_TYPES[10]) == 0x56572 && Print(EVENT_TYPES[11]) == 0x4646F
  {
  }

  lemma SwapPrints()
    ensures Print(Lit("type")) == 0x47479 && Print(Lit("session_id")) == 0xA7365 && Print(Lit("model_id")) == 0x86D6F
    ensures Print(Lit("evicting")) == 0x86576 && Print(Lit("eta_s")) == 0x56574 && Print(Lit("load_ms")) == 0x76C6F
    ensures Print(Lit("vram_mb")) == 0x77672 && Print(Lit("step")) == 0x47374 && Print(Lit("max_steps")) == 0x96D61
    ensures Print(Lit("text")) == 0x47465
  {
  }

  lemma CallPrints()
    ensures Print(Lit("call_id")) == 0x76361 && Print(Lit("name")) == 0x46E61 && Print(Lit("args")) == 0x46172
    ensures Print(Lit("ok")) == 0x26F6B && Print(Lit("summary")) == 0x77375 && Print(Lit("duration_ms")) == 0xB6475
    ensures Print(Lit("truncated")) == 0x97472 && Print(Lit("doc_id")) == 0x6646F && Print(Lit("filename")) == 0x86669
    ensures Print(Lit("page")) == 0x47061 && Print(Lit("snippet")) == 0x7736E && Print(Lit("artifact_id")) == 0xB6172
  {
  }

  lemma DonePrints()
    ensures Print(Lit("code")) == 0x4636F && Print(Lit("message")) == 0x76D65 && Print(Lit("recoverable")) == 0xB7265
    ensures Print(Lit("stop_reason")) == 0xB7374 && Print(Lit("steps_used")) == 0xA7374
        && Print(Lit("tokens_in")) == 0x9746F
    ensures Print(Lit("tokens_out")) == 0xA746F && Print(Lit("latency_ms")) == 0xA6C61
  {
  }

  predicate KeysDiffer(fields: seq<(Text, Value)>) {
    forall i, j :: 0 <= i < j < |fields| ==> Print(fields[i].0) != Print(fields[j].0)
  }

  lemma FieldsDistinct(ev: Event)
    ensures DistinctKeys(Fields(ev))
  {
    hide Fields, Print;
    if ev.ToolResult? || ev.ToolCall? { OfCalls(ev); }
    else if ev.Citation? || ev.Artifact? { OfFinds(ev); }
    else if ev.Done? || ev.AgentError? { OfEnds(ev); }
    else if ev.ModelLoading? || ev.ModelReady? { OfSwaps(ev); }
    else { OfOthers(ev); }
    forall i, j | 0 <= i < j < |Fields(ev)| ensures Fields(ev)[i].0 != Fields(ev)[j].0 {
      assert Print(Fields(ev)[i].0) != Print(Fields(ev)[j].0);
    }
  }

  lemma OfCalls(ev: Event)
    requires ev.ToolResult? || ev.ToolCall?
    ensures KeysDiffer(Fields(ev))
  {
    SwapPrints();
    CallPrints();
    hide Print, Lit, Decimal, EVENT_TYPES;
  }

  lemma OfFinds(ev: Event)
    requires ev.Citation? || ev.Artifact?
    ensures KeysDiffer(Fields(ev))
  {
    SwapPrints();
    CallPrints();
    hide Print, Lit, Decimal, EVENT_TYPES;
  }

  lemma OfEnds(ev: Event)
    requires ev.Done? || ev.AgentError?
    ensures KeysDiffer(Fields(ev))
  {
    SwapPrints();
    DonePrints();
    hide Print, Lit, Decimal, EVENT_TYPES;
  }

  lemma OfSwaps(ev: Event)
    requires ev.ModelLoading? || ev.ModelReady?
    ensures KeysDiffer(Fields(ev))
  {
    SwapPrints();
    hide Print, Lit, Decimal, EVENT_TYPES;
  }

  lemma OfOthers(ev: Event)
    requires ev.SessionStart? || ev.RouterDecision? || ev.AgentStep? || ev.Token?
    ensures KeysDiffer(Fields(ev))
  {
    SwapPrints();
    hide Print, Lit, Decimal, EVENT_TYPES;
  }

  /** Every field of an event is found in its object. */
  lemma FieldFound(ev: Event, more: seq<(Text, Value)>, i: nat)
    requires Spare(ev, more) && i < |Fields(ev)|
    ensures Get(Fields(ev) + more, Fields(ev)[i].0) == Some(Fields(ev)[i].1)
  {
    hide Fields;
    FieldsDistinct(ev);
    GetField(Fields(ev), more, i);
  }

  lemma {:induction false} AmongAt(list: seq<Text>, i: nat)
    requires i < |list|
    ensures Among(list[i], list)
  {
    if i > 0 { AmongAt(list[1..], i - 1); }
  }

  lemma KindIs(ev: Event, more: seq<(Text, Value)>)
    requires Spare(ev, more)
    ensures IsEvent(Encoded(ev, more)) && Kind(Encoded(ev, more)) == EVENT_TYPES[TypeIndex(ev)]
  {
    FieldFound(ev, more, 0);
    AmongAt(EVENT_TYPES, TypeIndex(ev));
    assert Fields(ev)[0] == (Lit("type"), Str(EVENT_TYPES[TypeIndex(ev)]));
  }

  lemma {:induction false} PositionIs(list: seq<Text>, i: nat)
    requires AllDiffer(list) && i < |list|
    ensures Position(list[i], list) == i
  {
    if i > 0 {
      assert Print(list[0]) != Print(list[i]);
      forall a, b | 0 <= a < b < |list[1..]| ensures Print(list[1..][a]) != Print(list[1..][b]) {
        assert Print(list[a + 1]) != Print(list[b + 1]);
      }
      PositionIs(list[1..], i - 1);
    }
  }

  lemma ReasonsBack(reason: StopReason)
    ensures ReasonOf(AgentLoop.ReasonName(reason)) == Some(reason)
  {
    forall a: StopReason, b: StopReason | a != b ensures AgentLoop.ReasonName(a) != AgentLoop.ReasonName(b) {
      assert AgentLoop.ReasonName(a)[0] != AgentLoop.ReasonName(b)[0];
    }
  }

  lemma StepBack(ev: Event, more: seq<(Text, Value)>)
    requires ev.AgentStep? && Spare(ev, more)
    ensures ReadStep(Fields(ev) + more) == Some(ev)
  {
    hide Get, IntOf, Decimal, NumberParts, Lit, Spare;
    FieldFound(ev, more, 1);
    FieldFound(ev, more, 2);
    DecimalBack(ev.step);
    DecimalBack(ev.maxSteps);
  }

  lemma SwapBack(ev: Event, more: seq<(Text, Value)>)
    requires (ev.ModelLoading? || ev.ModelReady?) && Spare(ev, more)
    ensures (if ev.ModelLoading? then ReadLoading(Fields(ev) + more) else ReadReady(Fields(ev) + more)) == Some(ev)
  {
    hide Get, IntOf, Decimal, NumberParts, Lit, Spare;
    FieldFound(ev, more, 1);
    FieldFound(ev, more, 2);
    FieldFound(ev, more, 3);
    if ev.ModelLoading? {
      DecimalBack(ev.etaS);
    } else {
      DecimalBack(ev.loadMs);
      DecimalBack(ev.vramMb);
    }
  }

  lemma CallBack(ev: Event, more: seq<(Text, Value)>)
    requires ev.ToolCall? && Spare(ev, more)
    ensures ReadCall(Fields(ev) + more) == Some(ev)
  {
    hide Get, Lit, Spare;
    FieldFound(ev, more, 1);
    FieldFound(ev, more, 2);
    FieldFound(ev, more, 3);
  }

  lemma ResultBack(ev: Event, more: seq<(Text, Value)>)
    requires ev.ToolResult? && Spare(ev, more)
    ensures ReadResult(Fields(ev) + more) == Some(ev)
  {
    hide Get, IntOf, Decimal, NumberParts, Lit, Spare;
    FieldFound(ev, more, 1);
    FieldFound(ev, more, 2);
    FieldFound(ev, more, 3);
    FieldFound(ev, more, 4);
    FieldFound(ev, more, 5);
    DecimalBack(ev.durationMs);
  }

  lemma CitationBack(ev: Event, more: seq<(Text, Value)>)
    requires ev.Citation? && Spare(ev, more)
    ensures ReadCitation(Fields(ev) + more) == Some(ev)
  {
    hide Get, IntOf, Decimal, NumberParts, Lit, Spare;
    FieldFound(ev, more, 1);
    FieldFound(ev, more, 2);
    FieldFound(ev, more, 3);
    FieldFound(ev, more, 4);
    DecimalBack(ev.page);
  }

  lemma ErrorBack(ev: Event, more: seq<(Text, Value)>)
    requires ev.AgentError? && Spare(ev, more)
    ensures ReadError(Fields(ev) + more) == Some(ev)
  {
    hide Get, Lit, Spare;
    FieldFound(ev, more, 1);
    FieldFound(ev, more, 2);
    FieldFound(ev, more, 3);
  }

  lemma DoneBack(ev: Event, more: seq<(Text, Value)>)
    requires ev.Done? && Spare(ev, more)
    ensures ReadDone(Fields(ev) + more) == Some(ev)
  {
    hide Get, IntOf, Decimal, NumberParts, Lit, Spare, AgentLoop.ReasonName, ReasonOf;
    FieldFound(ev, more, 1);
    FieldFound(ev, more, 2);
    FieldFound(ev, more, 3);
    FieldFound(ev, more, 4);
    FieldFound(ev, more, 5);
    ReasonsBack(ev.stopReason);
    DecimalBack(ev.stepsUsed);
    DecimalBack(ev.tokensIn);
    DecimalBack(ev.tokensOut);
    DecimalBack(ev.latencyMs);
  }

  lemma TextsBack(ev: Event, more: seq<(Text, Value)>)
    requires (ev.SessionStart? || ev.RouterDecision? || ev.Token? || ev.Artifact?) && Spare(ev, more)
    ensures ReadAs(TypeIndex(ev), Fields(ev) + more) == Some(ev)
  {
    hide Get, Lit, Spare;
    FieldFound(ev, more, 1);
    if ev.Artifact? { FieldFound(ev, more, 2); }
  }

  /** Every event can be told from its object, whatever other fields that has. */
  lemma DecodesEncoded(ev: Event, more: seq<(Text, Value)>)
    requires Spare(ev, more)
    ensures Decoded(Encoded(ev, more)) == Some(ev)
  {
    hide Get, Fields, Spare, Position, IsEvent, Kind;
    KindIs(ev, more);
    TypesDiffer();
    PositionIs(EVENT_TYPES, TypeIndex(ev));
    if ev.AgentStep? { StepBack(ev, more); }
    else if ev.ModelLoading? || ev.ModelReady? { SwapBack(ev, more); }
    else if ev.ToolCall? { CallBack(ev, more); }
    else if ev.ToolResult? { ResultBack(ev, more); }
    else if ev.Citation? { CitationBack(ev, more); }
    else if ev.AgentError? { ErrorBack(ev, more); }
    else if ev.Done? { DoneBack(ev, more); }
    else { TextsBack(ev, more); }
  }

  // --- a whole stream there and back --------------------------------------------------------------------

  lemma LitsEncodable()
    ensures forall s: string :: Encodable(Lit(s))
  {
  }

  lemma IntPrintable(n: int)
    ensures Printable(Int(n))
  {
    DecimalBack(n);
  }

  lemma TypePrintable(ev: Event)
    ensures Fields(ev)[0].0 == Lit("type") && Printable(Fields(ev)[0].1)
  {
    TypesEncodable();
  }

  lemma TypesEncodable()
    ensures forall i :: 0 <= i < |EVENT_TYPES| ==> Encodable(EVENT_TYPES[i])
  {
    hide Encodable, Lit;
    LitsEncodable();
  }

  /** An event's object can be written exactly when the event can be said. */
  lemma SayableIs(ev: Event)
    ensures Sayable(ev) <==> forall i :: 0 <= i < |Fields(ev)| ==> Printable(Fields(ev)[i].1)
  {
    hide Sayable, Fields;
    if ev.Done? { NumbersPrintable(ev); DoneSayable(ev); }
    else if ev.ToolCall? || ev.ToolResult? || ev.Citation? { ReportSayable(ev); }
    else if ev.ModelLoading? || ev.ModelReady? || ev.AgentStep? { SwapSayable(ev); }
    else { TextSayable(ev); }
  }

  lemma DoneSayable(ev: Event)
    requires ev.Done?
    ensures Sayable(ev)
  {
  }

  lemma SwapSayable(ev: Event)
    requires ev.ModelLoading? || ev.ModelReady? || ev.AgentStep?
    ensures Sayable(ev) <==> forall i :: 0 <= i < |Fields(ev)| ==> Printable(Fields(ev)[i].1)
  {
    hide Encodable, NumberParts, Decimal, EVENT_TYPES, Lit;
    var f := Fields(ev);
    TypePrintable(ev);
    match ev
    case ModelLoading(model, evicting, eta) =>
      IntPrintable(eta);
      assert f[1].1 == Str(model) && f[2].1 == OrNull(evicting) && f[3].1 == Int(eta);
    case ModelReady(model, load, vram) =>
      IntPrintable(load);
      IntPrintable(vram);
      assert f[1].1 == Str(model);
    case AgentStep(step, most) =>
      IntPrintable(step);
      IntPrintable(most);
  }

  lemma ReportSayable(ev: Event)
    requires ev.ToolCall? || ev.ToolResult? || ev.Citation?
    ensures Sayable(ev) <==> forall i :: 0 <= i < |Fields(ev)| ==> Printable(Fields(ev)[i].1)
  {
    hide Encodable, NumberParts, Decimal, EVENT_TYPES, Lit;
    var f := Fields(ev);
    TypePrintable(ev);
    match ev
    case ToolCall(id, name, args) => assert f[1].1 == Str(id) && f[2].1 == Str(name) && f[3].1 == Object(args);
    case ToolResult(id, ok, summary, ms, truncated) =>
      IntPrintable(ms);
      assert f[1].1 == Str(id) && f[3].1 == Str(summary);
    case Citation(doc, file, page, snippet) =>
      IntPrintable(page);
      assert f[1].1 == Str(doc) && f[2].1 == Str(file) && f[4].1 == Str(snippet);
  }

  lemma TextSayable(ev: Event)
    requires ev.SessionStart? || ev.RouterDecision? || ev.Token? || ev.Artifact? || ev.AgentError?
    ensures Sayable(ev) <==> forall i :: 0 <= i < |Fields(ev)| ==> Printable(Fields(ev)[i].1)
  {
    hide Encodable, NumberParts, Decimal, EVENT_TYPES, Lit;
    var f := Fields(ev);
    TypePrintable(ev);
    match ev
    case SessionStart(id) => assert f[1].1 == Str(id);
    case RouterDecision(model) => assert f[1].1 == Str(model);
    case Token(text) => assert f[1].1 == Str(text);
    case Artifact(id, file) => assert f[1].1 == Str(id) && f[2].1 == Str(file);
    case AgentError(code, message, recoverable) => assert f[1].1 == Str(code) && f[2].1 == Str(message);
  }

  lemma NumbersPrintable(ev: Event)
    requires ev.Done?
    ensures forall i :: 0 <= i < |Fields(ev)| ==> Printable(Fields(ev)[i].1)
  {
    hide NumberParts, Decimal, EVENT_TYPES;
    TypePrintable(ev);
    IntPrintable(ev.stepsUsed);
    IntPrintable(ev.tokensIn);
    IntPrintable(ev.tokensOut);
    IntPrintable(ev.latencyMs);
    ReasonEncodable(ev.stopReason);
  }

  lemma ReasonEncodable(reason: StopReason)
    ensures Encodable(AgentLoop.ReasonName(reason))
  {
    hide Encodable, Lit;
    LitsEncodable();
  }

  lemma KeysEncodable(ev: Event)
    ensures forall i :: 0 <= i < |Fields(ev)| ==> Encodable(Fields(ev)[i].0)
  {
    hide Fields;
    if ev.ToolCall? || ev.ToolResult? || ev.Citation? || ev.Artifact? { ReportKeys(ev); } else { OtherKeys(ev); }
  }

  lemma ReportKeys(ev: Event)
    requires ev.ToolCall? || ev.ToolResult? || ev.Citation? || ev.Artifact?
    ensures forall i :: 0 <= i < |Fields(ev)| ==> Encodable(Fields(ev)[i].0)
  {
    hide Encodable, Lit, Decimal, EVENT_TYPES;
    LitsEncodable();
  }

  lemma OtherKeys(ev: Event)
    requires !ev.ToolCall? && !ev.ToolResult? && !ev.Citation? && !ev.Artifact?
    ensures forall i :: 0 <= i < |Fields(ev)| ==> Encodable(Fields(ev)[i].0)
  {
    hide Encodable, Lit, Decimal, EVENT_TYPES;
    LitsEncodable();
  }

  lemma EncodedPrintable(ev: Event, more: seq<(Text, Value)>)
    requires Sayable(ev) && Spare(ev, more)
    ensures Printable(Encoded(ev, more)) && IsEvent(Encoded(ev, more))
  {
    hide Fields, Encodable, Sayable;
    SayableIs(ev);
    KeysEncodable(ev);
    KindIs(ev, more);
    var members := Fields(ev) + more;
    forall i | 0 <= i < |members| ensures Encodable(members[i].0) && Printable(members[i].1) {
      if i < |Fields(ev)| { assert members[i] == Fields(ev)[i]; } else { assert members[i] == more[i - |Fields(ev)|]; }
    }
  }

  /** An answer uttered with an escaped surrogate pair cannot be sent as it is
      decoded live: some token of it holds half of the pair. */
  lemma PairCannotBeSent(lenient: Client.Lenient, names: seq<Text>, raw: Text, events: seq<Event>)
    requires Protocol.IsFinalText(names, raw) && Protocol.HasPair(raw)
    requires TokenText(events) == Client.Shown(lenient, raw)
    ensures exists i :: 0 <= i < |events| && events[i].Token? && !Sayable(events[i])
  {
    hide Client.Shown, Protocol.IsFinalText, Protocol.HasPair, Sayable;
    Protocol.PairShowsHalf(lenient, names, raw);
    if forall i :: 0 <= i < |events| && events[i].Token? ==> Sayable(events[i]) {
      TokensOnly(events);
    }
  }

  lemma {:induction false} TokensOnly(events: seq<Event>)
    requires forall i :: 0 <= i < |events| && events[i].Token? ==> Sayable(events[i])
    ensures Encodable(TokenText(events))
  {
    if events != [] {
      TokensOnly(events[..|events| - 1]);
      var last := events[|events| - 1];
      assert last.Token? ==> Sayable(last);
    }
  }

  ghost predicate Sends(events: seq<Event>, more: seq<seq<(Text, Value)>>) {
    |more| == |events| && forall i :: 0 <= i < |events| ==> Sayable(events[i]) && Spare(events[i], more[i])
  }

  /** The objects of a stream of events. */
  ghost function EncodedAll(events: seq<Event>, more: seq<seq<(Text, Value)>>): (vs: seq<Value>)
    requires Sends(events, more)
    ensures |vs| == |events| && Sendable(vs)
  {
    var vs := seq(|events|, i requires 0 <= i < |events| => Encoded(events[i], more[i]));
    assert Sendable(vs) by {
      forall i | 0 <= i < |vs| ensures IsEvent(vs[i]) && Printable(vs[i]) { EncodedPrintable(events[i], more[i]); }
    }
    vs
  }

  /** The store, told of these deliveries; `gripe` is what a fatal one complains of. */
  ghost function Told(s: Session.State, deliveries: seq<Delivery>, clock: int -> int, gripe: Text): Session.State {
    if deliveries == [] then s
    else
      var before := Told(s, deliveries[..|deliveries| - 1], clock, gripe);
      match deliveries[|deliveries| - 1]
      case Nothing => before
      case OnFatal => Session.Dropped(before, gripe, clock(|deliveries|))
      case OnEvent(v) => if Decoded(v).Some?
        then Session.Reduce(before, Decoded(v).value, clock(|deliveries|)) else before
  }

  lemma {:induction false} ToldIs(s: Session.State, events: seq<Event>, more: seq<seq<(Text, Value)>>,
    clock: int -> int, gripe: Text)
    requires Sends(events, more)
    ensures Told(s, Deliveries(EncodedAll(events, more)), clock, gripe) == Session.Fold(s, events, clock)
  {
    hide Session.Reduce, Decoded, Encoded, Sayable, Spare;
    if events != [] {
      var n := |events| - 1;
      PartSent(events, more, n);
      ToldIs(s, events[..n], more[..n], clock, gripe);
      var ds := Deliveries(EncodedAll(events, more));
      assert ds[n] == OnEvent(Encoded(events[n], more[n]));
      DecodesEncoded(events[n], more[n]);
    }
  }

  /** However the stream is cut and wherever heartbeats fall, the store ends as if
      it had been handed the events themselves. */
  lemma StreamToScreen(s: Session.State, events: seq<Event>, more: seq<seq<(Text, Value)>>, quiet: seq<nat>,
                       chunks: seq<Text>, clock: int -> int, gripe: Text)
    requires Sends(events, more) && |quiet| == |events| + 1
    requires Concat(chunks) == Wire(Bodies(EncodedAll(events, more), quiet))
    ensures Told(s, Received(Concat(chunks)), clock, gripe) == Session.Fold(s, events, clock)
  {
    hide EncodedAll, Told, Session.Fold, Received, Deliveries, Bodies, Wire;
    RoundTrip(EncodedAll(events, more), quiet, chunks);
    ToldIs(s, events, more, clock, gripe);
  }

  /** A run from the loop to the screen, through frames, heartbeats, cuts and the
      parser: idle, one row for each step, the answer's tokens in the bubble, the
      run's own reason to stop. */
  lemma RunArrives(run: AgentLoop.AgentLoop, stop: StopReason, s: Session.State, text: Text, first: seq<Event>,
                   more: seq<seq<(Text, Value)>>, quiet: seq<nat>, chunks: seq<Text>, clock: int -> int, gripe: Text)
    requires run.Completed(stop) && Session.Prelude(first)
    requires Sends(first + run.yielded, more) && |quiet| == |first + run.yielded| + 1
    requires Concat(chunks) == Wire(Bodies(EncodedAll(first + run.yielded, more), quiet))
    ensures var end := Told(Session.Sent(s, text), Received(Concat(chunks)), clock, gripe);
      && end == Session.Fold(Session.Sent(s, text), first + run.yielded, clock)
      && end.phase.Idle? && |end.trace| == run.stepsUsed <= run.env.maxSteps
      && end.messages == s.messages + [Session.ChatMessage(Compaction.User, text, None, [])]
           + [Session.ChatMessage(Compaction.Assistant, TokenText(run.yielded), Some(stop), Session.Cites(run.yielded))]
  {
    hide Follow, Told, Session.Fold, Received, Bodies, Wire, EncodedAll, Sends, Session.Sent;
    StreamToScreen(Session.Sent(s, text), first + run.yielded, more, quiet, chunks, clock, gripe);
    Transcript.RunLeaves(run, stop, s, text, first, clock);
  }

  /** What has been delivered when only part of the stream has arrived: the first
      so many events, whole and in order. */
  lemma PartDelivers(values: seq<Value>, quiet: seq<nat>, part: Text, rest: Text) returns (n: nat)
    requires Sendable(values) && |quiet| == |values| + 1 && part + rest == Wire(Bodies(values, quiet))
    ensures n <= |values| && Emissions(Frames(part)) == Deliveries(values)[..n]
  {
    hide Frames, Residue, Emit, Bodies, Wire;
    EmitBodies(values, quiet);
    BodiesAreFrames(values, quiet);
    SplitWire(Bodies(values, quiet));
    SplitAppend(part, rest);
    EmissionsAppend(Frames(part), Frames(Residue(part) + rest));
    n := |Emissions(Frames(part))|;
  }

  /** A connection that breaks anywhere, even inside a frame: the screen is that of
      a whole prefix of the run, idle, with nothing ticking. */
  lemma BrokenStream(s: Session.State, text: Text, first: seq<Event>, events: seq<Event>,
    more: seq<seq<(Text, Value)>>, quiet: seq<nat>,
                     part: Text, rest: Text, clock: int -> int, gripe: Text, now: int) returns (opening: seq<Event>,
                       seen: seq<Event>)
    requires Session.Prelude(first) && Follow(events).Some?
    requires Sends(first + events, more) && |quiet| == |first + events| + 1
    requires part + rest == Wire(Bodies(EncodedAll(first + events, more), quiet))
    ensures opening <= first && seen <= events && (opening == first || seen == [])
    ensures var end := Session.Dropped(Told(Session.Sent(s, text), Emissions(Frames(part)), clock, gripe), gripe, now);
      && end == Session.Dropped(Session.Fold(Session.Sent(s, text), opening + seen, clock), gripe, now)
      && end.phase.Idle? && (forall i :: 0 <= i < |end.trace| ==> !Session.Ticking(end.trace[i]))
      && |end.trace| == |AgentLoop.StepsOn(seen)|
      && end.messages != [] && end.messages[|end.messages| - 1].content == TokenText(seen)
  {
    hide Follow, Told, Session.Fold, Frames, Emissions, Bodies, Wire, EncodedAll, Session.Sent, Session.Ticking,
      Sends, Encoded;
    var all := first + events;
    var n := PartDelivers(EncodedAll(all, more), quiet, part, rest);
    PartSent(all, more, n);
    ToldIs(Session.Sent(s, text), all[..n], more[..n], clock, gripe);
    opening, seen := if n < |first| then first[..n] else first, if n < |first| then [] else events[..n - |first|];
    assert all[..n] == opening + seen;
    FollowPart(events, |seen|);
    assert seen == events[..|seen|];
    Session.DroppedOnScreen(s, text, opening, seen, clock, gripe, now);
  }

  lemma ToldFatal(s: Session.State, deliveries: seq<Delivery>, clock: int -> int, gripe: Text)
    ensures Told(s, deliveries + [OnFatal], clock, gripe) ==
      Session.Dropped(Told(s, deliveries, clock, gripe), gripe, clock(|deliveries| + 1))
  {
    hide Session.Dropped, Session.Reduce, Decoded;
    assert (deliveries + [OnFatal])[..|deliveries|] == deliveries;
  }

  /** What a reader that ends in good order, wherever that is, leaves on the screen:
      the events that arrived whole, and one fatal error if the end came inside the
      data of the next. The screen is idle if and only if there was such an error or
      those events end the run; if not, it goes on waiting, for good. */
  lemma EndedEarly(s: Session.State, text: Text, first: seq<Event>, events: seq<Event>, more: seq<seq<(Text, Value)>>,
                   quiet: seq<nat>, part: Text, rest: Text, clock: int -> int, gripe: Text)
    returns (opening: seq<Event>, seen: seq<Event>, torn: bool)
    requires Session.Prelude(first) && Follow(events).Some?
    requires Sends(first + events, more) && |quiet| == |first + events| + 1
    requires part + rest == Wire(Bodies(EncodedAll(first + events, more), quiet))
    ensures opening <= first && seen <= events && (opening == first || seen == []) && Follow(seen).Some?
    ensures var all, n := first + events, |opening| + |seen|;
      torn <==> n < |all| && Torn.InData(Residue(part), EncodedAll(all, more)[n])
    ensures var end, p := Told(Session.Sent(s, text), Received(part), clock, gripe), Follow(seen).value;
      && (end.phase.Idle? <==> torn || Session.Over(p))
      && (!torn ==> Session.Screen(end, p, s.messages + [Session.ChatMessage(Compaction.User, text, None, [])],
                                   Session.Cites(seen)))
      && (torn ==> (forall i :: 0 <= i < |end.trace| ==> !Session.Ticking(end.trace[i]))
                   && end.messages != [] && end.messages[|end.messages| - 1].content == TokenText(seen))
  {
    hide Follow, Told, Session.Fold, Received, Residue, Bodies, Wire, EncodedAll, Session.Sent, Session.Ticking,
      Session.Over, Session.Screen, Session.Cites, Session.Dropped, Sends, Encoded, Torn.InData, TokenText;
    var all, n := first + events, 0;
    n, torn := Torn.WhatArrives(EncodedAll(all, more), quiet, part, rest);
    PartSent(all, more, n);
    ToldIs(Session.Sent(s, text), all[..n], more[..n], clock, gripe);
    opening, seen := if n < |first| then first[..n] else first, if n < |first| then [] else events[..n - |first|];
    assert all[..n] == opening + seen;
    FollowPart(events, |seen|);
    assert seen == events[..|seen|];
    if torn {
      var told := Deliveries(EncodedAll(all[..n], more[..n]));
      ToldFatal(Session.Sent(s, text), told, clock, gripe);
      Session.DroppedOnScreen(s, text, opening, seen, clock, gripe, clock(|told| + 1));
    } else {
      OnlyThese(Deliveries(EncodedAll(all[..n], more[..n])));
      Session.RunOnScreen(s, text, opening, seen, clock);
      ShownIdle(Session.Fold(Session.Sent(s, text), opening + seen, clock), Follow(seen).value,
        s.messages + [Session.ChatMessage(Compaction.User, text, None, [])], Session.Cites(seen));
    }
  }

  lemma OnlyThese(deliveries: seq<Delivery>)
    ensures deliveries + [] == deliveries
  {
  }

  lemma ShownIdle(s: Session.State, p: Progress, before: seq<Session.ChatMessage>, cites: seq<Event>)
    requires Session.Screen(s, p, before, cites)
    ensures s.phase.Idle? <==> Session.Over(p)
  {
  }

  /** A stream that ends right behind a frame: if the run is not over there, the
      screen stays busy, and if that frame began a step, its row goes on ticking. */
  lemma StaysBusy(s: Session.State, text: Text, first: seq<Event>, events: seq<Event>, more: seq<seq<(Text, Value)>>,
                  quiet: seq<nat>, n: nat, clock: int -> int, gripe: Text) returns (part: Text, rest: Text)
    requires Session.Prelude(first) && n <= |events| && Follow(events[..n]).Some?
    requires !Session.Over(Follow(events[..n]).value)
    requires Sends(first + events, more) && |quiet| == |first + events| + 1
    ensures part + rest == Wire(Bodies(EncodedAll(first + events, more), quiet))
    ensures var end := Told(Session.Sent(s, text), Received(part), clock, gripe);
      && !end.phase.Idle?
      && (n > 0 && events[n - 1].AgentStep? ==> end.trace != [] && Session.Ticking(end.trace[|end.trace| - 1]))
  {
    hide Follow, Told, Session.Fold, Received, Bodies, Wire, EncodedAll, Session.Sent, Session.Ticking,
      Session.Over, Session.Screen, Sends, Encoded, Concat;
    var all, m := first + events, |first| + n;
    var values, front := EncodedAll(all, more), quiet[..m] + [0];
    Torn.WireSplit(values, quiet, m);
    part, rest := Wire(Bodies(values[..m], front)), Wire(Bodies(values[m..], quiet[m..]));
    FrontSent(all, more, m);
    OneChunk(part);
    assert all[..m] == first + events[..n];
    StreamToScreen(Session.Sent(s, text), all[..m], more[..m], front, [part], clock, gripe);
    Session.RunOnScreen(s, text, first, events[..n], clock);
    var end, p := Session.Fold(Session.Sent(s, text), first + events[..n], clock), Follow(events[..n]).value;
    var before := s.messages + [Session.ChatMessage(Compaction.User, text, None, [])];
    ShownIdle(end, p, before, Session.Cites(events[..n]));
    if n > 0 && events[n - 1].AgentStep? {
      StepOpens(events[..n]);
      StepTicks(end, p, before, Session.Cites(events[..n]));
    }
  }

  lemma OneChunk(part: Text)
    ensures Concat([part]) == part
  {
    assert [part][1..] == [];
  }

  lemma FrontSent(events: seq<Event>, more: seq<seq<(Text, Value)>>, n: nat)
    requires Sends(events, more) && n <= |events|
    ensures |more| == |events| && Sends(events[..n], more[..n])
    ensures EncodedAll(events, more)[..n] == EncodedAll(events[..n], more[..n])
  {
    hide Encoded, Sayable, Spare;
  }

  lemma StepOpens(events: seq<Event>)
    requires events != [] && events[|events| - 1].AgentStep? && Follow(events).Some?
    ensures var steps := Follow(events).value.steps; steps != [] && steps[|steps| - 1].result.None?
  {
  }

  lemma StepTicks(s: Session.State, p: Progress, before: seq<Session.ChatMessage>, cites: seq<Event>)
    requires Session.Screen(s, p, before, cites) && !Session.Over(p)
    requires p.steps != [] && p.steps[|p.steps| - 1].result.None?
    ensures s.trace != [] && Session.Ticking(s.trace[|s.trace| - 1])
  {
    hide Session.Over;
    assert Session.RowShows(s.trace[|p.steps| - 1], |p.steps|, p.steps[|p.steps| - 1], Session.Over(p));
  }

  lemma PartSent(events: seq<Event>, more: seq<seq<(Text, Value)>>, n: nat)
    requires Sends(events, more) && n <= |events|
    ensures |more| == |events| && Sends(events[..n], more[..n])
    ensures Deliveries(EncodedAll(events, more))[..n] == Deliveries(EncodedAll(events[..n], more[..n]))
  {
    hide Encoded, Sayable, Spare;
  }

  lemma {:induction false} FollowPart(events: seq<Event>, n: nat)
    requires Follow(events).Some? && n <= |events|
    ensures Follow(events[..n]).Some?
    decreases |events|
  {
    if n < |events| {
      FollowPart(events[..|events| - 1], n);
      assert events[..|events| - 1][..n] == events[..n];
    } else {
      assert events[..n] == events;
    }
  }
}
