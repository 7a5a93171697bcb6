/** The answer decoder and the authoritative parse of backend/llm/client.py. */
module Client {
  import opened Codes
  import opened Json

  // --- the decoder as a machine that reads one character at a time -----------------

  const OPENING: Text := Lit("{\"final\":\"")

  /** What int(text, 16) makes of four characters that are not all hex digits:
      Python accepts signs, blanks and underscores there. Any answer is allowed. */
  type Lenient = Text -> Option<Code>

  datatype Mode =
    | Opening(want: nat)
    | Body
    | Escape
    | Hex(digits: Text)
    | Closed(inAnswer: bool)

  /** The escapes the decoder knows; any other letter stands for itself. */
  function Escaped(c: Code): Code {
    if Unescape(c).Some? then Unescape(c).value else c
  }

  function FromHex(lenient: Lenient, h: Text): Text {
    if IsHex4(h) then [Hex4(h)]
    else match lenient(h) case Some(c) => [c] case None => []
  }

  function Step(lenient: Lenient, mode: Mode, c: Code): (Mode, Text) {
    match mode
    case Opening(want) =>
      if IsSpace(c) then (mode, [])
      else if want < |OPENING| && c == OPENING[want] then
        (if want + 1 == |OPENING| then Body else Opening(want + 1), [])
      else (Closed(false), [])
    case Body =>
      if c == BACKSLASH then (Escape, [])
      else if c == QUOTE then (Closed(true), [])
      else (Body, [c])
    case Escape => if c == 'u' as int then (Hex([]), []) else (Body, [Escaped(c)])
    case Hex(h) => if |h| + 1 == 4 then (Body, FromHex(lenient, h + [c])) else (Hex(h + [c]), [])
    case Closed(_) => (mode, [])
  }

  function Run(lenient: Lenient, mode: Mode, s: Text): (Mode, Text)
    decreases |s|
  {
    if s == [] then (mode, [])
    else
      var (m1, t1) := Step(lenient, mode, s[0]);
      var (m2, t2) := Run(lenient, m1, s[1..]);
      (m2, t1 + t2)
  }

  lemma {:induction false} RunAppend(lenient: Lenient, mode: Mode, a: Text, b: Text)
    ensures var (m, t) := Run(lenient, mode, a);
      Run(lenient, mode, a + b) == (Run(lenient, m, b).0, t + Run(lenient, m, b).1)
    decreases |a|
  {
    if a == [] {
      assert a + b == b;
      assert [] + Run(lenient, mode, b).1 == Run(lenient, mode, b).1;
    } else {
      assert (a + b)[1..] == a[1..] + b;
      var (m1, t1) := Step(lenient, mode, a[0]);
      RunAppend(lenient, m1, a[1..], b);
      var (m2, t2) := Run(lenient, m1, a[1..]);
      assert (t1 + t2) + Run(lenient, m2, b).1 == t1 + (t2 + Run(lenient, m2, b).1);
    }
  }

  lemma RunNone(lenient: Lenient, mode: Mode, s: Text)
    ensures Run(lenient, mode, s[..0]) == (mode, [])
  {
  }

  lemma RunSnoc(lenient: Lenient, mode: Mode, a: Text, c: Code)
    ensures var (m, t) := Run(lenient, mode, a);
      Run(lenient, mode, a + [c]) == (Step(lenient, m, c).0, t + Step(lenient, m, c).1)
  {
    RunAppend(lenient, mode, a, [c]);
    var (m, t) := Run(lenient, mode, a);
    var (m1, t1) := Step(lenient, m, c);
    assert [c][1..] == [];
    assert t1 + [] == t1;
  }

  lemma {:induction false} RunClosed(lenient: Lenient, b: bool, s: Text)
    ensures Run(lenient, Closed(b), s) == (Closed(b), [])
    decreases |s|
  {
    if s != [] {
      RunClosed(lenient, b, s[1..]);
      assert [] + Run(lenient, Closed(b), s[1..]).1 == [];
    }
  }

  /** Once closed, the rest of the text changes nothing. */
  lemma StaysClosed(lenient: Lenient, s: Text, n: nat)
    requires n <= |s| && Run(lenient, Opening(0), s[..n]) == (Closed(false), [])
    ensures Run(lenient, Opening(0), s) == (Closed(false), [])
  {
    hide Run;
    RunAppend(lenient, Opening(0), s[..n], s[n..]);
    RunClosed(lenient, false, s[n..]);
    assert s[..n] + s[n..] == s;
  }

  /** What the decoder has shown once it has read `s`, however it was cut. */
  function Shown(lenient: Lenient, s: Text): Text { Run(lenient, Opening(0), s).1 }

  /** Feeding pieces one after another. */
  function RunPieces(lenient: Lenient, mode: Mode, pieces: seq<Text>): (Mode, Text)
    decreases |pieces|
  {
    if pieces == [] then (mode, [])
    else
      var (m1, t1) := Run(lenient, mode, pieces[0]);
      var (m2, t2) := RunPieces(lenient, m1, pieces[1..]);
      (m2, t1 + t2)
  }

  /** On any input at all, where the cuts fall changes neither the state reached
      nor the text shown. */
  lemma {:induction false} CutsDoNotMatter(lenient: Lenient, mode: Mode, pieces: seq<Text>)
    ensures RunPieces(lenient, mode, pieces) == Run(lenient, mode, Concat(pieces))
    decreases |pieces|
  {
    if pieces != [] {
      var (m1, t1) := Run(lenient, mode, pieces[0]);
      RunAppend(lenient, mode, pieces[0], Concat(pieces[1..]));
      CutsDoNotMatter(lenient, m1, pieces[1..]);
    }
  }

  /** More input only ever extends what was shown. */
  lemma ShownGrows(lenient: Lenient, a: Text, b: Text)
    ensures Shown(lenient, a) <= Shown(lenient, a + b)
  {
    RunAppend(lenient, Opening(0), a, b);
  }

  // --- the decoder as the source has it ------------------------------------------------

  class FinalAnswerStreamer {
    const lenient: Lenient
    var started: bool
    var done: bool
    var emitted: Text
    var buf: Text
    var pendingEscape: bool
    var unicode: Option<Text>
    /** Everything ever fed in. */
    ghost var fed: Text

    ghost function Mode(): Mode
      reads this
    {
      if done then Closed(started)
      else if !started then Run(lenient, Opening(0), buf).0
      else if unicode.Some? then Hex(unicode.value)
      else if pendingEscape then Escape
      else Body
    }

    /** The fields say exactly what reading `fed` in one go would say. */
    ghost predicate Valid()
      reads this
    {
      && Run(lenient, Opening(0), fed) == (Mode(), emitted)
      && (!started ==> !pendingEscape && unicode.None? && emitted == [])
      && (!started && !done ==> buf == fed && Mode().Opening?)
      && (started && !done ==> buf == [] && !(pendingEscape && unicode.Some?)
                               && (unicode.Some? ==> |unicode.value| < 4))
    }

    constructor (lenient: Lenient)
      ensures Valid() && this.lenient == lenient && fed == []
      ensures !started && !done && emitted == []
    {
      this.lenient := lenient;
      started, done, emitted, buf := false, false, [], [];
      pendingEscape, unicode, fed := false, None, [];
    }

    /** _scan_opening: how much of the buffer the opening takes, if it is all there. */
    method ScanOpening() returns (consumed: Option<nat>)
      requires !started && !done
      modifies this`done
      ensures consumed.Some? ==> 0 < consumed.value <= |buf| && !done
      ensures consumed.Some? ==> Run(lenient, Opening(0), buf[..consumed.value]) == (Body, [])
      ensures consumed.None? && done ==> Run(lenient, Opening(0), buf) == (Closed(false), [])
      ensures consumed.None? && !done ==>
        Run(lenient, Opening(0), buf).0.Opening? && Run(lenient, Opening(0), buf).1 == []
    {
      var want := 0;
      for i := 0 to |buf|
        invariant !done && want < |OPENING|
        invariant Run(lenient, Opening(0), buf[..i]) == (Opening(want), [])
      {
        var ch := buf[i];
        RunSnoc(lenient, Opening(0), buf[..i], ch);
        assert buf[..i] + [ch] == buf[..i + 1];
        if IsSpace(ch) { continue; }
        if ch != OPENING[want] {
          StaysClosed(lenient, buf, i + 1);
          done := true;
          return None;
        }
        want := want + 1;
        if want == |OPENING| { return Some(i + 1); }
      }
      assert buf[..|buf|] == buf;
      consumed := None;
    }

    /** feed: add raw model output and return the newly decoded text. */
    method Feed(piece: Text) returns (text: Text)
      requires Valid()
      modifies this
      ensures Valid() && fed == old(fed) + piece
      ensures emitted == old(emitted) + text
      ensures emitted == Shown(lenient, fed)
    {
      hide Run, FromHex, Escaped;
      ghost var before := fed;
      fed := fed + piece;
      RunAppend(lenient, Opening(0), before, piece);
      if done {
        RunClosed(lenient, started, piece);
        assert emitted + [] == emitted;
        return [];
      }
      ghost var from := Mode();
      buf := buf + piece;
      if !started {
        var consumed := ScanOpening();
        if consumed.None? { return []; }
        started := true;
        RunAppend(lenient, Opening(0), buf[..consumed.value], buf[consumed.value..]);
        assert buf[..consumed.value] + buf[consumed.value..] == buf == fed;
        from := Body;
        buf := buf[consumed.value..];
      } else {
        assert buf == piece;
      }
      assert Run(lenient, Opening(0), fed) == (Run(lenient, from, buf).0, emitted + Run(lenient, from, buf).1);
      text := DecodeBuffer(from);
      emitted := emitted + text;
    }

    /** The decoding loop of feed, from the state `from` to the end of the buffer
        or the closing quote. */
    method DecodeBuffer(ghost from: Mode) returns (out: Text)
      requires started && !done
      requires !(pendingEscape && unicode.Some?) && (unicode.Some? ==> |unicode.value| < 4)
      requires from == if unicode.Some? then Hex(unicode.value) else if pendingEscape then Escape else Body
      modifies this`done, this`pendingEscape, this`unicode, this`buf
      ensures !done ==> buf == [] && !(pendingEscape && unicode.Some?) && (unicode.Some? ==> |unicode.value| < 4)
      ensures (Mode(), out) == Run(lenient, from, old(buf))
    {
      hide FromHex, Escaped, Run;
      RunNone(lenient, from, buf);
      out := [];
      var i := 0;
      while i < |buf|
        invariant 0 <= i <= |buf| && !done && buf == old(buf) && started
        invariant !(pendingEscape && unicode.Some?) && (unicode.Some? ==> |unicode.value| < 4)
        invariant (Mode(), out) == Run(lenient, from, buf[..i])
      {
        var ch := buf[i];
        RunSnoc(lenient, from, buf[..i], ch);
        assert buf[..i] + [ch] == buf[..i + 1];
        assert out + [] == out;
        if unicode.Some? {
          var digits := unicode.value + [ch];
          if |digits| == 4 {
            out := out + FromHex(lenient, digits);
            unicode := None;
          } else {
            unicode := Some(digits);
          }
        } else if pendingEscape {
          pendingEscape := false;
          if ch == 'u' as int { unicode := Some([]); } else { out := out + [Escaped(ch)]; }
        } else if ch == BACKSLASH {
          pendingEscape := true;
        } else if ch == QUOTE {
          done := true;
          i := i + 1;
          RunAppend(lenient, from, buf[..i], buf[i..]);
          RunClosed(lenient, true, buf[i..]);
          assert out + [] == out;
          assert buf[..i] + buf[i..] == buf;
          break;
        } else {
          out := out + [ch];
        }
        i := i + 1;
      }
      assert !done ==> buf[..i] == buf;
      buf := buf[i..];
    }
  }

  // --- the authoritative parse --------------------------------------------------------

  /** What Python decides about values the protocol does not fix: str(v), and
      whether a number written so is zero. */
  datatype Python = Python(str: Value -> Text, zero: Text -> bool)

  datatype ParsedToolCall = ParsedToolCall(name: Text, args: seq<(Text, Value)>)

  datatype Response = Response(
    text: Text, raw: Text, toolCalls: seq<ParsedToolCall>, isFinal: bool, malformed: bool, streamed: bool)

  /** ParsedToolCall refuses arguments that are not an object, by raising. */
  datatype Parsed = Parsed(response: Response) | Raised

  predicate Falsy(py: Python, v: Value) {
    match v
    case Null => true
    case Bool(b) => !b
    case Number(lexeme) => py.zero(lexeme)
    case Str(t) => t == []
    case Array(items) => items == []
    case Object(members) => members == []
  }

  function Str_(py: Python, v: Value): Text { if v.Str? then v.text else py.str(v) }

  function Lower(c: Code): Code { if 0x41 <= c <= 0x5A then c + 0x20 else c }

  /** str(name).lower() == "final". No character outside ASCII lowers to any of
      these five letters, so comparing ASCII letters decides it. */
  predicate LowersToFinal(name: Text) {
    var word := Lit("final");
    |name| == |word| && forall i :: 0 <= i < |word| ==> Lower(name[i]) == word[i]
  }

  const ANSWER_KEYS: seq<Text> := [Lit("answer"), Lit("final"), Lit("text"), Lit("content"), Lit("response")]

  function FirstAnswer(members: seq<(Text, Value)>, keys: seq<Text>): Option<Text> {
    if keys == [] then None
    else
      match Get(members, keys[0])
      case Some(Str(t)) => if Strip(t) != [] then Some(t) else FirstAnswer(members, keys[1..])
      case _ => FirstAnswer(members, keys[1..])
  }

  /** "k: v" for every key in first-written order, skipping None, joined by "; ". */
  function JoinFields(py: Python, all: seq<(Text, Value)>, members: seq<(Text, Value)>, seen: set<Text>): Text {
    if members == [] then []
    else
      var k := members[0].0;
      var rest := JoinFields(py, all, members[1..], seen + {k});
      var v := Get(all, k);
      if k in seen || v.None? || v.value.Null? then rest
      else
        var field := k + Lit(": ") + Str_(py, v.value);
        if rest == [] then field else field + Lit("; ") + rest
  }

  /** _final_text. */
  function FinalText(py: Python, args: Option<Value>): Text {
    match args
    case None => []
    case Some(Str(t)) => t
    case Some(Null) => []
    case Some(Object(members)) =>
      (match FirstAnswer(members, ANSWER_KEYS)
       case Some(t) => t
       case None => JoinFields(py, members, members, {}))
    case Some(v) => py.str(v)
  }

  function AfterFirst(s: Text, c: Code): Text {
    if s == [] then [] else if s[0] == c then s[1..] else AfterFirst(s[1..], c)
  }

  const FENCE: Text := Lit("```")

  /** Everything before the last fence, or all of it when there is none. */
  function BeforeLastFence(s: Text, upTo: nat): Text
    requires upTo <= |s|
  {
    if upTo < 3 then s
    else if s[upTo - 3..upTo] == FENCE then s[..upTo - 3]
    else BeforeLastFence(s, upTo - 1)
  }

  function Clean(raw: Text): Text {
    var cleaned := Strip(raw);
    if StartsWith(cleaned, FENCE) then
      var inside := if LF in cleaned then AfterFirst(cleaned, LF) else [];
      Strip(BeforeLastFence(inside, |inside|))
    else cleaned
  }

  function Malformed(raw: Text): Parsed { Parsed(Response(raw, raw, [], true, true, false)) }

  function Answer(text: Text, raw: Text): Parsed { Parsed(Response(text, raw, [], true, false, false)) }

  /** LLMClient._parse in JSON mode. */
  function Parse(py: Python, raw: Text): Parsed {
    match Loads(Clean(raw))
    case Some(Object(members)) =>
      (match Get(members, Lit("tool"))
       case Some(tool) =>
         var name := Str_(py, tool);
         if LowersToFinal(name) then Answer(FinalText(py, Get(members, Lit("args"))), raw)
         else
           var args := Get(members, Lit("args"));
           if args.None? || Falsy(py, args.value) then
             Parsed(Response([], raw, [ParsedToolCall(name, [])], false, false, false))
           else if args.value.Object? then
             Parsed(Response([], raw, [ParsedToolCall(name, args.value.members)], false, false, false))
           else Raised
       case None =>
         (match Get(members, Lit("final"))
          case Some(v) => Answer(Str_(py, v), raw)
          case None => Malformed(raw)))
    case _ => Malformed(raw)
  }

  // --- generate ------------------------------------------------------------------------

  /** How an HTTP attempt ended: at [DONE], by losing the connection (which may
      be retried), or by any other exception (which may not). */
  datatype End = Complete | Dropped | Broken

  /** One attempt: the non-empty pieces that arrived, and how it ended. */
  datatype Attempt = Attempt(pieces: seq<Text>, end: End)

  predicate Arrived(a: Attempt) { forall i :: 0 <= i < |a.pieces| ==> a.pieces[i] != [] }

  /** The retry rule: a second attempt only if the first lost its connection
      before a single piece arrived. */
  function Used(first: Attempt, second: Attempt): Attempt {
    if first.end.Dropped? && first.pieces == [] then second else first
  }

  datatype Outcome = Answered(response: Response) | Failed

  /** The streaming half of generate: feed every piece, hand on what decodes. The
      streamed flag is set exactly when the text shown live is the final answer. */
  method Generate(py: Python, lenient: Lenient, first: Attempt, second: Attempt)
    returns (outcome: Outcome, tokens: seq<Text>)
    requires Arrived(first) && Arrived(second)
    ensures forall i :: 0 <= i < |tokens| ==> tokens[i] != []
    ensures var used := Used(first, second);
      var raw := Concat(used.pieces);
      && Concat(tokens) == Shown(lenient, raw)
      && (outcome.Answered? <==> used.end.Complete? && Parse(py, raw).Parsed?)
      && (outcome.Answered? ==> outcome.response == WithStreamed(Parse(py, raw).response, Concat(tokens)))
  {
    hide Parse, Shown, Run, Falsy;
    var raw, streamer;
    raw, tokens, streamer := Stream(lenient, first.pieces);
    var end := first.end;
    if first.end.Dropped? && raw == [] {
      AllEmpty(first.pieces);
      raw, tokens, streamer := Stream(lenient, second.pieces);
      end := second.end;
    }
    if !end.Complete? { return Failed, tokens; }
    NotYetStreamed(py, raw);
    match Parse(py, raw) {
      case Raised => outcome := Failed;
      case Parsed(response) =>
        if streamer.emitted != [] && response.isFinal {
          response := response.(streamed := streamer.emitted == response.text);
        }
        outcome := Answered(response);
    }
  }

  lemma NotYetStreamed(py: Python, raw: Text)
    ensures Parse(py, raw).Parsed? ==> !Parse(py, raw).response.streamed
  {
  }

  function WithStreamed(response: Response, shown: Text): Response {
    response.(streamed := shown != [] && response.isFinal && shown == response.text)
  }

  lemma AllEmpty(pieces: seq<Text>)
    requires Concat(pieces) == [] && forall i :: 0 <= i < |pieces| ==> pieces[i] != []
    ensures pieces == []
  {
  }

  method Stream(lenient: Lenient, pieces: seq<Text>)
    returns (raw: Text, tokens: seq<Text>, streamer: FinalAnswerStreamer)
    ensures raw == Concat(pieces)
    ensures Concat(tokens) == Shown(lenient, raw) == streamer.emitted
    ensures forall i :: 0 <= i < |tokens| ==> tokens[i] != []
  {
    raw, tokens := [], [];
    streamer := new FinalAnswerStreamer(lenient);
    for i := 0 to |pieces|
      invariant fresh(streamer) && streamer.Valid() && streamer.fed == raw && streamer.lenient == lenient
      invariant raw == Concat(pieces[..i])
      invariant Concat(tokens) == streamer.emitted == Shown(lenient, raw)
      invariant forall j :: 0 <= j < |tokens| ==> tokens[j] != []
    {
      raw := raw + pieces[i];
      var text := streamer.Feed(pieces[i]);
      ConcatSnoc(pieces[..i], pieces[i]);
      assert pieces[..i] + [pieces[i]] == pieces[..i + 1];
      if text != [] {
        ConcatSnoc(tokens, text);
        tokens := tokens + [text];
      }
    }
    assert pieces[..|pieces|] == pieces;
  }
}
