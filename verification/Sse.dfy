/** Server-sent events end to end: the printer in contracts/contracts/events.py,
    the heartbeat in backend/sse.py and the incremental parser in
    frontend/src/api/sse.ts (sections 9.2.5 and 9.2.6 of the HTML Standard). */
module Sse {
  import opened Codes
  import opened Json

  // --- printing ------------------------------------------------------------------------

  /** A number's lexeme taken apart, when it is one RFC 8259 allows. */
  function NumberParts(lexeme: Text): Option<Tree> {
    var m := if lexeme != [] && lexeme[0] == '-' as int then 1 else 0;
    var unsigned := lexeme[m..];
    var n := CountDigits(unsigned);
    var f := FractionLength(unsigned[n..]);
    var t := NumberTree(m == 1, unsigned[..n], unsigned[n..][..f], unsigned[n..][f..]);
    if Good(t) && Yield(t) == lexeme then Some(t) else None
  }

  /** Every number RFC 8259 allows is taken apart. */
  lemma NumberPartsAre(t: Tree)
    requires t.NumberTree? && Good(t)
    ensures NumberParts(Yield(t)) == Some(t)
  {
    var d, f, e := t.digits, t.fraction, t.exponent;
    DigitsOver(d, f, e, []);
    assert e + [] == e;
    assert d != [] && d[0] != '-' as int;
    hide CountDigits, FractionLength, Good;
    Unsigned(t.minus, d, f, e);
  }

  lemma Unsigned(minus: bool, d: Text, f: Text, e: Text)
    requires d != [] && d[0] != '-' as int
    ensures var s := NumberText(minus, d, f, e);
      && s != [] && (s[0] == '-' as int <==> minus)
      && s[if minus then 1 else 0..] == d + (f + e)
    ensures (d + (f + e))[..|d|] == d && (d + (f + e))[|d|..] == f + e
    ensures (f + e)[..|f|] == f && (f + e)[|f|..] == e
  {
    var u := d + (f + e);
    assert NumberText(minus, d, f, e) == (if minus then ['-' as int] else []) + u;
    assert u[0] == d[0];
  }

  function HexLower(d: int): Code { if d < 10 then '0' as int + d else 'a' as int + (d - 10) }

  /** How a JSON writer spells one character inside quotes. */
  function PieceFor(c: Code): Piece {
    if c == QUOTE || c == BACKSLASH then Short(c)
    else if c == 0x08 then Short('b' as int)
    else if c == 0x09 then Short('t' as int)
    else if c == 0x0A then Short('n' as int)
    else if c == 0x0C then Short('f' as int)
    else if c == 0x0D then Short('r' as int)
    else if 0 <= c < 0x20 then Unit(['0' as int, '0' as int, HexLower(c / 16), HexLower(c % 16)])
    else Plain(c)
  }

  function PiecesFor(t: Text): (ps: seq<Piece>)
    ensures |ps| == |t|
  {
    if t == [] then [] else [PieceFor(t[0])] + PiecesFor(t[1..])
  }

  /** Text that can be encoded as UTF-8: Unicode scalar values only. */
  predicate Encodable(t: Text) {
    forall i :: 0 <= i < |t| ==> 0 <= t[i] < 0x110000 && !IsHigh(t[i]) && !IsLow(t[i])
  }

  predicate Printable(v: Value)
    decreases v
  {
    match v
    case Number(lexeme) => NumberParts(lexeme).Some?
    case Str(t) => Encodable(t)
    case Array(items) => forall i :: 0 <= i < |items| ==> Printable(items[i])
    case Object(members) => forall i :: 0 <= i < |members| ==> Encodable(members[i].0) && Printable(members[i].1)
    case _ => true
  }

  /** The tree a compact JSON writer produces: no blanks anywhere. */
  function Compact(v: Value): (t: Tree)
    requires Printable(v)
    decreases v, 0
  {
    match v
    case Null => NullTree
    case Bool(b) => BoolTree(b)
    case Number(lexeme) => NumberParts(lexeme).value
    case Str(t) => StrTree(PiecesFor(t))
    case Array(items) => ArrayTree([], CompactItems(items))
    case Object(members) => ObjectTree([], CompactMembers(members))
  }

  function CompactItems(items: seq<Value>): Items
    requires forall i :: 0 <= i < |items| ==> Printable(items[i])
    decreases items, 1
  {
    if items == [] then NoItems
    else
      assert forall i :: 0 <= i < |items[1..]| ==> items[1..][i] == items[i + 1];
      Item(Compact(items[0]), [], [], CompactItems(items[1..]))
  }

  function CompactMembers(members: seq<(Text, Value)>): Members
    requires forall i :: 0 <= i < |members| ==> Encodable(members[i].0) && Printable(members[i].1)
    decreases members, 1
  {
    if members == [] then NoMembers
    else
      assert forall i :: 0 <= i < |members[1..]| ==> members[1..][i] == members[i + 1];
      assert members[0] in members;
      CompactMember(members[0], CompactMembers(members[1..]))
  }

  function CompactMember(member: (Text, Value), rest: Members): Members
    requires Encodable(member.0) && Printable(member.1)
    decreases member, 2
  {
    Member(PiecesFor(member.0), [], [], Compact(member.1), [], [], rest)
  }

  /** model_dump_json on an event whose fields make up the object `v`. */
  function Dump(v: Value): Text
    requires Printable(v)
  {
    Yield(Compact(v))
  }

  lemma PieceForGood(c: Code)
    requires 0 <= c
    ensures GoodPiece(PieceFor(c)) && Lone(PieceFor(c)) == c
    ensures PieceFor(c).Unit? ==> 0 <= c < 0x20
    ensures forall i :: 0 <= i < |YieldPiece(PieceFor(c))| ==> YieldPiece(PieceFor(c))[i] >= 0x20
  {
    if PieceFor(c).Unit? {
      var h := PieceFor(c).hex;
      assert c / 16 == 0 || c / 16 == 1;
      assert HexDigit(HexLower(c / 16)) == c / 16 && HexDigit(HexLower(c % 16)) == c % 16;
      assert Hex4(h) == c;
    }
  }

  lemma {:induction false} PiecesForMeaning(t: Text)
    requires forall i :: 0 <= i < |t| ==> 0 <= t[i]
    ensures GoodPieces(PiecesFor(t)) && PiecesMeaning(PiecesFor(t)) == t
    ensures Visible(YieldPieces(PiecesFor(t)))
  {
    if t != [] {
      PieceForGood(t[0]);
      PiecesForMeaning(t[1..]);
      var ps := PiecesFor(t);
      assert ps[1..] == PiecesFor(t[1..]);
      var c := t[0];
      assert !PairAt(ps, 0);
      assert t == [t[0]] + t[1..];
    }
  }

  /** No control characters: in particular no line breaks. */
  predicate Visible(t: Text) { forall i :: 0 <= i < |t| ==> t[i] >= 0x20 }

  lemma {:induction false} CompactIsFaithful(v: Value)
    requires Printable(v)
    ensures Good(Compact(v)) && Meaning(Compact(v)) == v && Visible(Dump(v))
    decreases v, 0
  {
    match v {
      case Number(lexeme) => VisibleNumber(Compact(v));
      case Str(t) => PiecesForMeaning(t);
      case Array(items) =>
        CompactItemsFaithful(items);
        VisibleBrackets('[' as int, YieldItems(CompactItems(items)), ']' as int);
      case Object(members) =>
        CompactMembersFaithful(members);
        VisibleBrackets('{' as int, YieldMembers(CompactMembers(members)), '}' as int);
      case _ => VisibleWords();
    }
  }

  lemma VisibleWords()
    ensures Visible(NULL_WORD) && Visible(TRUE_WORD) && Visible(FALSE_WORD)
  {
  }

  lemma VisibleBrackets(open: Code, body: Text, close: Code)
    requires open >= 0x20 && close >= 0x20 && Visible(body)
    ensures Visible([open] + [] + body + [close])
  {
  }

  lemma VisibleNumber(t: Tree)
    requires t.NumberTree? && Good(t)
    ensures Visible(Yield(t))
  {
    VisibleParts(t.fraction, t.exponent);
  }

  lemma VisibleParts(f: Text, e: Text)
    requires GoodFraction(f) && GoodExponent(e)
    ensures Visible(f) && Visible(e)
  {
    forall i | 0 <= i < |f| ensures f[i] >= 0x20 { if i > 0 { assert f[i] == f[1..][i - 1]; } }
    forall i | 0 <= i < |e| ensures e[i] >= 0x20 {
      if i > 0 {
        assert e[i] == e[1..][i - 1];
        if i > 1 { assert e[i] == e[2..][i - 2]; }
      }
    }
  }

  lemma {:induction false} CompactItemsFaithful(items: seq<Value>)
    requires forall i :: 0 <= i < |items| ==> Printable(items[i])
    ensures GoodItems(CompactItems(items)) && ItemsMeaning(CompactItems(items)) == items
    ensures Visible(YieldItems(CompactItems(items)))
    decreases items, 1
  {
    if items != [] {
      assert forall i :: 0 <= i < |items[1..]| ==> items[1..][i] == items[i + 1];
      hide Printable, Compact, Good, Meaning, Yield, Visible;
      CompactIsFaithful(items[0]);
      CompactItemsFaithful(items[1..]);
      assert items == [items[0]] + items[1..];
      var rest := CompactItems(items[1..]);
      VisibleItem(Dump(items[0]), if rest.NoItems? then [] else [',' as int] + [] + YieldItems(rest));
      CommaVisible(YieldItems(rest));
    }
  }

  lemma CommaVisible(more: Text)
    requires Visible(more)
    ensures Visible([',' as int] + [] + more) && Visible([])
  {
  }

  lemma VisibleItem(value: Text, more: Text)
    requires Visible(value)
    ensures Visible(more) ==> Visible(value + [] + more)
  {
  }

  lemma {:induction false} CompactMembersFaithful(members: seq<(Text, Value)>)
    requires forall i :: 0 <= i < |members| ==> Encodable(members[i].0) && Printable(members[i].1)
    ensures GoodMembers(CompactMembers(members)) && MembersMeaning(CompactMembers(members)) == members
    ensures Visible(YieldMembers(CompactMembers(members)))
    decreases members, 1
  {
    if members != [] {
      assert forall i :: 0 <= i < |members[1..]| ==> members[1..][i] == members[i + 1];
      assert members[0] in members;
      CompactMembersFaithful(members[1..]);
      CompactMemberFaithful(members[0], CompactMembers(members[1..]));
      assert members == [members[0]] + members[1..];
    }
  }

  lemma {:induction false} CompactMemberFaithful(member: (Text, Value), rest: Members)
    requires Encodable(member.0) && Printable(member.1)
    requires GoodMembers(rest) && Visible(YieldMembers(rest))
    ensures var m := CompactMember(member, rest);
      GoodMembers(m) && MembersMeaning(m) == [member] + MembersMeaning(rest) && Visible(YieldMembers(m))
    decreases member, 2
  {
    PiecesForMeaning(member.0);
    CompactIsFaithful(member.1);
    VisibleMember(YieldPieces(PiecesFor(member.0)), Dump(member.1), if rest.NoMembers?
      then [] else [',' as int] + [] + YieldMembers(rest));
  }

  lemma VisibleMember(key: Text, value: Text, more: Text)
    requires Visible(key) && Visible(value) && Visible(more)
    ensures Visible(([QUOTE] + key + [QUOTE]) + [] + [':' as int] + [] + value + [] + more)
  {
  }

  /** Writing and reading a value undo each other. */
  lemma DumpLoads(v: Value)
    requires Printable(v)
    ensures Loads(Dump(v)) == Some(v)
  {
    CompactIsFaithful(v);
    LoadsWhatIsWritten([], Compact(v), []);
    assert [] + Dump(v) + [] == Dump(v);
  }

  // --- the server's side -----------------------------------------------------------------

  const EVENT_TYPES: seq<Text> := [
    Lit("session.start"), Lit("router.decision"), Lit("model.loading"), Lit("model.ready"),
    Lit("agent.step"), Lit("token"), Lit("tool.call"), Lit("tool.result"), Lit("citation"),
    Lit("artifact"), Lit("error"), Lit("done")
  ]

  predicate Among(t: Text, list: seq<Text>) {
    list != [] && (t == list[0] || Among(t, list[1..]))
  }

  /** A contract event: the object its fields make up, with its `type` among them. */
  predicate IsEvent(v: Value) {
    && v.Object?
    && Get(v.members, Lit("type")).Some?
    && Get(v.members, Lit("type")).value.Str?
    && Among(Get(v.members, Lit("type")).value.text, EVENT_TYPES)
  }

  function Kind(ev: Value): Text
    requires IsEvent(ev)
  {
    Get(ev.members, Lit("type")).value.text
  }

  const BLANK_LINE: Text := [LF, LF]
  const PING_BODY: Text := Lit(": ping")

  /** The frame without the blank line that ends it. */
  function FrameBody(ev: Value): Text
    requires IsEvent(ev) && Printable(ev)
  {
    Lit("event: ") + Kind(ev) + [LF] + Lit("data: ") + Dump(ev)
  }

  /** to_sse. */
  function ToSse(ev: Value): Text
    requires IsEvent(ev) && Printable(ev)
  {
    FrameBody(ev) + BLANK_LINE
  }

  predicate Sendable(events: seq<Value>) {
    forall i :: 0 <= i < |events| ==> IsEvent(events[i]) && Printable(events[i])
  }

  function Pings(n: nat): seq<Text> { seq(n, i => PING_BODY) }

  lemma PingsSnoc(n: nat)
    ensures Pings(0) == [] && Pings(n) + [PING_BODY] == Pings(n + 1)
  {
  }

  /** The frames on the wire when `quiet[i]` heartbeats pass before event i (or
      before the end of the stream, for the last entry). */
  function Bodies(events: seq<Value>, quiet: seq<nat>): seq<Text>
    requires Sendable(events) && |quiet| == |events| + 1
    decreases |events|
  {
    Pings(quiet[0])
    + if events == [] then []
      else
        assert forall i :: 0 <= i < |events[1..]| ==> events[1..][i] == events[i + 1];
        [FrameBody(events[0])] + Bodies(events[1..], quiet[1..])
  }

  /** Every body followed by its blank line. */
  function Wire(bodies: seq<Text>): Text {
    if bodies == [] then [] else bodies[0] + BLANK_LINE + Wire(bodies[1..])
  }

  lemma {:induction false} WireAppend(a: seq<Text>, b: seq<Text>)
    ensures Wire(a + b) == Wire(a) + Wire(b)
  {
    if a == [] {
      assert a + b == b;
    } else {
      assert (a + b)[1..] == a[1..] + b;
      WireAppend(a[1..], b);
    }
  }

  lemma WireSnoc(a: seq<Text>, last: Text)
    ensures Wire(a + [last]) == Wire(a) + (last + BLANK_LINE)
  {
    WireAppend(a, [last]);
    assert [last][1..] == [];
  }

  /** The inner loop of stream_events: a ping every time the wait runs out. */
  method AwaitNext(timeouts: nat) returns (frames: seq<Text>)
    ensures Concat(frames) == Wire(Pings(timeouts))
  {
    frames := [];
    for waited := 0 to timeouts
      invariant Concat(frames) == Wire(Pings(waited))
    {
      PingsSnoc(waited);
      WireSnoc(Pings(waited), PING_BODY);
      ConcatSnoc(frames, PING_BODY + BLANK_LINE);
      frames := frames + [PING_BODY + BLANK_LINE];
    }
  }

  /** The bodies from event `n` on. */
  function BodiesFrom(events: seq<Value>, quiet: seq<nat>, n: nat): seq<Text>
    requires Sendable(events) && |quiet| == |events| + 1 && n <= |events|
  {
    Bodies(events[n..], quiet[n..])
  }

  function AfterPings(events: seq<Value>, quiet: seq<nat>, n: nat): Text
    requires Sendable(events) && |quiet| == |events| + 1 && n <= |events|
  {
    if n == |events| then [] else ToSse(events[n]) + Wire(BodiesFrom(events, quiet, n + 1))
  }

  lemma BodiesStep(events: seq<Value>, quiet: seq<nat>, n: nat)
    requires Sendable(events) && |quiet| == |events| + 1 && n <= |events|
    ensures Wire(BodiesFrom(events, quiet, n)) == Wire(Pings(quiet[n])) + AfterPings(events, quiet, n)
  {
    if n < |events| {
      var rest := BodiesFrom(events, quiet, n + 1);
      assert events[n..][1..] == events[n + 1..] && quiet[n..][1..] == quiet[n + 1..];
      assert BodiesFrom(events, quiet, n) == Pings(quiet[n]) + ([FrameBody(events[n])] + rest);
      WireAppend(Pings(quiet[n]), [FrameBody(events[n])] + rest);
      assert ([FrameBody(events[n])] + rest)[1..] == rest;
    } else {
      assert BodiesFrom(events, quiet, n) == Pings(quiet[n]) + [];
      WireAppend(Pings(quiet[n]), []);
    }
  }

  /** stream_events: pings while the next event is awaited, then its frame. */
  method StreamEvents(events: seq<Value>, quiet: seq<nat>) returns (frames: seq<Text>)
    requires Sendable(events) && |quiet| == |events| + 1
    ensures Concat(frames) == Wire(Bodies(events, quiet))
  {
    frames := [];
    var next := 0;
    assert events[0..] == events && quiet[0..] == quiet;
    while true
      invariant 0 <= next <= |events|
      invariant Concat(frames) + Wire(BodiesFrom(events, quiet, next)) == Wire(Bodies(events, quiet))
      decreases |events| - next
    {
      BodiesStep(events, quiet, next);
      var pings := AwaitNext(quiet[next]);
      ConcatAppend(frames, pings);
      ghost var after := AfterPings(events, quiet, next);
      Regroup(Concat(frames), Concat(pings), after);
      frames := frames + pings;
      if next == |events| {
        assert Concat(frames) + [] == Concat(frames);
        return;
      }
      var frame := ToSse(events[next]);
      ConcatSnoc(frames, frame);
      Regroup(Concat(frames), frame, Wire(BodiesFrom(events, quiet, next + 1)));
      frames := frames + [frame];
      next := next + 1;
    }
  }

  // --- the client's side -----------------------------------------------------------------

  /** Length of a match of \r?\n\r?\n that starts at `i`; 0 for none. */
  function SepAt(s: Text, i: nat): (n: nat)
    ensures n > 0 ==> 2 <= n <= 4 && i + n <= |s|
  {
    var j := if i < |s| && s[i] == CR then i + 1 else i;
    if j >= |s| || s[j] != LF then 0
    else
      var k := if j + 1 < |s| && s[j + 1] == CR then j + 2 else j + 1;
      if k >= |s| || s[k] != LF then 0 else k + 1 - i
  }

  /** The leftmost match at or after `i`. */
  function FindSep(s: Text, i: nat): (r: Option<nat>)
    requires i <= |s|
    ensures r.Some? ==> i <= r.value < |s| && SepAt(s, r.value) > 0
    decreases |s| - i
  {
    if SepAt(s, i) > 0 then Some(i)
    else if i == |s| then None
    else FindSep(s, i + 1)
  }

  lemma {:induction false} FindSepIs(s: Text, i: nat, at: nat)
    requires i <= at < |s| && SepAt(s, at) > 0
    requires forall j :: i <= j < at ==> SepAt(s, j) == 0
    ensures FindSep(s, i) == Some(at)
    decreases at - i
  {
    if i < at { FindSepIs(s, i + 1, at); }
  }

  lemma {:induction false} FindSepFirst(s: Text, i: nat)
    requires i <= |s|
    ensures FindSep(s, i).Some? ==> forall j :: i <= j < FindSep(s, i).value ==> SepAt(s, j) == 0
    decreases |s| - i
  {
    if SepAt(s, i) == 0 && i < |s| { FindSepFirst(s, i + 1); }
  }

  predicate HasSep(s: Text) { FindSep(s, 0).Some? }

  function BeforeSep(s: Text): Text
    requires HasSep(s)
  {
    s[..FindSep(s, 0).value]
  }

  function AfterSep(s: Text): (t: Text)
    requires HasSep(s)
    ensures |t| < |s|
  {
    var i := FindSep(s, 0).value;
    s[i + SepAt(s, i)..]
  }

  /** Every complete frame in `s`. */
  function Frames(s: Text): seq<Text>
    decreases |s|
  {
    if HasSep(s) then [BeforeSep(s)] + Frames(AfterSep(s)) else []
  }

  /** What is left over after the last complete frame. */
  function Residue(s: Text): Text
    decreases |s|
  {
    if HasSep(s) then Residue(AfterSep(s)) else s
  }

  /** The leftmost separator is never changed by what arrives later. */
  lemma SepIsStable(a: Text, b: Text)
    requires FindSep(a, 0).Some?
    ensures FindSep(a + b, 0) == FindSep(a, 0)
    ensures SepAt(a + b, FindSep(a, 0).value) == SepAt(a, FindSep(a, 0).value)
  {
    var i := FindSep(a, 0).value;
    FindSepFirst(a, 0);
    forall j | 0 <= j <= i ensures SepAt(a + b, j) == SepAt(a, j) {
      SepLooksAhead(a, b, i, j);
    }
    FindSepIs(a + b, 0, i);
  }

  lemma SepLooksAhead(a: Text, b: Text, i: nat, j: nat)
    requires j <= i < |a| && SepAt(a, i) > 0
    ensures SepAt(a + b, j) == SepAt(a, j)
  {
    var s := a + b;
    assert forall k :: 0 <= k < |a| ==> s[k] == a[k];
  }

  lemma StableParts(a: Text, b: Text)
    requires HasSep(a)
    ensures HasSep(a + b) && BeforeSep(a + b) == BeforeSep(a) && AfterSep(a + b) == AfterSep(a) + b
  {
    SepIsStable(a, b);
    var i := FindSep(a, 0).value;
    var n := SepAt(a, i);
    assert (a + b)[i + n..] == a[i + n..] + b && (a + b)[..i] == a[..i];
  }

  /** Splitting as the text arrives is splitting it all at once, on any input. */
  lemma {:induction false} SplitAppend(a: Text, b: Text)
    ensures Frames(a + b) == Frames(a) + Frames(Residue(a) + b)
    ensures Residue(a + b) == Residue(Residue(a) + b)
    decreases |a|
  {
    if HasSep(a) {
      StableParts(a, b);
      SplitAppend(AfterSep(a), b);
      Regroup([BeforeSep(a)], Frames(AfterSep(a)), Frames(Residue(a) + b));
    }
  }

  lemma Regroup<T>(a: seq<T>, b: seq<T>, c: seq<T>)
    ensures a + (b + c) == (a + b) + c
  {
  }

  /** frame.split(/\r?\n/): `line` is the line being read. */
  function Lines(line: Text, s: Text): (r: seq<Text>)
    ensures r != []
    decreases |s|
  {
    if s == [] then [line]
    else if s[0] == LF then [line] + Lines([], s[1..])
    else if s[0] == CR && |s| > 1 && s[1] == LF then [line] + Lines([], s[2..])
    else Lines(line + [s[0]], s[1..])
  }

  const DATA: Text := Lit("data:")

  function DataLines(lines: seq<Text>): seq<Text> {
    if lines == [] then []
    else (if DATA <= lines[0] then [JsTrim(lines[0][5..])] else []) + DataLines(lines[1..])
  }

  function JoinLines(lines: seq<Text>): Text {
    if lines == [] then []
    else if |lines| == 1 then lines[0]
    else lines[0] + [LF] + JoinLines(lines[1..])
  }

  /** A separator of frames: two line breaks, each with or without a carriage return. */
  lemma SepIs(s: Text, i: nat, n: nat)
    ensures SepAt(s, i) == n && n > 0 <==>
      i + n <= |s| && s[i..i + n] in [[LF, LF], [CR, LF, LF], [LF, CR, LF], [CR, LF, CR, LF]]
  {
    if i + n <= |s| && 2 <= n <= 4 {
      var part := s[i..i + n];
      assert forall k :: 0 <= k < n ==> part[k] == s[i + k];
      if n == 2 { assert part == [s[i], s[i + 1]]; }
      if n == 3 { assert part == [s[i], s[i + 1], s[i + 2]]; }
      if n == 4 { assert part == [s[i], s[i + 1], s[i + 2], s[i + 3]]; }
    }
  }

  predicate Breaks(end: Text) { end == [LF] || end == [CR, LF] }

  lemma LinesBreak(line: Text, end: Text, t: Text)
    requires Breaks(end)
    ensures Lines(line, end + t) == [line] + Lines([], t)
  {
    assert (end + t)[|end|..] == t;
  }

  lemma {:induction false} LinesMore(line: Text, s: Text, end: Text, t: Text)
    requires LF !in s && (s != [] ==> s[|s| - 1] != CR) && Breaks(end)
    ensures Lines(line, s + (end + t)) == [line + s] + Lines([], t)
    decreases |s|
  {
    hide Lines;
    if s == [] {
      LinesBreak(line, end, t);
      assert line + s == line && s + (end + t) == end + t;
    } else {
      LinesStep(line, s, end + t);
      FrontOff(s);
      LinesMore(line + [s[0]], s[1..], end, t);
      assert line + [s[0]] + s[1..] == line + s;
    }
  }

  lemma FrontOff(s: Text)
    requires s != [] && LF !in s && s[|s| - 1] != CR
    ensures s[0] != LF && LF !in s[1..] && (s[1..] != [] ==> s[1..][|s[1..]| - 1] != CR)
  {
    assert s[0] in s;
  }

  lemma LinesStep(line: Text, s: Text, more: Text)
    requires s != [] && LF !in s && s[|s| - 1] != CR
    ensures Lines(line, s + more) == Lines(line + [s[0]], s[1..] + more)
  {
    assert s[0] in s;
    assert (s + more)[1..] == s[1..] + more;
    if s[0] == CR { assert |s| > 1 && s[1] in s; }
  }

  lemma {:induction false} LinesLast(line: Text, s: Text)
    requires LF !in s
    ensures Lines(line, s) == [line + s]
    decreases |s|
  {
    if s == [] {
      assert line + s == line;
    } else {
      assert s[0] in s && (|s| > 1 ==> s[1] in s);
      LinesLast(line + [s[0]], s[1..]);
      assert line + [s[0]] + s[1..] == line + s;
    }
  }

  /** The values of a frame's data lines, trimmed, a line feed between one and the
      next; a line of another field does not count. `more` is the frame behind a line
      break. */
  lemma DataSays(line: Text, end: Text, more: Text)
    requires LF !in line && (line != [] ==> line[|line| - 1] != CR) && (end == [LF] || end == [CR, LF])
    ensures var rest, data := DataLines(Lines([], more)), DataLines(Lines([], line + (end + more)));
      && (!(Lit("data:") <= line) ==> data == rest)
      && (Lit("data:") <= line ==>
        JoinLines(data) == JsTrim(line[5..]) + (if rest == [] then [] else [LF] + JoinLines(rest)))
    ensures DataLines(Lines([], line)) == if Lit("data:") <= line then [JsTrim(line[5..])] else []
    ensures forall value: Text :: JoinLines([value]) == value
  {
    hide Lines, JsTrim, Lit, DataLines;
    LinesLast([], line);
    LinesMore([], line, end, more);
    assert [] + line == line;
    DataLinesCons(line, Lines([], more));
    DataLinesCons(line, []);
    var rest := DataLines(Lines([], more));
    if DATA <= line {
      DataLength();
      assert ([JsTrim(line[5..])] + rest)[1..] == rest;
      assert JsTrim(line[5..]) + [] == JsTrim(line[5..]);
    }
  }

  lemma DataLength()
    ensures |DATA| == 5
  {
  }

  lemma DataLinesCons(line: Text, lines: seq<Text>)
    ensures DataLines([line] + lines) == (if DATA <= line then [JsTrim(line[5..])] else []) + DataLines(lines)
    ensures DataLines([line]) == if DATA <= line then [JsTrim(line[5..])] else []
  {
    assert ([line] + lines)[1..] == lines;
    assert [line][1..] == [];
  }

  /** What one frame makes the client do. */
  datatype Delivery = Nothing | OnEvent(ev: Value) | OnFatal

  /** emit: JSON.parse is Loads here; they agree on every RFC 8259 text. */
  function Emit(frame: Text): Delivery {
    var data := JoinLines(DataLines(Lines([], frame)));
    if data == [] then Nothing
    else match Loads(data)
      case None => OnFatal
      case Some(v) => if IsEvent(v) then OnEvent(v) else OnFatal
  }

  function Emissions(frames: seq<Text>): seq<Delivery> {
    if frames == [] then []
    else (if Emit(frames[0]).Nothing? then [] else [Emit(frames[0])]) + Emissions(frames[1..])
  }

  lemma {:induction false} EmissionsAppend(a: seq<Text>, b: seq<Text>)
    ensures Emissions(a + b) == Emissions(a) + Emissions(b)
  {
    if a == [] {
      assert a + b == b;
    } else {
      hide Emit;
      assert (a + b)[1..] == a[1..] + b;
      EmissionsAppend(a[1..], b);
      var first := if Emit(a[0]).Nothing? then [] else [Emit(a[0])];
      Regroup(first, Emissions(a[1..]), Emissions(b));
    }
  }

  lemma EmissionsCons(frame: Text, frames: seq<Text>)
    ensures Emissions([frame] + frames) == (if Emit(frame).Nothing? then [] else [Emit(frame)]) + Emissions(frames)
  {
    assert ([frame] + frames)[1..] == frames;
  }

  lemma FramesCons(s: Text)
    requires HasSep(s)
    ensures var first := Emit(BeforeSep(s));
      Emissions(Frames(s)) == (if first.Nothing? then [] else [first]) + Emissions(Frames(AfterSep(s)))
    ensures Residue(s) == Residue(AfterSep(s))
  {
    hide Emit, BeforeSep, AfterSep;
    EmissionsCons(BeforeSep(s), Frames(AfterSep(s)));
  }

  /** The reading loop of streamChat. */
  class StreamReader {
    var buf: Text
    var delivered: seq<Delivery>
    ghost var received: Text

    /** The calls made so far are those of the frames completed so far. */
    ghost predicate Valid()
      reads this
    {
      buf == Residue(received) && delivered == Emissions(Frames(received)) && !HasSep(buf)
    }

    constructor ()
      ensures Valid() && received == [] && delivered == []
    {
      buf, delivered, received := [], [], [];
      assert SepAt([], 0) == 0;
    }

    method Push(chunk: Text)
      requires Valid()
      modifies this
      ensures Valid() && received == old(received) + chunk
      ensures old(delivered) <= delivered
    {
      hide Emit, SepAt, FindSep, BeforeSep, AfterSep;
      SplitAppend(received, chunk);
      EmissionsAppend(Frames(received), Frames(buf + chunk));
      received := received + chunk;
      buf := buf + chunk;
      while HasSep(buf)
        invariant old(delivered) <= delivered
        invariant delivered + Emissions(Frames(buf)) == Emissions(Frames(received))
        invariant Residue(buf) == Residue(received)
        invariant received == old(received) + chunk
        decreases |buf|
      {
        FramesCons(buf);
        var frame := BeforeSep(buf);
        buf := AfterSep(buf);
        var delivery := Emit(frame);
        Regroup(delivered, if delivery.Nothing? then [] else [delivery], Emissions(Frames(buf)));
        if !delivery.Nothing? {
          delivered := delivered + [delivery];
        } else {
          assert delivered + [] == delivered;
        }
      }
      assert delivered + [] == delivered;
    }

    /** The server closed: a last frame without its blank line is still owed. */
    method Finish()
      requires Valid()
      modifies this
      ensures received == old(received)
      ensures delivered == Received(received)
    {
      if JsTrim(buf) != [] {
        var delivery := Emit(buf);
        if !delivery.Nothing? { delivered := delivered + [delivery]; }
      }
      buf := [];
    }
  }

  /** Everything the client is told about a stream that carried `s`. */
  function Received(s: Text): seq<Delivery> {
    var rest := Residue(s);
    Emissions(Frames(s)) + if JsTrim(rest) != [] && !Emit(rest).Nothing? then [Emit(rest)] else []
  }

  /** streamChat over a stream cut into chunks: where the cuts fall is not seen. */
  method StreamChat(chunks: seq<Text>) returns (delivered: seq<Delivery>)
    ensures delivered == Received(Concat(chunks))
  {
    hide Received, HasSep;
    var reader := new StreamReader();
    for i := 0 to |chunks|
      invariant fresh(reader) && reader.Valid() && reader.received == Concat(chunks[..i])
    {
      reader.Push(chunks[i]);
      ConcatSnoc(chunks[..i], chunks[i]);
      assert chunks[..i] + [chunks[i]] == chunks[..i + 1];
    }
    assert chunks[..|chunks|] == chunks;
    reader.Finish();
    delivered := reader.delivered;
  }

  // --- the round trip ----------------------------------------------------------------------

  /** A body that no separator can start in, so the blank line after it is found. */
  predicate OneFrame(body: Text) {
    && (forall i :: 0 <= i < |body| ==> body[i] != CR)
    && (forall i :: 0 <= i < |body| && body[i] == LF ==> i + 1 < |body| && body[i + 1] != LF)
  }

  lemma FindsBlankLine(body: Text, rest: Text)
    requires OneFrame(body)
    ensures FindSep(body + BLANK_LINE + rest, 0) == Some(|body|)
    ensures SepAt(body + BLANK_LINE + rest, |body|) == 2
  {
    var s := body + BLANK_LINE + rest;
    assert s[|body|] == LF && s[|body| + 1] == LF;
    forall i | 0 <= i < |body| ensures SepAt(s, i) == 0 {
      assert s[i] == body[i];
      if body[i] == LF { assert s[i + 1] == body[i + 1]; }
    }
    FindSepIs(s, 0, |body|);
  }

  lemma {:induction false} SplitWire(bodies: seq<Text>)
    requires forall i :: 0 <= i < |bodies| ==> OneFrame(bodies[i])
    ensures Frames(Wire(bodies)) == bodies && Residue(Wire(bodies)) == []
  {
    if bodies != [] {
      hide FindSep, SepAt, OneFrame;
      var first, rest := bodies[0], Wire(bodies[1..]);
      var s := first + BLANK_LINE + rest;
      FindsBlankLine(first, rest);
      assert AfterSep(s) == rest && BeforeSep(s) == first;
      SplitWire(bodies[1..]);
      assert bodies == [first] + bodies[1..];
    } else {
      assert SepAt([], 0) == 0;
    }
  }

  lemma {:induction false} LinesPlain(line: Text, a: Text, s: Text)
    requires forall i :: 0 <= i < |a| ==> a[i] != LF && a[i] != CR
    ensures Lines(line, a + s) == Lines(line + a, s)
    decreases |a|
  {
    if a == [] {
      assert a + s == s && line + a == line;
    } else {
      assert (a + s)[1..] == a[1..] + s;
      LinesPlain(line + [a[0]], a[1..], s);
      assert line + [a[0]] + a[1..] == line + a;
    }
  }

  lemma KindIsVisible(ev: Value)
    requires IsEvent(ev)
    ensures Visible(Kind(ev))
  {
    TypesAreVisible();
    AmongVisible(Kind(ev), EVENT_TYPES);
  }

  lemma LitVisible(s: string)
    requires forall i :: 0 <= i < |s| ==> s[i] >= ' '
    ensures Visible(Lit(s))
  {
  }

  lemma TypesAreVisible()
    ensures forall i :: 0 <= i < |EVENT_TYPES| ==> Visible(EVENT_TYPES[i])
  {
    hide Visible, Lit;
    LitVisible("session.start");
    LitVisible("router.decision");
    LitVisible("model.loading");
    LitVisible("model.ready");
    LitVisible("agent.step");
    LitVisible("token");
    LitVisible("tool.call");
    LitVisible("tool.result");
    LitVisible("citation");
    LitVisible("artifact");
    LitVisible("error");
    LitVisible("done");
  }

  lemma {:induction false} AmongVisible(t: Text, list: seq<Text>)
    requires Among(t, list) && forall i :: 0 <= i < |list| ==> Visible(list[i])
    ensures Visible(t)
  {
    if t != list[0] { AmongVisible(t, list[1..]); }
  }

  lemma PingIsPlain()
    ensures OneFrame(PING_BODY) && !(DATA <= PING_BODY)
    ensures forall i :: 0 <= i < |PING_BODY| ==> PING_BODY[i] != LF && PING_BODY[i] != CR
  {
    assert PING_BODY[0] == ':' as int && DATA[0] == 'd' as int;
  }

  /** A ping makes the client do nothing; an event's frame delivers that event. */
  lemma EmitPing()
    ensures OneFrame(PING_BODY) && Emit(PING_BODY) == Nothing
  {
    PingIsPlain();
    hide Lit, OneFrame, PING_BODY;
    LinesPlain([], PING_BODY, []);
    assert PING_BODY + [] == PING_BODY && [] + PING_BODY == PING_BODY;
    assert Lines([], PING_BODY) == [PING_BODY];
    assert [PING_BODY][1..] == [];
    assert DataLines([PING_BODY]) == [] + DataLines([]) == [];
  }

  lemma TrimData(d: Text)
    requires |d| >= 2 && d[0] == '{' as int && d[|d| - 1] == '}' as int
    ensures JsTrim([SPACE] + d) == d
  {
    assert ([SPACE] + d)[1..] == d;
    assert JsTrimStart([SPACE] + d) == JsTrimStart(d) == d;
    assert JsTrimEnd(d) == d;
  }

  lemma DumpEnds(ev: Value)
    requires IsEvent(ev) && Printable(ev)
    ensures var d := Dump(ev); |d| >= 2 && d[0] == '{' as int && d[|d| - 1] == '}' as int
  {
    hide CompactMembers, YieldMembers, Get, Among;
  }

  lemma HeadVisible(kind: Text)
    requires Visible(kind)
    ensures Visible(Lit("event: ") + kind) && (Lit("event: ") + kind)[0] == 'e' as int
  {
  }

  lemma DataVisible(d: Text)
    requires Visible(d)
    ensures Visible(Lit("data: ") + d)
  {
  }

  lemma FrameLines(head: Text, d: Text)
    requires Visible(head) && Visible(d)
    ensures Lines([], head + [LF] + Lit("data: ") + d) == [head, Lit("data: ") + d]
  {
    DataVisible(d);
    hide Visible, Lines, Lit;
    var second := Lit("data: ") + d;
    assert head + [LF] + Lit("data: ") + d == head + ([LF] + second);
    LinesPlain([], head, [LF] + second);
    assert [] + head == head && ([LF] + second)[1..] == second;
    assert second + [] == second && [] + second == second;
    LinesPlain([], second, []);
  }

  lemma EmitEvent(ev: Value)
    requires IsEvent(ev) && Printable(ev)
    ensures OneFrame(FrameBody(ev)) && Emit(FrameBody(ev)) == OnEvent(ev)
  {
    hide Visible, OneFrame, Compact, Dump, Loads, Lines, DataLines, JoinLines, IsEvent, Kind, Printable, Lit,
        EVENT_TYPES, DATA;
    KindIsVisible(ev);
    CompactIsFaithful(ev);
    DumpLoads(ev);
    DumpEnds(ev);
    HeadVisible(Kind(ev));
    DataVisible(Dump(ev));
    var head, d := Lit("event: ") + Kind(ev), Dump(ev);
    FrameIsOne(head, Lit("data: ") + d);
    assert FrameBody(ev) == head + [LF] + (Lit("data: ") + d);
    FrameLines(head, d);
    DataOf(head, d);
  }

  lemma FrameIsOne(head: Text, second: Text)
    requires Visible(head) && Visible(second) && second != []
    ensures OneFrame(head + [LF] + second)
  {
  }

  lemma DataOf(head: Text, d: Text)
    requires |head| > 0 && head[0] == 'e' as int
    requires |d| >= 2 && d[0] == '{' as int && d[|d| - 1] == '}' as int
    ensures JoinLines(DataLines([head, Lit("data: ") + d])) == d
  {
    var second := Lit("data: ") + d;
    assert DATA[0] == 'd' as int;
    assert DATA <= second && second[5..] == [SPACE] + d;
    TrimData(d);
    assert [head, second][1..] == [second] && [second][1..] == [];
    assert DataLines([second]) == [d] + [];
    assert DataLines([head, second]) == [] + [d];
  }

  function Deliveries(events: seq<Value>): seq<Delivery> {
    seq(|events|, i requires 0 <= i < |events| => OnEvent(events[i]))
  }

  lemma {:induction false} EmitPings(n: nat)
    ensures Emissions(Pings(n)) == []
  {
    if n > 0 {
      EmitPing();
      assert Pings(n)[1..] == Pings(n - 1);
      EmitPings(n - 1);
    }
  }

  lemma {:induction false} EmitBodies(events: seq<Value>, quiet: seq<nat>)
    requires Sendable(events) && |quiet| == |events| + 1
    ensures Emissions(Bodies(events, quiet)) == Deliveries(events)
    decreases |events|
  {
    EmitPings(quiet[0]);
    if events == [] {
      assert Bodies(events, quiet) == Pings(quiet[0]);
    } else {
      var rest := Bodies(events[1..], quiet[1..]);
      EmitBodies(events[1..], quiet[1..]);
      EmitEvent(events[0]);
      var first := FrameBody(events[0]);
      EmissionsAppend(Pings(quiet[0]), [first] + rest);
      EmissionsCons(first, rest);
      DeliveriesCons(events);
      assert [] + Deliveries(events) == Deliveries(events);
    }
  }

  lemma DeliveriesCons(events: seq<Value>)
    requires events != []
    ensures Deliveries(events) == [OnEvent(events[0])] + Deliveries(events[1..])
  {
  }

  lemma {:induction false} BodiesAreFrames(events: seq<Value>, quiet: seq<nat>)
    requires Sendable(events) && |quiet| == |events| + 1
    ensures forall i :: 0 <= i < |Bodies(events, quiet)| ==> OneFrame(Bodies(events, quiet)[i])
    decreases |events|
  {
    EmitPing();
    if events != [] {
      BodiesAreFrames(events[1..], quiet[1..]);
      EmitEvent(events[0]);
    }
  }

  /** For every event list, every placement of heartbeats and every way the
      stream may be cut, the client is told exactly the events, in order. */
  lemma RoundTrip(events: seq<Value>, quiet: seq<nat>, chunks: seq<Text>)
    requires Sendable(events) && |quiet| == |events| + 1
    requires Concat(chunks) == Wire(Bodies(events, quiet))
    ensures Received(Concat(chunks)) == Deliveries(events)
  {
    var bodies := Bodies(events, quiet);
    EmitBodies(events, quiet);
    BodiesAreFrames(events, quiet);
    SplitWire(bodies);
    NothingLeft(Wire(bodies), bodies);
  }

  lemma NothingLeft(s: Text, bodies: seq<Text>)
    requires Frames(s) == bodies && Residue(s) == []
    ensures Received(s) == Emissions(bodies)
  {
    assert JsTrim([]) == [];
    assert Emissions(bodies) + [] == Emissions(bodies);
  }
}
