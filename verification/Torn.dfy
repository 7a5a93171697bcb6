/** A stream that ends too early: what JSON text says when it is cut short, and what
    the client is told of a frame that did not arrive whole
    (frontend/src/api/sse.ts:85-99). */
module Torn {
  import opened Codes
  import opened Json
  import opened Sse

  // --- reading looks ahead no further than it takes --------------------------------------------

  lemma {:induction false} SkipWsMore(s: Text, more: Text)
    requires SkipWs(s) != []
    ensures SkipWs(s + more) == SkipWs(s) + more
  {
    if IsWs(s[0]) {
      assert (s + more)[1..] == s[1..] + more;
      SkipWsMore(s[1..], more);
    }
  }

  lemma UnitMore(s: Text, more: Text)
    requires |s| >= 6
    ensures ReadUnit(s + more) ==
      if ReadUnit(s).Some? then Some((ReadUnit(s).value.0, ReadUnit(s).value.1 + more)) else None
  {
    assert (s + more)[2..6] == s[2..6] && (s + more)[6..] == s[6..] + more;
  }

  /** A text too short for a \uXXXX that could become one is no end of a string. */
  lemma HalfUnit(s: Text, more: Text)
    requires |s| < 6 && ReadUnit(s + more).Some?
    ensures ReadString(s).None?
  {
    if s != [] { assert (s + more)[0] == s[0]; }
    if |s| > 1 { assert (s + more)[1] == s[1]; }
  }

  /** What `r` says, with `more` left over behind it. */
  function Further<T>(r: Option<(T, Text)>, more: Text): Option<(T, Text)> {
    match r case None => None case Some((v, rest)) => Some((v, rest + more))
  }

  lemma PrependFurther(c: Code, r: Option<(Text, Text)>, more: Text)
    ensures Further(Prepend(c, r), more) == Prepend(c, Further(r, more))
  {
  }

  lemma {:induction false} StringMore(s: Text, more: Text)
    requires ReadString(s).Some?
    ensures ReadString(s + more) == Further(ReadString(s), more)
    decreases |s|
  {
    var t := s + more;
    assert t[0] == s[0] && t[1..] == s[1..] + more;
    if s[0] == QUOTE {
    } else if s[0] == BACKSLASH {
      assert t[1] == s[1];
      if s[1] == 'u' as int {
        EscapeMore(s, more);
      } else {
        assert t[2..] == s[2..] + more;
        StringMore(s[2..], more);
        PrependFurther(Unescape(s[1]).value, ReadString(s[2..]), more);
      }
    } else {
      StringMore(s[1..], more);
      PrependFurther(s[0], ReadString(s[1..]), more);
    }
  }

  lemma {:induction false} EscapeMore(s: Text, more: Text)
    requires ReadString(s).Some? && |s| >= 2 && s[0] == BACKSLASH && s[1] == 'u' as int
    ensures ReadString(s + more) == Further(ReadString(s), more)
    decreases |s|, 0
  {
    hide Unescape, Prepend, Further;
    UnitMore(s, more);
    var (u, rest) := ReadUnit(s).value;
    assert (s + more)[0] == s[0] && (s + more)[1] == s[1];
    if |rest| < 6 {
      if ReadUnit(rest + more).Some? { HalfUnit(rest, more); }
    } else {
      UnitMore(rest, more);
    }
    if ReadUnit(rest).Some? && IsHigh(u) && IsLow(ReadUnit(rest).value.0) {
      var (v, rest2) := ReadUnit(rest).value;
      StringSome(Join(u, v), rest2);
      StringMore(rest2, more);
      PrependFurther(Join(u, v), ReadString(rest2), more);
    } else {
      StringSome(u, rest);
      StringMore(rest, more);
      PrependFurther(u, ReadString(rest), more);
    }
  }

  lemma StringSome(c: Code, s: Text)
    ensures Prepend(c, ReadString(s)).Some? <==> ReadString(s).Some?
  {
  }

  lemma {:induction false} DigitsMore(s: Text, more: Text)
    requires CountDigits(s) < |s|
    ensures CountDigits(s + more) == CountDigits(s)
  {
    if IsDigit(s[0]) {
      assert (s + more)[1..] == s[1..] + more;
      DigitsMore(s[1..], more);
    }
  }

  /** `s` goes on, with something that is no part of a number. */
  predicate Halts(s: Text) { s != [] && Stops(s) }

  lemma FractionMore(s: Text, more: Text)
    requires Halts(s[FractionLength(s)..]) || (FractionLength(s) < |s| && IsExp(s[FractionLength(s)]))
    ensures FractionLength(s + more) == FractionLength(s)
  {
    var t := s + more;
    if |s| >= 2 && s[0] == '.' as int && IsDigit(s[1]) {
      assert t[1..] == s[1..] + more;
      DigitsMore(s[1..], more);
    }
  }

  lemma ExponentMore(s: Text, more: Text)
    requires Halts(s[ExponentLength(s)..])
    ensures ExponentLength(s + more) == ExponentLength(s)
  {
    var t := s + more;
    if |s| >= 2 && IsExp(s[0]) {
      var sign := if IsSign(s[1]) then 2 else 1;
      assert t[sign..] == s[sign..] + more;
      if CountDigits(s[sign..]) < |s[sign..]| { DigitsMore(s[sign..], more); }
    }
  }

  /** What follows the fraction and the exponent. */
  function AfterTail(s: Text): (r: Text)
    ensures |r| <= |s|
  {
    var r := s[FractionLength(s)..];
    r[ExponentLength(r)..]
  }

  lemma TailMore(s: Text, more: Text)
    requires Halts(AfterTail(s))
    ensures AfterTail(s + more) == AfterTail(s) + more
  {
    hide FractionLength, ExponentLength;
    var f := FractionLength(s);
    var r := s[f..];
    HaltsEarly(r);
    FractionMore(s, more);
    assert (s + more)[f..] == r + more;
    ExponentMore(r, more);
    assert (r + more)[ExponentLength(r)..] == r[ExponentLength(r)..] + more;
  }

  function IntegerLength(u: Text): (n: nat)
    requires u != [] && IsDigit(u[0])
    ensures n <= |u|
  {
    if u[0] == '0' as int then 1 else CountDigits(u)
  }

  function Unsigned(s: Text): Text { if s != [] && s[0] == '-' as int then s[1..] else s }

  predicate Digital(u: Text) { u != [] && IsDigit(u[0]) }

  /** What follows an unsigned number. */
  function Behind(u: Text): Text
    requires Digital(u)
  {
    AfterTail(u[IntegerLength(u)..])
  }

  lemma BehindMore(u: Text, more: Text)
    requires Digital(u) && Halts(Behind(u))
    ensures Digital(u + more) && Behind(u + more) == Behind(u) + more
  {
    var n := IntegerLength(u);
    if u[0] != '0' as int { DigitsMore(u, more); }
    hide AfterTail;
    assert (u + more)[n..] == u[n..] + more;
    TailMore(u[n..], more);
  }

  lemma AfterNumberIs(s: Text)
    ensures AfterNumber(s) == if Digital(Unsigned(s)) then Some(Behind(Unsigned(s))) else None
  {
    hide FractionLength, ExponentLength, CountDigits;
  }

  lemma UnsignedMore(s: Text, more: Text)
    requires s != []
    ensures Unsigned(s + more) == Unsigned(s) + more
  {
    assert (s + more)[0] == s[0] && (s + more)[1..] == s[1..] + more;
  }

  lemma ReadNumberIs(s: Text)
    ensures ReadNumber(s) ==
      match AfterNumber(s) case None => None case Some(rest) => Some((s[..|s| - |rest|], rest))
  {
  }

  lemma AfterMore(s: Text, more: Text)
    requires AfterNumber(s).Some? && Halts(AfterNumber(s).value)
    ensures AfterNumber(s + more) == Some(AfterNumber(s).value + more)
  {
    AfterNumberIs(s);
    AfterNumberIs(s + more);
    hide AfterNumber, Halts, Behind, Digital;
    NotNothing(s);
    UnsignedMore(s, more);
    BehindMore(Unsigned(s), more);
  }

  lemma NotNothing(s: Text)
    requires Digital(Unsigned(s))
    ensures s != []
  {
  }

  lemma NumberMore(s: Text, more: Text)
    requires AfterNumber(s).Some? && Halts(AfterNumber(s).value)
    ensures ReadNumber(s + more) == Further(ReadNumber(s), more)
  {
    hide AfterNumber, Halts, ReadNumber;
    ReadNumberIs(s);
    ReadNumberIs(s + more);
    AfterMore(s, more);
    var t, rest := s + more, AfterNumber(s).value;
    assert t[..|t| - |rest + more|] == s[..|s| - |rest|];
  }

  lemma HaltsEarly(s: Text)
    requires Halts(s[ExponentLength(s)..])
    ensures Halts(s) || (s != [] && IsExp(s[0]))
  {
  }

  lemma Starts(w: Text, s: Text, more: Text)
    requires w <= s
    ensures w <= s + more && (s + more)[|w|..] == s[|w|..] + more
  {
  }

  lemma WordsApart()
    ensures |NULL_WORD| == 4 && |TRUE_WORD| == 4 && |FALSE_WORD| == 5 && |NAN_WORD| == 3 && |INFINITY_WORD| == 8
    ensures |MINUS_INFINITY_WORD| == 9
    ensures NULL_WORD[0] == 'n' as int && TRUE_WORD[0] == 't' as int && FALSE_WORD[0] == 'f' as int
    ensures NAN_WORD[0] == 'N' as int && INFINITY_WORD[0] == 'I' as int
    ensures MINUS_INFINITY_WORD[0] == '-' as int && MINUS_INFINITY_WORD[1] == 'I' as int
  {
  }

  /** A number starts with a digit, after its sign. */
  lemma NumberStarts(s: Text)
    requires s != [] && AfterNumber(s).Some?
    ensures if s[0] == '-' as int then |s| > 1 && IsDigit(s[1]) else IsDigit(s[0])
  {
    hide FractionLength, ExponentLength, CountDigits;
  }

  lemma WordMore(s: Text, more: Text)
    requires s != [] && ReadWord(s).Some? && Halts(ReadWord(s).value.1)
    ensures ReadWord(s + more) == Further(ReadWord(s), more)
  {
    WordsApart();
    hide NULL_WORD, TRUE_WORD, FALSE_WORD, NAN_WORD, INFINITY_WORD, MINUS_INFINITY_WORD, ReadNumber, Halts;
    var t := s + more;
    assert t[0] == s[0] && (|s| > 1 ==> t[1] == s[1]);
    if NULL_WORD <= s { Starts(NULL_WORD, s, more); }
    else if TRUE_WORD <= s { Starts(TRUE_WORD, s, more); }
    else if FALSE_WORD <= s { Starts(FALSE_WORD, s, more); }
    else if NAN_WORD <= s { Starts(NAN_WORD, s, more); }
    else if INFINITY_WORD <= s { Starts(INFINITY_WORD, s, more); }
    else if MINUS_INFINITY_WORD <= s { Starts(MINUS_INFINITY_WORD, s, more); }
    else {
      ReadNumberIs(s);
      NumberStarts(s);
      NumberMore(s, more);
    }
  }

  /** A value that brackets or quotes close, or that something else follows, is
      read the same whatever is written behind it. */
  predicate Closed(s: Text, rest: Text) {
    Halts(rest) || (s != [] && (s[0] == QUOTE || s[0] == '{' as int || s[0] == '[' as int))
  }

  lemma {:induction false} ValueMore(s: Text, more: Text)
    requires ReadValue(s).Some? && Closed(s, ReadValue(s).value.1)
    ensures ReadValue(s + more) == Further(ReadValue(s), more)
    decreases |s|, 1
  {
    hide SkipWs, ReadWord, ReadString, ReadMembers, ReadItems, Halts;
    var t := s + more;
    assert t[0] == s[0] && t[1..] == s[1..] + more;
    if s[0] == QUOTE {
      StringMore(s[1..], more);
    } else if s[0] == '{' as int {
      OpenMore(s, more);
      var r := SkipWs(s[1..]);
      if r[0] == '}' as int { assert (r + more)[1..] == r[1..] + more; } else { MembersMore(r, more); }
    } else if s[0] == '[' as int {
      OpenMore(s, more);
      var r := SkipWs(s[1..]);
      if r[0] == ']' as int { assert (r + more)[1..] == r[1..] + more; } else { ItemsMore(r, more); }
    } else {
      WordMore(s, more);
    }
  }

  lemma OpenMore(s: Text, more: Text)
    requires ReadValue(s).Some? && (s[0] == '{' as int || s[0] == '[' as int)
    ensures SkipWs(s[1..]) != [] && SkipWs(s[1..] + more) == SkipWs(s[1..]) + more
  {
    SkipWsMore(s[1..], more);
  }

  lemma Halted(s: Text)
    requires SkipWs(s) != [] && (SkipWs(s)[0] == ',' as int || SkipWs(s)[0] == ']' as int || SkipWs(s)[0] == '}' as int)
    ensures Halts(s)
  {
  }

  lemma {:induction false} MembersMore(s: Text, more: Text)
    requires ReadMembers(s).Some?
    ensures ReadMembers(s + more) == Further(ReadMembers(s), more)
    decreases |s|, 0
  {
    hide SkipWs, ReadString, ReadValue, Halts;
    assert (s + more)[0] == s[0] && (s + more)[1..] == s[1..] + more;
    StringMore(s[1..], more);
    var (key, r0) := ReadString(s[1..]).value;
    SkipWsMore(r0, more);
    var r1 := SkipWs(r0);
    assert (r1 + more)[1..] == r1[1..] + more;
    var inner := SkipWs(r1[1..]);
    SomeStarts(inner);
    SkipWsMore(r1[1..], more);
    var (v, r2) := ReadValue(inner).value;
    Halted(r2);
    ValueMore(inner, more);
    SkipWsMore(r2, more);
    var r3 := SkipWs(r2);
    assert (r3 + more)[1..] == r3[1..] + more;
    if r3[0] == ',' as int {
      NextStarts(SkipWs(r3[1..]));
      SkipWsMore(r3[1..], more);
      MembersMore(SkipWs(r3[1..]), more);
    }
  }

  lemma SomeStarts(s: Text)
    requires ReadValue(s).Some?
    ensures s != []
  {
  }

  lemma NextStarts(s: Text)
    requires ReadMembers(s).Some?
    ensures s != []
  {
  }

  lemma ItemStarts(s: Text)
    requires ReadItems(s).Some?
    ensures s != []
  {
    SomeStarts(s);
  }

  lemma {:induction false} ItemsMore(s: Text, more: Text)
    requires ReadItems(s).Some?
    ensures ReadItems(s + more) == Further(ReadItems(s), more)
    decreases |s|, 2
  {
    hide SkipWs, ReadString, ReadValue, Halts;
    var (v, r0) := ReadValue(s).value;
    Halted(r0);
    ValueMore(s, more);
    SkipWsMore(r0, more);
    var r1 := SkipWs(r0);
    assert (r1 + more)[1..] == r1[1..] + more;
    if r1[0] == ',' as int {
      ItemStarts(SkipWs(r1[1..]));
      SkipWsMore(r1[1..], more);
      ItemsMore(SkipWs(r1[1..]), more);
    }
  }

  // --- a frame cut short ------------------------------------------------------------------------------

  /** No proper front of an object's text is JSON. */
  lemma CutObject(v: Value, p: Text, q: Text)
    requires v.Object? && Printable(v) && p + q == Dump(v) && p != [] && q != []
    ensures Loads(p) == None
  {
    hide Printable, Compact, Yield, ReadValue, Good, Meaning;
    ObjectText(v);
    assert p[0] == Dump(v)[0];
    CompactIsFaithful(v);
    ReadsWhatIsWritten(Compact(v), []);
    assert Yield(Compact(v)) + [] == Dump(v);
    if ReadValue(p).Some? { ValueMore(p, q); }
  }

  lemma ObjectText(v: Value)
    requires v.Object? && Printable(v)
    ensures Dump(v) != [] && Dump(v)[0] == '{' as int
  {
    hide CompactMembers, YieldMembers;
  }

  /** The frame up to its data. */
  function Opening(ev: Value): Text
    requires IsEvent(ev)
  {
    Lit("event: ") + Kind(ev) + [LF] + Lit("data: ")
  }

  /** A front of the frame that ends inside its data. */
  predicate InData(r: Text, ev: Value)
    requires IsEvent(ev) && Printable(ev)
  {
    r <= FrameBody(ev) && |Opening(ev)| < |r| < |FrameBody(ev)|
  }

  lemma {:induction false} TrimEndPrefix(s: Text)
    requires s != [] && !IsJsSpace(s[0])
    ensures JsTrimEnd(s) <= s && JsTrimEnd(s) != []
    decreases |s|
  {
    if IsJsSpace(s[|s| - 1]) { TrimEndPrefix(s[..|s| - 1]); }
  }

  lemma TrimBlank(p: Text)
    requires p != [] && p[0] == '{' as int
    ensures JsTrim([SPACE] + p) == JsTrimEnd(p)
  {
    assert ([SPACE] + p)[1..] == p;
    assert JsTrimStart([SPACE] + p) == JsTrimStart(p) == p;
  }

  lemma DataOfPart(head: Text, p: Text)
    requires |head| > 0 && head[0] == 'e' as int && p != [] && p[0] == '{' as int
    ensures JoinLines(DataLines([head, Lit("data: ") + p])) == JsTrimEnd(p)
  {
    hide JsTrimEnd;
    var second := Lit("data: ") + p;
    assert DATA[0] == 'd' as int;
    assert DATA <= second && second[5..] == [SPACE] + p;
    TrimBlank(p);
    assert [head, second][1..] == [second] && [second][1..] == [];
    assert DataLines([second]) == [JsTrimEnd(p)] + [];
    assert DataLines([head, second]) == [] + [JsTrimEnd(p)];
  }

  /** Cut inside its data, a frame is one that is not JSON. */
  lemma TornFrame(ev: Value, r: Text)
    requires IsEvent(ev) && Printable(ev) && InData(r, ev)
    ensures Emit(r) == OnFatal
  {
    hide Visible, Compact, Dump, Loads, Lines, DataLines, JoinLines, Kind, Printable, Lit, JsTrimEnd, IsEvent;
    var head, d := Lit("event: ") + Kind(ev), Dump(ev);
    var p, q := d[..|r| - |Opening(ev)|], d[|r| - |Opening(ev)|..];
    assert FrameBody(ev) == Opening(ev) + d;
    assert r == Opening(ev) + p == head + [LF] + Lit("data: ") + p;
    EventText(ev);
    VisibleFront(p, d);
    FrameLines(head, p);
    DataOfPart(head, p);
    TrimEndPrefix(p);
    var t := JsTrimEnd(p);
    assert t + (d[|t|..]) == d;
    CutEvent(ev, t, d[|t|..]);
  }

  lemma VisibleFront(p: Text, s: Text)
    requires Visible(s) && p <= s
    ensures Visible(p)
  {
  }

  lemma CutEvent(ev: Value, p: Text, q: Text)
    requires IsEvent(ev) && Printable(ev) && p + q == Dump(ev) && p != [] && q != []
    ensures Loads(p) == None
  {
    CutObject(ev, p, q);
  }

  lemma EventText(ev: Value)
    requires IsEvent(ev) && Printable(ev)
    ensures Visible(Lit("event: ") + Kind(ev)) && (Lit("event: ") + Kind(ev))[0] == 'e' as int
    ensures Visible(Dump(ev)) && Dump(ev) != [] && Dump(ev)[0] == '{' as int
  {
    hide Visible, Kind, Printable, Compact, Lit;
    KindIsVisible(ev);
    CompactIsFaithful(ev);
    HeadVisible(Kind(ev));
    ObjectText(ev);
  }

  /** Lines with no data in them say nothing. */
  lemma {:induction false} NoData(lines: seq<Text>)
    requires forall i :: 0 <= i < |lines| ==> !(DATA <= lines[i]) || JsTrim(lines[i][5..]) == []
    requires forall i :: 0 <= i < |lines| - 1 ==> !(DATA <= lines[i])
    ensures JoinLines(DataLines(lines)) == []
  {
    hide JsTrim;
    if lines != [] {
      NoData(lines[1..]);
      if DATA <= lines[0] {
        assert |lines| == 1 && lines[1..] == [];
        assert DataLines(lines) == [[]] + [];
      } else {
        assert DataLines(lines) == [] + DataLines(lines[1..]);
      }
    }
  }

  /** A front of a text that shows no line break is one line. */
  lemma OneLine(r: Text)
    requires forall i :: 0 <= i < |r| ==> r[i] != LF && r[i] != CR
    ensures Lines([], r) == [r] && Lines([], r + [LF]) == [r, []]
  {
    LinesPlain([], r, []);
    LinesPlain([], r, [LF]);
    assert r + [] == r && [] + r == r;
    assert [LF][1..] == [];
  }

  lemma SilentLine(r: Text)
    requires r == [] || r[0] != 'd' as int
    requires forall i :: 0 <= i < |r| ==> r[i] != LF && r[i] != CR
    ensures Emit(r) == Nothing && Emit(r + [LF]) == Nothing
  {
    hide JsTrim, Lines, JoinLines, DataLines;
    OneLine(r);
    assert DATA[0] == 'd' as int && |DATA| == 5;
    NoData([r]);
    NoData([r, []]);
  }

  /** Nor is a ping, cut or whole, anything to the client. */
  lemma TornPing(r: Text)
    requires r <= PING_BODY + [LF]
    ensures Emit(r) == Nothing
  {
    PingIsPlain();
    assert PING_BODY[0] == ':' as int;
    hide Emit, PING_BODY;
    if |r| <= |PING_BODY| {
      SilentLine(r);
    } else {
      assert r == PING_BODY + [LF];
      SilentLine(PING_BODY);
    }
  }

  lemma Hollow(x: Text)
    requires x <= Lit("data: ")
    ensures (forall i :: 0 <= i < |x| ==> x[i] != LF && x[i] != CR) && (DATA <= x ==> JsTrim(x[5..]) == [])
  {
    var all := Lit("data: ");
    assert |all| == 6 && all[5] == SPACE;
    if |x| == 6 {
      assert x[5..] == [SPACE] && [SPACE][1..] == [];
      assert JsTrimStart([SPACE]) == JsTrimStart([]) == [];
    } else if |x| == 5 {
      assert x[5..] == [];
    }
  }

  lemma PlainLine(t: Text)
    requires Visible(t)
    ensures forall i :: 0 <= i < |t| ==> t[i] != LF && t[i] != CR
  {
  }

  /** Before its data, an event's frame says nothing. */
  lemma TornHead(ev: Value, r: Text)
    requires IsEvent(ev) && Printable(ev) && r <= Opening(ev)
    ensures Emit(r) == Nothing
  {
    hide Visible, Lines, DataLines, JoinLines, Kind, Printable, Lit, JsTrim, IsEvent, Emit, Dump;
    var head := Lit("event: ") + Kind(ev);
    EventText(ev);
    PlainLine(head);
    if |r| <= |head| {
      assert r <= head;
      SilentLine(r);
    } else {
      var x := r[|head| + 1..];
      assert r == head + [LF] + x && x <= Lit("data: ");
      Hollow(x);
      HeadAndMore(head, x);
    }
  }

  lemma HeadAndMore(head: Text, x: Text)
    requires head != [] && head[0] == 'e' as int && forall i :: 0 <= i < |head| ==> head[i] != LF && head[i] != CR
    requires (forall i :: 0 <= i < |x| ==> x[i] != LF && x[i] != CR) && (DATA <= x ==> JsTrim(x[5..]) == [])
    ensures Emit(head + [LF] + x) == Nothing
  {
    hide JsTrim, Lines, JoinLines, DataLines;
    assert head + [LF] + x == head + ([LF] + x);
    LinesPlain([], head, [LF] + x);
    assert [] + head == head;
    LinesNext(head, x);
    OneLine(x);
    assert DATA[0] == 'd' as int;
    assert [head] + [x] == [head, x];
    NoData([head, x]);
  }

  lemma LinesNext(line: Text, s: Text)
    ensures Lines(line, [LF] + s) == [line] + Lines([], s)
  {
    assert ([LF] + s)[1..] == s;
  }

  /** With its data whole, an event's frame is that event, blank line or not. */
  lemma WholeFrame(ev: Value)
    requires IsEvent(ev) && Printable(ev)
    ensures Emit(FrameBody(ev)) == OnEvent(ev) && Emit(FrameBody(ev) + [LF]) == OnEvent(ev)
  {
    EmitEvent(ev);
    EventText(ev);
    LineBreakLast(Lit("event: ") + Kind(ev), Dump(ev));
    hide Lit, Kind, Dump, Printable, IsEvent, Loads, Lines, Visible, DataLines, JoinLines;
    assert FrameBody(ev) == Lit("event: ") + Kind(ev) + [LF] + Lit("data: ") + Dump(ev);
  }

  lemma LineBreakLast(head: Text, d: Text)
    requires Visible(head) && Visible(d)
    ensures var s := head + [LF] + Lit("data: ") + d;
      DataLines(Lines([], s + [LF])) == DataLines(Lines([], s))
  {
    hide Visible, Lines, Lit, JsTrim;
    var second := Lit("data: ") + d;
    FrameLines(head, d);
    DataVisible(d);
    PlainLine(head);
    PlainLine(second);
    assert head + [LF] + Lit("data: ") + d + [LF] == head + ([LF] + (second + [LF]));
    LinesPlain([], head, [LF] + (second + [LF]));
    assert [] + head == head;
    LinesNext(head, second + [LF]);
    OneLine(second);
    assert [head] + [second, []] == [head, second] + [[]];
    DataLinesLast([head, second]);
  }

  lemma {:induction false} DataLinesLast(lines: seq<Text>)
    ensures DataLines(lines + [[]]) == DataLines(lines)
  {
    hide JsTrim;
    if lines == [] {
      var one: seq<Text> := [[]];
      assert |DATA| == 5 && one[1..] == [] && lines + one == one;
    } else {
      assert (lines + [[]])[1..] == lines[1..] + [[]];
      DataLinesLast(lines[1..]);
    }
  }

  /** What a frame amounts to when it stops after so many characters. */
  lemma FrontOfFrame(ev: Value, r: Text)
    requires IsEvent(ev) && Printable(ev) && r <= FrameBody(ev) + [LF]
    ensures Emit(r) ==
      if |r| <= |Opening(ev)| then Nothing else if |r| < |FrameBody(ev)| then OnFatal else OnEvent(ev)
    ensures InData(r, ev) <==> |Opening(ev)| < |r| < |FrameBody(ev)|
  {
    OpeningFirst(ev);
    hide Emit, Opening, FrameBody, Printable, IsEvent;
    var body := FrameBody(ev);
    if |r| <= |Opening(ev)| {
      assert r <= Opening(ev);
      TornHead(ev, r);
    } else if |r| < |body| {
      assert r <= body;
      TornFrame(ev, r);
    } else {
      assert r == body || r == body + [LF];
      WholeFrame(ev);
    }
  }

  lemma OpeningFirst(ev: Value)
    requires IsEvent(ev) && Printable(ev)
    ensures Opening(ev) <= FrameBody(ev) && |Opening(ev)| < |FrameBody(ev)|
    ensures Opening(ev) != [] && Opening(ev)[0] == 'e' as int
  {
    EventText(ev);
    hide Lit, Kind, Dump, Printable, IsEvent, Visible;
    assert FrameBody(ev) == Opening(ev) + Dump(ev);
  }

  // --- a stream cut short -------------------------------------------------------------------------------

  lemma NoSep(body: Text, r: Text)
    requires OneFrame(body) && r <= body + [LF]
    ensures Frames(r) == [] && Residue(r) == r
  {
    forall i | 0 <= i <= |r| ensures SepAt(r, i) == 0 {
      if i < |r| && i < |body| {
        assert r[i] == body[i];
        if i + 1 < |r| && i + 1 < |body| { assert r[i + 1] == body[i + 1]; }
      }
    }
    NeverSep(r, 0);
  }

  lemma {:induction false} NeverSep(s: Text, i: nat)
    requires i <= |s| && forall j :: i <= j <= |s| ==> SepAt(s, j) == 0
    ensures FindSep(s, i).None?
    decreases |s| - i
  {
    hide SepAt;
    if i < |s| { NeverSep(s, i + 1); }
  }

  /** Some frames whole, and a front of the next. */
  lemma {:induction false} CutWire(bodies: seq<Text>, part: Text, rest: Text) returns (k: nat)
    requires (forall i :: 0 <= i < |bodies| ==> OneFrame(bodies[i])) && part + rest == Wire(bodies)
    ensures k <= |bodies| && Frames(part) == bodies[..k]
    ensures if k == |bodies| then Residue(part) == [] else Residue(part) <= bodies[k] + [LF]
  {
    hide OneFrame, Frames, Residue;
    if bodies == [] {
      assert part == [];
      NoSepInNothing();
      return 0;
    }
    var first := bodies[0] + BLANK_LINE;
    if |part| < |first| {
      assert part == (part + rest)[..|part|] == first[..|part|];
      assert bodies[0] + [LF] == first[..|first| - 1];
      NoSep(bodies[0], part);
      return 0;
    }
    var more := part[|first|..];
    assert part == first + more && more + rest == Wire(bodies[1..]);
    FirstFrame(bodies[0], more);
    k := CutWire(bodies[1..], more, rest);
    k := k + 1;
    assert bodies[..k] == [bodies[0]] + bodies[1..][..k - 1];
  }

  lemma NoSepInNothing()
    ensures Frames([]) == [] && Residue([]) == []
  {
    assert SepAt([], 0) == 0;
  }

  lemma FirstFrame(body: Text, more: Text)
    requires OneFrame(body)
    ensures var s := body + BLANK_LINE + more;
      Frames(s) == [body] + Frames(more) && Residue(s) == Residue(more)
  {
    FindsBlankLine(body, more);
    hide FindSep, SepAt;
    var s := body + BLANK_LINE + more;
    assert AfterSep(s) == more && BeforeSep(s) == body;
  }

  /** The bodies up to some point behind the first event. */
  lemma BodiesBehind(events: seq<Value>, quiet: seq<nat>, k: nat)
    requires Sendable(events) && |quiet| == |events| + 1 && quiet[0] < k <= |Bodies(events, quiet)|
    ensures events != []
    ensures var rest, j := Bodies(events[1..], quiet[1..]), k - quiet[0] - 1;
      && |Bodies(events, quiet)| == quiet[0] + 1 + |rest|
      && Bodies(events, quiet)[..k] == Pings(quiet[0]) + ([FrameBody(events[0])] + rest[..j])
      && (k < |Bodies(events, quiet)| ==> Bodies(events, quiet)[k] == rest[j])
  {
    hide FrameBody, PING_BODY;
  }

  lemma BodiesBefore(events: seq<Value>, quiet: seq<nat>, k: nat)
    requires Sendable(events) && |quiet| == |events| + 1 && k <= quiet[0]
    ensures k <= |Bodies(events, quiet)| && Bodies(events, quiet)[..k] == Pings(k)
    ensures k == |Bodies(events, quiet)| ==> events == []
    ensures k < |Bodies(events, quiet)| ==>
      Bodies(events, quiet)[k] == PING_BODY || (events != [] && Bodies(events, quiet)[k] == FrameBody(events[0]))
  {
    hide FrameBody, PING_BODY;
  }

  /** A body is a ping or the frame of the next event. */
  lemma {:induction false} BodyAt(events: seq<Value>, quiet: seq<nat>, k: nat) returns (n: nat)
    requires Sendable(events) && |quiet| == |events| + 1 && k <= |Bodies(events, quiet)|
    ensures n <= |events| && Emissions(Bodies(events, quiet)[..k]) == Deliveries(events)[..n]
    ensures k < |Bodies(events, quiet)| ==>
      Bodies(events, quiet)[k] == PING_BODY || (n < |events| && Bodies(events, quiet)[k] == FrameBody(events[n]))
    ensures k == |Bodies(events, quiet)| ==> n == |events|
    decreases |events|
  {
    hide FrameBody, Emit, Emissions, Pings, Bodies, PING_BODY;
    if k <= quiet[0] {
      BodiesBefore(events, quiet, k);
      EmitPings(k);
      return 0;
    }
    BodiesBehind(events, quiet, k);
    var rest, first, j := Bodies(events[1..], quiet[1..]), FrameBody(events[0]), k - quiet[0] - 1;
    n := BodyAt(events[1..], quiet[1..], j);
    EmitEvent(events[0]);
    EmitPings(quiet[0]);
    EmissionsAppend(Pings(quiet[0]), [first] + rest[..j]);
    EmissionsCons(first, rest[..j]);
    DeliveriesCons(events);
    n := n + 1;
    assert Deliveries(events)[..n] == [OnEvent(events[0])] + Deliveries(events[1..])[..n - 1];
  }

  /** The last word of a stream that ends with this left over. */
  function LastWord(rest: Text): seq<Delivery> {
    if JsTrim(rest) != [] && !Emit(rest).Nothing? then [Emit(rest)] else []
  }

  lemma LastWordOf(r: Text, ev: Value)
    requires IsEvent(ev) && Printable(ev) && r <= FrameBody(ev) + [LF]
    ensures LastWord(r) ==
      if |r| <= |Opening(ev)| then [] else if |r| < |FrameBody(ev)| then [OnFatal] else [OnEvent(ev)]
  {
    OpeningFirst(ev);
    FrontOfFrame(ev, r);
    hide Emit, Opening, FrameBody, Printable, IsEvent;
    if |r| > |Opening(ev)| {
      assert r[0] == Opening(ev)[0];
      TrimEndPrefix(r);
    }
  }

  lemma NoLastWord(r: Text)
    requires Emit(r) == Nothing
    ensures LastWord(r) == []
  {
  }

  /** What is told in the end when the stream stops in the frame of event `n`. */
  lemma StopsInFrame(events: seq<Value>, n: nat, r: Text) returns (m: nat, torn: bool)
    requires Sendable(events) && n < |events| && r <= FrameBody(events[n]) + [LF]
    ensures m <= |events|
    ensures Deliveries(events)[..n] + LastWord(r) == Deliveries(events)[..m] + (if torn then [OnFatal] else [])
    ensures torn <==> m < |events| && InData(r, events[m])
  {
    hide Emit, FrameBody, Opening, InData, LastWord;
    var ev, said := events[n], Deliveries(events)[..n];
    OpeningFirst(ev);
    FrontOfFrame(ev, r);
    LastWordOf(r, ev);
    m, torn := n, |Opening(ev)| < |r| < |FrameBody(ev)|;
    if |r| >= |FrameBody(ev)| {
      if n + 1 < |events| { NotInNext(r, ev, events[n + 1]); }
      m := n + 1;
      assert said + [OnEvent(ev)] == Deliveries(events)[..m];
    }
    assert said + [] == said;
    assert Deliveries(events)[..m] + [] == Deliveries(events)[..m];
  }

  lemma StopsInPing(events: seq<Value>, n: nat, r: Text)
    requires Sendable(events) && n <= |events| && r <= PING_BODY + [LF]
    ensures LastWord(r) == [] && (n < |events| ==> !InData(r, events[n]))
  {
    hide Emit, InData, PING_BODY, LastWord;
    TornPing(r);
    NoLastWord(r);
    if n < |events| { NotInPing(r, events[n]); }
  }

  /** A stream that ends wherever it may: the first events, and a complaint exactly
      when it ends inside the data of the next. */
  lemma WhatArrives(events: seq<Value>, quiet: seq<nat>, part: Text, rest: Text) returns (n: nat, torn: bool)
    requires Sendable(events) && |quiet| == |events| + 1 && part + rest == Wire(Bodies(events, quiet))
    ensures n <= |events| && Received(part) == Deliveries(events)[..n] + (if torn then [OnFatal] else [])
    ensures torn <==> n < |events| && InData(Residue(part), events[n])
  {
    hide Emit, Emissions, Frames, Residue, FrameBody, Opening, PING_BODY, InData, Wire, LastWord, Bodies, Deliveries,
      OneFrame, Received;
    BodiesAreFrames(events, quiet);
    var k := CutWire(Bodies(events, quiet), part, rest);
    n := BodyAt(events, quiet, k);
    torn := false;
    ReceivedIs(part);
    if k == |Bodies(events, quiet)| {
      EmptyWord();
    } else if Bodies(events, quiet)[k] == PING_BODY {
      StopsInPing(events, n, Residue(part));
    } else {
      n, torn := StopsInFrame(events, n, Residue(part));
    }
  }

  lemma ReceivedIs(s: Text)
    ensures Received(s) == Emissions(Frames(s)) + LastWord(Residue(s))
  {
  }

  lemma EmptyWord()
    ensures LastWord([]) == []
  {
  }

  lemma NotInPing(r: Text, ev: Value)
    requires IsEvent(ev) && Printable(ev) && Emit(r) == Nothing
    ensures !InData(r, ev)
  {
    if InData(r, ev) { TornFrame(ev, r); }
  }

  lemma NotInNext(r: Text, ev: Value, next: Value)
    requires IsEvent(ev) && Printable(ev) && IsEvent(next) && Printable(next)
    requires Emit(r) == OnEvent(ev)
    ensures !InData(r, next)
  {
    if InData(r, next) { TornFrame(next, r); }
  }

  lemma BodiesCons(events: seq<Value>, quiet: seq<nat>)
    requires Sendable(events) && |quiet| == |events| + 1 && events != []
    ensures Bodies(events, quiet) == Pings(quiet[0]) + ([FrameBody(events[0])] + Bodies(events[1..], quiet[1..]))
  {
    hide FrameBody, PING_BODY;
  }

  lemma NoBodies(quiet: seq<nat>)
    requires quiet == [0]
    ensures Bodies([], quiet) == []
  {
  }

  lemma Thrice<T>(a: seq<T>, b: seq<T>, c: seq<T>, d: seq<T>)
    ensures a + (b + (c + d)) == (a + (b + c)) + d
  {
  }

  /** The stream up to an event's blank line, and from there on. */
  lemma {:induction false} BodiesSplit(events: seq<Value>, quiet: seq<nat>, m: nat)
    requires Sendable(events) && |quiet| == |events| + 1 && m <= |events|
    ensures Bodies(events, quiet) == Bodies(events[..m], quiet[..m] + [0]) + Bodies(events[m..], quiet[m..])
    decreases m
  {
    hide FrameBody, PING_BODY, Bodies, Pings;
    var front := quiet[..m] + [0];
    if m == 0 {
      assert events[m..] == events && quiet[m..] == quiet && front == [0] && events[..m] == [];
      NoBodies(front);
      assert [] + Bodies(events, quiet) == Bodies(events, quiet);
    } else {
      BodiesSplit(events[1..], quiet[1..], m - 1);
      assert events[..m][1..] == events[1..][..m - 1] && front[1..] == quiet[1..][..m - 1] + [0];
      assert events[1..][m - 1..] == events[m..] && quiet[1..][m - 1..] == quiet[m..];
      BodiesCons(events, quiet);
      BodiesCons(events[..m], front);
      Thrice(Pings(quiet[0]), [FrameBody(events[0])], Bodies(events[..m][1..], front[1..]),
        Bodies(events[m..], quiet[m..]));
    }
  }

  lemma WireSplit(events: seq<Value>, quiet: seq<nat>, m: nat)
    requires Sendable(events) && |quiet| == |events| + 1 && m <= |events|
    ensures Wire(Bodies(events, quiet)) ==
      Wire(Bodies(events[..m], quiet[..m] + [0])) + Wire(Bodies(events[m..], quiet[m..]))
  {
    hide Bodies, Wire;
    BodiesSplit(events, quiet, m);
    WireAppend(Bodies(events[..m], quiet[..m] + [0]), Bodies(events[m..], quiet[m..]));
  }
}
