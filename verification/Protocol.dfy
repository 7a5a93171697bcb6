/** Grammar, decoder and parse together: what the sampler may utter is what the
    parse accepts, and what the decoder shows is what the parse returns. */
module Protocol {
  import opened Codes
  import opened Json
  import opened Grammar
  import opened Client

  // --- the shapes a derivation can have -----------------------------------------------

  /** Text that needs no escaping inside quotes; registered tool names are such. */
  predicate IsPlain(t: Text) {
    forall i :: 0 <= i < |t| ==> t[i] != QUOTE && t[i] != BACKSLASH && t[i] >= 0x20
  }

  function PlainPieces(t: Text): (ps: seq<Piece>)
    ensures |ps| == |t| && forall i :: 0 <= i < |t| ==> ps[i] == Plain(t[i])
  {
    seq(|t|, i requires 0 <= i < |t| => Plain(t[i]))
  }

  lemma {:induction false} PlainSpelling(t: Text)
    requires IsPlain(t)
    ensures GoodPieces(PlainPieces(t))
    ensures YieldPieces(PlainPieces(t)) == t
    ensures PiecesMeaning(PlainPieces(t)) == t
  {
    var ps := PlainPieces(t);
    if t != [] {
      assert ps[1..] == PlainPieces(t[1..]);
      PlainSpelling(t[1..]);
      assert t == [t[0]] + t[1..];
    }
  }

  /** {"final": <string>} with its blanks. */
  function FinalTree(w1: Text, w2: Text, w3: Text, ps: seq<Piece>, w4: Text): Tree {
    ObjectTree(w1, Member(PlainPieces(FINAL_WORD), w2, w3, StrTree(ps), w4, [], NoMembers))
  }

  /** {"tool": <name>, "args": <object>} with its blanks. */
  function ToolTree(w1: Text, w2: Text, w3: Text, name: Text, w4: Text, w5: Text, w6: Text, w7: Text, args: Tree,
    w8: Text): Tree {
    ObjectTree(w1, Member(PlainPieces(TOOL_WORD), w2, w3, StrTree(PlainPieces(name)), w4, w5,
      Member(PlainPieces(ARGS_WORD), w6, w7, args, w8, [], NoMembers)))
  }

  lemma PlainWords()
    ensures IsPlain(FINAL_WORD) && IsPlain(TOOL_WORD) && IsPlain(ARGS_WORD)
  {
  }

  lemma FinalOf(names: seq<Text>, d: Derivation)
    returns (t: Tree, w1: Text, w2: Text, w3: Text, ps: seq<Piece>, w4: Text)
    requires Fits(names, FINAL_BODY, d)
    ensures t == FinalTree(w1, w2, w3, ps, w4) && GoodPieces(ps) && Good(t) && Spell(d) == Yield(t)
  {
    hide Fits, Spell, SpellAll;
    var e8 := Cat(WS, Char('}'));
    var e7 := Cat(Ref(StringRule), e8);
    var e6 := Cat(WS, e7);
    var e5 := Cat(Char(':'), e6);
    var e4 := Cat(WS, e5);
    var e3 := Cat(QuotedWord(FINAL_WORD), e4);
    FitsCat(names, Char('{'), Cat(WS, e3), d);
    FitsCat(names, WS, e3, d.r);
    FitsCat(names, QuotedWord(FINAL_WORD), e4, d.r.r);
    FitsCat(names, WS, e5, d.r.r.r);
    var d4 := d.r.r.r.r;
    FitsCat(names, Char(':'), e6, d4);
    FitsCat(names, WS, e7, d4.r);
    FitsCat(names, Ref(StringRule), e8, d4.r.r);
    FitsCat(names, WS, Char('}'), d4.r.r.r);
    FitsChar(names, '{', d.l);
    WsIsBlank(names, d.r.l);
    FitsWord(names, [QUOTE] + FINAL_WORD + [QUOTE], d.r.r.l);
    WsIsBlank(names, d.r.r.r.l);
    FitsChar(names, ':', d4.l);
    WsIsBlank(names, d4.r.l);
    var w;
    ps, w := StringOf(names, d4.r.r.l);
    WsIsBlank(names, d4.r.r.r.l);
    FitsChar(names, '}', d4.r.r.r.r);
    w1, w2, w3, w4 := Spell(d.r.l), Spell(d.r.r.r.l), Spell(d4.r.l), w + Spell(d4.r.r.r.l);
    t := FinalTree(w1, w2, w3, ps, w4);
    FinalGood(w1, w2, w3, ps, w4);
    FinalSpelling(w1, w2, w3, ps, w, Spell(d4.r.r.r.l));
  }

  lemma FinalGood(w1: Text, w2: Text, w3: Text, ps: seq<Piece>, w4: Text)
    requires AllWs(w1) && AllWs(w2) && AllWs(w3) && AllWs(w4) && GoodPieces(ps)
    ensures Good(FinalTree(w1, w2, w3, ps, w4))
  {
    PlainWords();
    PlainSpelling(FINAL_WORD);
  }

  lemma FinalSpelling(w1: Text, w2: Text, w3: Text, ps: seq<Piece>, w: Text, v: Text)
    ensures ['{' as int]
      + (w1 + (([QUOTE] + FINAL_WORD + [QUOTE])
      + (w2 + ([':' as int] + (w3 + ((Quoted(ps) + w) + (v + ['}' as int])))))))
         == Yield(FinalTree(w1, w2, w3, ps, w + v))
  {
    PlainWords();
    PlainSpelling(FINAL_WORD);
    var key := Quoted(PlainPieces(FINAL_WORD));
    assert key == [QUOTE] + FINAL_WORD + [QUOTE];
    var q := Quoted(ps);
    assert YieldMembers(FinalTree(w1, w2, w3, ps, w + v).members) == key + w2 + [':' as int] + w3 + q + (w + v) + [];
    Regroup(key, w2, w3, q, w, v, w1);
  }

  lemma Regroup(key: Text, w2: Text, w3: Text, q: Text, w: Text, v: Text, w1: Text)
    ensures ['{' as int] + (w1 + (key + (w2 + ([':' as int] + (w3 + ((q + w) + (v + ['}' as int])))))))
         == ['{' as int] + w1 + (key + w2 + [':' as int] + w3 + q + (w + v) + []) + ['}' as int]
  {
    var tail := (q + w) + (v + ['}' as int]);
    assert tail == q + (w + v) + ['}' as int];
    assert key + (w2 + ([':' as int] + (w3 + tail))) == (key + w2 + [':' as int] + w3) + tail;
    assert (key + w2 + [':' as int] + w3) + tail == (key + w2 + [':' as int] + w3 + q + (w + v) + []) + ['}' as int];
  }

  const TO_ARGS: Expr := Cat(WS, Cat(Char(':'), Cat(WS, Cat(Ref(ObjectRule), Cat(WS, Char('}'))))))
  const AFTER_NAME: Expr := Cat(WS, Cat(Char(','), Cat(WS, Cat(QuotedWord(ARGS_WORD), TO_ARGS))))

  /** From the colon after "args" to the closing brace. */
  lemma ArgsOf(names: seq<Text>, d: Derivation) returns (w6: Text, w7: Text, args: Tree, w8: Text)
    requires Fits(names, TO_ARGS, d)
    ensures AllWs(w6) && AllWs(w7) && AllWs(w8) && args.ObjectTree? && Good(args)
    ensures Spell(d) == w6 + [':' as int] + w7 + Yield(args) + w8 + ['}' as int]
  {
    FitsCat(names, WS, Cat(Char(':'), Cat(WS, Cat(Ref(ObjectRule), Cat(WS, Char('}'))))), d);
    FitsCat(names, Char(':'), Cat(WS, Cat(Ref(ObjectRule), Cat(WS, Char('}')))), d.r);
    FitsCat(names, WS, Cat(Ref(ObjectRule), Cat(WS, Char('}'))), d.r.r);
    FitsCat(names, Ref(ObjectRule), Cat(WS, Char('}')), d.r.r.r);
    FitsCat(names, WS, Char('}'), d.r.r.r.r);
    WsIsBlank(names, d.l);
    FitsChar(names, ':', d.r.l);
    WsIsBlank(names, d.r.r.l);
    var w;
    args, w := ObjectOf(names, d.r.r.r.l);
    WsIsBlank(names, d.r.r.r.r.l);
    FitsChar(names, '}', d.r.r.r.r.r);
    var v := Spell(d.r.r.r.r.l);
    w6, w7, w8 := Spell(d.l), Spell(d.r.r.l), w + v;
    assert Spell(d) == w6 + ([':' as int] + (w7 + ((Yield(args) + w) + (v + ['}' as int]))));
    Flatten(w6, w7, Yield(args), w, v);
  }

  lemma Flatten(w6: Text, w7: Text, a: Text, w: Text, v: Text)
    ensures w6 + ([':' as int] + (w7 + ((a + w) + (v + ['}' as int])))) == w6 + [':' as int] + w7 + a + (w
      + v) + ['}' as int]
  {
  }

  /** From the blanks after the tool's name to the closing brace. */
  lemma AfterNameOf(names: seq<Text>, d: Derivation)
    returns (w4: Text, w5: Text, w6: Text, w7: Text, args: Tree, w8: Text)
    requires Fits(names, AFTER_NAME, d)
    ensures AllWs(w4) && AllWs(w5) && AllWs(w6) && AllWs(w7) && AllWs(w8) && args.ObjectTree? && Good(args)
    ensures Spell(d) ==
      w4 + ([',' as int] + w5 + ([QUOTE] + ARGS_WORD + [QUOTE])
      + (w6 + [':' as int] + w7 + Yield(args) + w8 + ['}' as int]))
  {
    FitsCat(names, WS, Cat(Char(','), Cat(WS, Cat(QuotedWord(ARGS_WORD), TO_ARGS))), d);
    FitsCat(names, Char(','), Cat(WS, Cat(QuotedWord(ARGS_WORD), TO_ARGS)), d.r);
    FitsCat(names, WS, Cat(QuotedWord(ARGS_WORD), TO_ARGS), d.r.r);
    FitsCat(names, QuotedWord(ARGS_WORD), TO_ARGS, d.r.r.r);
    WsIsBlank(names, d.l);
    FitsChar(names, ',', d.r.l);
    WsIsBlank(names, d.r.r.l);
    FitsWord(names, [QUOTE] + ARGS_WORD + [QUOTE], d.r.r.r.l);
    w4, w5 := Spell(d.l), Spell(d.r.r.l);
    w6, w7, args, w8 := ArgsOf(names, d.r.r.r.r);
    var z := Spell(d.r.r.r.r);
    assert [',' as int] + (w5 + (([QUOTE] + ARGS_WORD + [QUOTE]) + z)) ==
      [',' as int] + w5 + ([QUOTE] + ARGS_WORD + [QUOTE]) + z;
  }

  /** A tool shape whose name is derived from `e` and spelled as a quoted word. */
  lemma ToolOf(names: seq<Text>, e: Expr, d: Derivation, name: Text)
    returns (t: Tree, w1: Text, w2: Text, w3: Text, w4: Text, w5: Text, w6: Text, w7: Text, args: Tree, w8: Text)
    requires Fits(names, ToolBody(e), d)
    requires Spell(NamePart(names, e, d)) == [QUOTE] + name + [QUOTE] && IsPlain(name)
    ensures t == ToolTree(w1, w2, w3, name, w4, w5, w6, w7, args, w8) && Good(t) && Spell(d) == Yield(t)
    ensures args.ObjectTree?
  {
    FrontFits(names, e, d);
    WsIsBlank(names, d.r.l);
    WsIsBlank(names, d.r.r.r.l);
    var d4 := d.r.r.r.r;
    WsIsBlank(names, d4.r.l);
    w1, w2, w3 := Spell(d.r.l), Spell(d.r.r.r.l), Spell(d4.r.l);
    w4, w5, w6, w7, args, w8 := AfterNameOf(names, d4.r.r.r);
    t := ToolTree(w1, w2, w3, name, w4, w5, w6, w7, args, w8);
    ToolIsGood(w1, w2, w3, name, w4, w5, w6, w7, args, w8);
    assert NamePart(names, e, d) == d4.r.r.l;
    FitsChar(names, '{', d.l);
    FitsWord(names, [QUOTE] + TOOL_WORD + [QUOTE], d.r.r.l);
    FitsChar(names, ':', d4.l);
    ToolSpelling(w1, w2, w3, name, w4, w5, w6, w7, args, w8);
  }

  lemma ToolIsGood(w1: Text, w2: Text, w3: Text, name: Text, w4: Text, w5: Text, w6: Text, w7: Text, args: Tree,
    w8: Text)
    requires AllWs(w1) && AllWs(w2) && AllWs(w3) && AllWs(w4) && AllWs(w5) && AllWs(w6) && AllWs(w7) && AllWs(w8)
    requires Good(args) && IsPlain(name)
    ensures Good(ToolTree(w1, w2, w3, name, w4, w5, w6, w7, args, w8))
  {
    PlainWords();
    PlainSpelling(TOOL_WORD);
    PlainSpelling(ARGS_WORD);
    PlainSpelling(name);
    var second := Member(PlainPieces(ARGS_WORD), w6, w7, args, w8, [], NoMembers);
    assert GoodMembers(second);
  }

  /** The part of a tool shape's derivation that spells the name. */
  function NamePart(names: seq<Text>, e: Expr, d: Derivation): (n: Derivation)
    requires Fits(names, ToolBody(e), d)
    ensures Fits(names, e, n)
  {
    FrontFits(names, e, d);
    d.r.r.r.r.r.r.l
  }

  lemma FrontFits(names: seq<Text>, e: Expr, d: Derivation)
    requires Fits(names, ToolBody(e), d)
    ensures d.Both? && d.r.Both? && d.r.r.Both? && d.r.r.r.Both? && d.r.r.r.r.Both? && d.r.r.r.r.r.Both?
      && d.r.r.r.r.r.r.Both?
    ensures Fits(names, Char('{'), d.l) && Fits(names, WS, d.r.l) && Fits(names, QuotedWord(TOOL_WORD), d.r.r.l)
    ensures Fits(names, WS, d.r.r.r.l) && Fits(names, Char(':'), d.r.r.r.r.l) && Fits(names, WS, d.r.r.r.r.r.l)
    ensures Fits(names, e, d.r.r.r.r.r.r.l) && Fits(names, AFTER_NAME, d.r.r.r.r.r.r.r)
    ensures Spell(d) == Spell(d.l) + (Spell(d.r.l) + (Spell(d.r.r.l) + (Spell(d.r.r.r.l) + (Spell(d.r.r.r.r.l)
      + (Spell(d.r.r.r.r.r.l) + (Spell(d.r.r.r.r.r.r.l) + Spell(d.r.r.r.r.r.r.r)))))))
  {
    var e6 := Cat(e, AFTER_NAME);
    var e5 := Cat(WS, e6);
    var e4 := Cat(Char(':'), e5);
    var e3 := Cat(WS, e4);
    var e2 := Cat(QuotedWord(TOOL_WORD), e3);
    FitsCat(names, Char('{'), Cat(WS, e2), d);
    FitsCat(names, WS, e2, d.r);
    FitsCat(names, QuotedWord(TOOL_WORD), e3, d.r.r);
    FitsCat(names, WS, e4, d.r.r.r);
    FitsCat(names, Char(':'), e5, d.r.r.r.r);
    FitsCat(names, WS, e6, d.r.r.r.r.r);
    FitsCat(names, e, AFTER_NAME, d.r.r.r.r.r.r);
  }

  lemma ToolSpelling(w1: Text, w2: Text, w3: Text, name: Text, w4: Text, w5: Text, w6: Text, w7: Text, args: Tree,
    w8: Text)
    requires IsPlain(name)
    ensures ['{' as int]
      + (w1 + (([QUOTE] + TOOL_WORD + [QUOTE]) + (w2 + ([':' as int] + (w3 + (([QUOTE] + name + [QUOTE])
      + (w4 + ([',' as int] + w5 + ([QUOTE] + ARGS_WORD + [QUOTE])
        + (w6 + [':' as int] + w7 + Yield(args) + w8 + ['}' as int])))))))))
      == Yield(ToolTree(w1, w2, w3, name, w4, w5, w6, w7, args, w8))
  {
    PlainWords();
    PlainSpelling(TOOL_WORD);
    PlainSpelling(ARGS_WORD);
    PlainSpelling(name);
    var key, value, key2 := [QUOTE] + TOOL_WORD + [QUOTE], [QUOTE] + name + [QUOTE], [QUOTE] + ARGS_WORD + [QUOTE];
    var second := Member(PlainPieces(ARGS_WORD), w6, w7, args, w8, [], NoMembers);
    var members := Member(PlainPieces(TOOL_WORD), w2, w3, StrTree(PlainPieces(name)), w4, w5, second);
    var s2 := key2 + w6 + [':' as int] + w7 + Yield(args) + w8 + [];
    assert YieldMembers(second) == s2;
    assert Yield(StrTree(PlainPieces(name))) == value;
    assert YieldMembers(members) == key + w2 + [':' as int] + w3 + value + w4 + ([',' as int] + w5 + s2);
    Regroup2(key2, w5, w6, w7, Yield(args), w8);
    Regroup3(w1, key, w2, w3, value, w4, [',' as int] + w5 + s2);
  }

  lemma Regroup2(key2: Text, w5: Text, w6: Text, w7: Text, a: Text, w8: Text)
    ensures [',' as int] + w5 + key2 + (w6 + [':' as int] + w7 + a + w8 + ['}' as int])
         == ([',' as int] + w5 + (key2 + w6 + [':' as int] + w7 + a + w8 + [])) + ['}' as int]
  {
    var x := w6 + [':' as int] + w7 + a + w8;
    assert key2 + w6 + [':' as int] + w7 + a + w8 + [] == key2 + x;
  }

  lemma Regroup3(w1: Text, key: Text, w2: Text, w3: Text, value: Text, w4: Text, x: Text)
    ensures ['{' as int] + (w1 + (key + (w2 + ([':' as int] + (w3 + (value + (w4 + (x + ['}' as int]))))))))
         == ['{' as int] + w1 + (key + w2 + [':' as int] + w3 + value + w4 + x) + ['}' as int]
  {
    var y := key + w2 + [':' as int] + w3;
    assert key + (w2 + ([':' as int] + (w3 + (value + (w4 + (x + ['}' as int])))))) == y + (value
      + (w4 + (x + ['}' as int])));
    assert y + (value + (w4 + (x + ['}' as int]))) == (y + value + w4 + x) + ['}' as int];
  }

  // --- what the parse makes of them ------------------------------------------------------

  lemma StripBraces(s: Text)
    requires |s| >= 2 && s[0] == '{' as int && s[|s| - 1] == '}' as int
    ensures Clean(s) == s
  {
    assert LStrip(s) == s;
    assert RStrip(s) == s;
    assert FENCE[0] == '`' as int;
  }

  lemma ObjectLoads(t: Tree)
    requires t.ObjectTree? && Good(t)
    ensures Loads(Clean(Yield(t))) == Some(Meaning(t))
  {
    var s := Yield(t);
    StripBraces(s);
    LoadsWhatIsWritten([], t, []);
    assert [] + s + [] == s;
  }

  lemma WordsDiffer()
    ensures FINAL_WORD != TOOL_WORD && ARGS_WORD != TOOL_WORD && ARGS_WORD != FINAL_WORD
  {
    assert |FINAL_WORD| == 5 && TOOL_WORD[0] == 't' as int && ARGS_WORD[0] == 'a' as int;
  }

  lemma FinalMeaning(w1: Text, w2: Text, w3: Text, ps: seq<Piece>, w4: Text)
    requires GoodPieces(ps) && Good(FinalTree(w1, w2, w3, ps, w4))
    ensures Meaning(FinalTree(w1, w2, w3, ps, w4)) == Object([(FINAL_WORD, Str(PiecesMeaning(ps)))])
  {
    PlainWords();
    PlainSpelling(FINAL_WORD);
    var m := FinalTree(w1, w2, w3, ps, w4).members;
    assert MembersMeaning(m) == [(PiecesMeaning(m.key), Meaning(m.value))] + MembersMeaning(NoMembers);
  }

  lemma FinalParses(py: Python, w1: Text, w2: Text, w3: Text, ps: seq<Piece>, w4: Text)
    requires GoodPieces(ps) && Good(FinalTree(w1, w2, w3, ps, w4))
    ensures var raw := Yield(FinalTree(w1, w2, w3, ps, w4)); Parse(py, raw) == Answer(PiecesMeaning(ps), raw)
  {
    ObjectLoads(FinalTree(w1, w2, w3, ps, w4));
    FinalMeaning(w1, w2, w3, ps, w4);
    WordsDiffer();
    OneMember(FINAL_WORD, Str(PiecesMeaning(ps)), TOOL_WORD);
  }

  lemma OneMember(k: Text, v: Value, other: Text)
    requires k != other
    ensures Get([(k, v)], k) == Some(v) && Get([(k, v)], other) == None
  {
    assert [(k, v)][1..] == [];
  }

  lemma ToolMeaning(w1: Text, w2: Text, w3: Text, name: Text, w4: Text, w5: Text, w6: Text, w7: Text, args: Tree,
    w8: Text)
    requires IsPlain(name) && Good(ToolTree(w1, w2, w3, name, w4, w5, w6, w7, args, w8))
    ensures Good(args)
    ensures Meaning(ToolTree(w1, w2, w3, name, w4, w5, w6, w7, args, w8))
         == Object([(TOOL_WORD, Str(name)), (ARGS_WORD, Meaning(args))])
  {
    PlainWords();
    PlainSpelling(TOOL_WORD);
    PlainSpelling(ARGS_WORD);
    PlainSpelling(name);
    var m := ToolTree(w1, w2, w3, name, w4, w5, w6, w7, args, w8).members;
    assert GoodMembers(m) && GoodMembers(m.rest) && Good(m.rest.value);
    assert m.rest.value == args;
    assert MembersMeaning(m.rest) == [(ARGS_WORD, Meaning(args))] + MembersMeaning(NoMembers);
    assert MembersMeaning(m) == [(TOOL_WORD, Str(name))] + MembersMeaning(m.rest);
  }

  /** A tool shape is a call of that tool with those arguments, unless the name
      is some spelling of "final", in which case it is an answer. */
  lemma ToolParses(py: Python, w1: Text, w2: Text, w3: Text, name: Text, w4: Text, w5: Text, w6: Text, w7: Text,
    args: Tree, w8: Text)
    requires IsPlain(name) && args.ObjectTree? && Good(ToolTree(w1, w2, w3, name, w4, w5, w6, w7, args, w8))
    ensures Good(args)
    ensures var raw := Yield(ToolTree(w1, w2, w3, name, w4, w5, w6, w7, args, w8));
      Parse(py, raw) ==
        if LowersToFinal(name) then Answer(FinalText(py, Some(Meaning(args))), raw)
        else Parsed(Response([], raw, [ParsedToolCall(name, Meaning(args).members)], false, false, false))
  {
    hide Get, Yield, LowersToFinal;
    var t := ToolTree(w1, w2, w3, name, w4, w5, w6, w7, args, w8);
    ObjectLoads(t);
    ToolMeaning(w1, w2, w3, name, w4, w5, w6, w7, args, w8);
    WordsDiffer();
    var members := [(TOOL_WORD, Str(name)), (ARGS_WORD, Meaning(args))];
    TwoMembers(TOOL_WORD, Str(name), ARGS_WORD, Meaning(args));
    assert Get(members, TOOL_WORD) == Some(Str(name));
    assert Get(members, ARGS_WORD) == Some(Meaning(args));
  }

  lemma TwoMembers(k1: Text, v1: Value, k2: Text, v2: Value)
    requires k1 != k2
    ensures Get([(k1, v1), (k2, v2)], k1) == Some(v1) && Get([(k1, v1), (k2, v2)], k2) == Some(v2)
  {
    var members := [(k1, v1), (k2, v2)];
    assert members[1..] == [(k2, v2)];
    assert members[1..][1..] == [];
    assert Get(members[1..], k2) == Some(v2) && Get(members[1..], k1) == None;
  }

  // --- what the decoder makes of them ------------------------------------------------------

  lemma Chain(lenient: Lenient, mode: Mode, a: Text, b: Text, m: Mode)
    requires Run(lenient, mode, a) == (m, [])
    ensures Run(lenient, mode, a + b) == Run(lenient, m, b)
  {
    RunAppend(lenient, mode, a, b);
    assert [] + Run(lenient, m, b).1 == Run(lenient, m, b).1;
  }

  lemma {:induction false} RunBlank(lenient: Lenient, want: nat, w: Text)
    requires AllWs(w)
    ensures Run(lenient, Opening(want), w) == (Opening(want), [])
    decreases |w|
  {
    if w != [] { RunBlank(lenient, want, w[1..]); }
  }

  /** A stretch of the opening itself moves the decoder that far along it. */
  lemma {:induction false} RunStretch(lenient: Lenient, from: nat, upTo: nat)
    requires from <= upTo < |OPENING|
    ensures Run(lenient, Opening(from), OPENING[from..upTo]) == (Opening(upTo), [])
    decreases upTo - from
  {
    if from < upTo {
      var s := OPENING[from..upTo];
      assert s[0] == OPENING[from] && s[1..] == OPENING[from + 1..upTo];
      assert !IsSpace(OPENING[from]) by { OpeningLetters(from); }
      RunStretch(lenient, from + 1, upTo);
    }
  }

  lemma OpeningLetters(i: nat)
    requires i < |OPENING|
    ensures !IsSpace(OPENING[i])
    ensures |OPENING| == 10
      && OPENING[0] == '{' as int && OPENING[1] == QUOTE && OPENING[8] == ':' as int && OPENING[9] == QUOTE
    ensures OPENING[1..8] == [QUOTE] + FINAL_WORD + [QUOTE]
  {
    assert OPENING == Lit("{\"final\":\"");
  }

  lemma RunOpening(lenient: Lenient, w1: Text, w2: Text, w3: Text, s: Text)
    requires AllWs(w1) && AllWs(w2) && AllWs(w3)
    ensures Run(lenient, Opening(0),
      ['{' as int] + (w1 + (([QUOTE] + FINAL_WORD + [QUOTE]) + (w2 + ([':' as int] + (w3 + ([QUOTE] + s)))))))
         == Run(lenient, Body, s)
  {
    OpeningLetters(0);
    OpeningLetters(8);
    OpeningLetters(9);
    var key := [QUOTE] + FINAL_WORD + [QUOTE];
    var s6 := [QUOTE] + s;
    assert Run(lenient, Opening(9), s6) == Run(lenient, Body, s) by {
      assert s6[1..] == s;
      assert [] + Run(lenient, Body, s).1 == Run(lenient, Body, s).1;
    }
    RunBlank(lenient, 9, w3);
    Chain(lenient, Opening(9), w3, s6, Opening(9));
    assert OPENING[8..9] == [':' as int];
    RunStretch(lenient, 8, 9);
    Chain(lenient, Opening(8), [':' as int], w3 + s6, Opening(9));
    RunBlank(lenient, 8, w2);
    Chain(lenient, Opening(8), w2, [':' as int] + (w3 + s6), Opening(8));
    RunStretch(lenient, 1, 8);
    Chain(lenient, Opening(1), key, w2 + ([':' as int] + (w3 + s6)), Opening(8));
    RunBlank(lenient, 1, w1);
    Chain(lenient, Opening(1), w1, key + (w2 + ([':' as int] + (w3 + s6))), Opening(1));
    assert OPENING[0..1] == ['{' as int];
    RunStretch(lenient, 0, 1);
    Chain(lenient, Opening(0), ['{' as int], w1 + (key + (w2 + ([':' as int] + (w3 + s6)))), Opening(1));
  }

  /** Each piece decoded by itself, which is all the decoder can do. */
  function Alone(ps: seq<Piece>): (t: Text)
    requires GoodPieces(ps)
    ensures |t| == |ps|
  {
    if ps == [] then [] else [Lone(ps[0])] + Alone(ps[1..])
  }

  lemma RunPiece(lenient: Lenient, p: Piece)
    requires GoodPiece(p)
    ensures Run(lenient, Body, YieldPiece(p)) == (Body, [Lone(p)])
  {
    match p {
      case Plain(c) => RunOne(lenient, Body, c);
      case Short(letter) =>
        assert YieldPiece(p) == [BACKSLASH] + [letter];
        RunOne(lenient, Body, BACKSLASH);
        Chain(lenient, Body, [BACKSLASH], [letter], Escape);
        RunOne(lenient, Escape, letter);
      case Unit(hex) => RunUnit(lenient, hex);
    }
  }

  lemma RunOne(lenient: Lenient, mode: Mode, c: Code)
    ensures Run(lenient, mode, [c]) == Step(lenient, mode, c)
  {
    assert [c][1..] == [];
    assert Step(lenient, mode, c).1 + [] == Step(lenient, mode, c).1;
  }

  lemma RunUnit(lenient: Lenient, hex: Text)
    requires IsHex4(hex)
    ensures Run(lenient, Body, YieldPiece(Unit(hex))) == (Body, [Hex4(hex)])
  {
    hide Run, Hex4, IsHex4;
    RunDigits(lenient, hex);
    assert YieldPiece(Unit(hex)) == [BACKSLASH] + (['u' as int] + hex);
    RunOne(lenient, Body, BACKSLASH);
    Chain(lenient, Body, [BACKSLASH], ['u' as int] + hex, Escape);
    RunOne(lenient, Escape, 'u' as int);
    Chain(lenient, Escape, ['u' as int], hex, Hex([]));
  }

  lemma RunDigits(lenient: Lenient, hex: Text)
    requires IsHex4(hex)
    ensures Run(lenient, Hex([]), hex) == (Body, [Hex4(hex)])
  {
    hide Run, Hex4;
    var one, two, three := hex[..1], hex[..2], hex[..3];
    DigitStep(lenient, hex, 0);
    DigitStep(lenient, hex, 1);
    DigitStep(lenient, hex, 2);
    RunOne(lenient, Hex(three), hex[3]);
    assert hex[0..] == hex && hex[..0] == [] && hex[3..] == [hex[3]] && three + [hex[3]] == hex;
  }

  /** One digit that is not the last. */
  lemma DigitStep(lenient: Lenient, hex: Text, i: nat)
    requires |hex| == 4 && i < 3
    ensures Run(lenient, Hex(hex[..i]), hex[i..]) == Run(lenient, Hex(hex[..i + 1]), hex[i + 1..])
  {
    hide Run;
    RunOne(lenient, Hex(hex[..i]), hex[i]);
    assert hex[..i] + [hex[i]] == hex[..i + 1] && hex[i..] == [hex[i]] + hex[i + 1..];
    Chain(lenient, Hex(hex[..i]), [hex[i]], hex[i + 1..], Hex(hex[..i + 1]));
  }

  lemma {:induction false} RunAlone(lenient: Lenient, ps: seq<Piece>)
    requires GoodPieces(ps)
    ensures Run(lenient, Body, YieldPieces(ps)) == (Body, Alone(ps))
    decreases |ps|
  {
    if ps != [] {
      RunPiece(lenient, ps[0]);
      RunAppend(lenient, Body, YieldPiece(ps[0]), YieldPieces(ps[1..]));
      RunAlone(lenient, ps[1..]);
    }
  }

  lemma FinalFlat(w1: Text, w2: Text, w3: Text, ps: seq<Piece>, w4: Text)
    ensures Yield(FinalTree(w1, w2, w3, ps, w4))
      == ['{' as int]
        + (w1 + (([QUOTE] + FINAL_WORD + [QUOTE])
        + (w2 + ([':' as int] + (w3 + ([QUOTE] + (YieldPieces(ps) + ([QUOTE] + w4 + ['}' as int]))))))))
  {
    FinalSpelling(w1, w2, w3, ps, [], w4);
    assert [] + w4 == w4;
    QuotedTail(YieldPieces(ps), w4);
  }

  lemma QuotedTail(y: Text, w4: Text)
    ensures (([QUOTE] + y + [QUOTE]) + []) + (w4 + ['}' as int]) == [QUOTE] + (y + ([QUOTE] + w4 + ['}' as int]))
  {
  }

  /** On a final text the decoder shows every piece decoded by itself. */
  lemma ShowsAnswer(lenient: Lenient, w1: Text, w2: Text, w3: Text, ps: seq<Piece>, w4: Text)
    requires AllWs(w1) && AllWs(w2) && AllWs(w3) && GoodPieces(ps)
    ensures Shown(lenient, Yield(FinalTree(w1, w2, w3, ps, w4))) == Alone(ps)
  {
    FinalFlat(w1, w2, w3, ps, w4);
    var close := [QUOTE] + w4 + ['}' as int];
    RunOpening(lenient, w1, w2, w3, YieldPieces(ps) + close);
    RunAlone(lenient, ps);
    RunAppend(lenient, Body, YieldPieces(ps), close);
    RunClosed(lenient, true, close[1..]);
    assert Run(lenient, Body, close).1 == [];
    assert Alone(ps) + [] == Alone(ps);
  }

  /** On a tool text it shows nothing: the first letter of the key settles it. */
  lemma ShowsNothing(lenient: Lenient, w1: Text, s: Text)
    requires AllWs(w1)
    ensures Shown(lenient, ['{' as int] + (w1 + (([QUOTE] + TOOL_WORD + [QUOTE]) + s))) == []
  {
    OpeningLetters(0);
    OpeningLetters(2);
    var key := [QUOTE] + TOOL_WORD + [QUOTE];
    assert OPENING[0..1] == ['{' as int] && OPENING[1..2] == [QUOTE];
    RunStretch(lenient, 0, 1);
    Chain(lenient, Opening(0), ['{' as int], w1 + (key + s), Opening(1));
    RunBlank(lenient, 1, w1);
    Chain(lenient, Opening(1), w1, key + s, Opening(1));
    RunStretch(lenient, 1, 2);
    var rest := TOOL_WORD + [QUOTE] + s;
    assert key + s == [QUOTE] + rest;
    Chain(lenient, Opening(1), [QUOTE], rest, Opening(2));
    assert OPENING[2] == FINAL_WORD[0] by { assert OPENING[1..8][1] == OPENING[2]; }
    assert rest[0] == TOOL_WORD[0] == 't' as int && OPENING[2] == 'f' as int;
    RunClosed(lenient, false, rest[1..]);
    assert Run(lenient, Opening(2), rest).1 == [];
  }

  // --- when the two agree ----------------------------------------------------------------

  function Pairs(ps: seq<Piece>): nat {
    if ps == [] then 0
    else if PairAt(ps, 0) then 1 + Pairs(ps[2..])
    else Pairs(ps[1..])
  }

  lemma {:induction false} PairsLengthen(ps: seq<Piece>)
    requires GoodPieces(ps)
    ensures |Alone(ps)| == |PiecesMeaning(ps)| + Pairs(ps)
    ensures Pairs(ps) == 0 ==> Alone(ps) == PiecesMeaning(ps)
    decreases |ps|
  {
    if ps != [] {
      if PairAt(ps, 0) { PairsLengthen(ps[2..]); } else { PairsLengthen(ps[1..]); }
    }
  }

  /** A left-to-right look for a high surrogate escape directly followed by a low
      one, in the raw text and honouring escaped backslashes. */
  predicate HasPair(s: Text)
    decreases |s|
  {
    if |s| < 2 then false
    else if s[0] != BACKSLASH then HasPair(s[1..])
    else match ReadUnit(s)
      case None => HasPair(s[2..])
      case Some((u, rest)) =>
        || (IsHigh(u) && ReadUnit(rest).Some? && IsLow(ReadUnit(rest).value.0))
        || HasPair(rest)
  }

  lemma {:induction false} NoEscapeNoPair(a: Text, s: Text)
    requires forall i :: 0 <= i < |a| ==> a[i] != BACKSLASH
    ensures HasPair(a + s) == HasPair(s)
    decreases |a|
  {
    if a == [] {
      assert a + s == s;
    } else {
      assert (a + s)[0] == a[0] && (a + s)[1..] == a[1..] + s;
      NoEscapeNoPair(a[1..], s);
      if |a + s| < 2 { assert s == []; }
    }
  }

  lemma {:induction false} PairScan(ps: seq<Piece>, rest: Text)
    requires GoodPieces(ps)
    requires rest != [] && rest[0] == QUOTE && forall i :: 0 <= i < |rest| ==> rest[i] != BACKSLASH
    ensures HasPair(YieldPieces(ps) + rest) <==> Pairs(ps) > 0
    decreases |ps|
  {
    if ps == [] {
      NoEscapeNoPair(rest, []);
      assert rest + [] == rest && YieldPieces(ps) + rest == rest;
    } else {
      PairScan(ps[1..], rest);
      var tail := YieldPieces(ps[1..]) + rest;
      assert YieldPieces(ps) + rest == YieldPiece(ps[0]) + tail;
      TailUnit(ps, rest);
      PairScanPiece(ps[0], tail);
      if PairAt(ps, 0) {
        PairsSkip(ps);
      }
    }
  }

  lemma PairsSkip(ps: seq<Piece>)
    requires PairAt(ps, 0)
    ensures Pairs(ps) > 0
  {
  }

  /** The next unit of the text is the next piece, if that is a unit. */
  lemma TailUnit(ps: seq<Piece>, rest: Text)
    requires GoodPieces(ps) && ps != []
    requires rest != [] && rest[0] == QUOTE
    ensures var tail := YieldPieces(ps[1..]) + rest;
      ReadUnit(tail).Some? <==> |ps| > 1 && ps[1].Unit?
    ensures |ps| > 1 && ps[1].Unit? ==> ReadUnit(YieldPieces(ps[1..]) + rest).value.0 == Hex4(ps[1].hex)
  {
    var tail := YieldPieces(ps[1..]) + rest;
    if |ps| == 1 {
      assert tail == rest;
    } else {
      var tail2 := YieldPieces(ps[1..][1..]) + rest;
      assert tail == YieldPiece(ps[1]) + tail2;
      if ps[1].Unit? { ReadUnitYield(ps[1].hex, tail2); } else { ReadUnitOther(ps[1], tail2); }
    }
  }

  lemma PairScanPiece(p: Piece, tail: Text)
    requires GoodPiece(p) && tail != []
    ensures HasPair(YieldPiece(p) + tail) <==>
      || (p.Unit? && IsHigh(Hex4(p.hex)) && ReadUnit(tail).Some? && IsLow(ReadUnit(tail).value.0))
      || HasPair(tail)
  {
    var s := YieldPiece(p) + tail;
    match p {
      case Plain(c) => assert s[0] == c && s[1..] == tail;
      case Short(letter) =>
        ReadUnitOther(p, tail);
        assert s[0] == BACKSLASH && s[2..] == tail;
      case Unit(hex) =>
        ReadUnitYield(hex, tail);
        assert s[0] == BACKSLASH;
    }
  }

  lemma FinalHasPair(w1: Text, w2: Text, w3: Text, ps: seq<Piece>, w4: Text)
    requires AllWs(w1) && AllWs(w2) && AllWs(w3) && AllWs(w4) && GoodPieces(ps)
    ensures HasPair(Yield(FinalTree(w1, w2, w3, ps, w4))) <==> Pairs(ps) > 0
  {
    FinalFlat(w1, w2, w3, ps, w4);
    PlainWords();
    var close := [QUOTE] + w4 + ['}' as int];
    var body := YieldPieces(ps) + close;
    var front := ['{' as int] + w1 + ([QUOTE] + FINAL_WORD + [QUOTE]) + w2 + [':' as int] + w3 + [QUOTE];
    FrontOf(w1, [QUOTE] + FINAL_WORD + [QUOTE], w2, w3, body);
    forall i | 0 <= i < |close| ensures close[i] != BACKSLASH { }
    NoEscapeNoPair(front, body);
    PairScan(ps, close);
  }

  lemma FrontOf(w1: Text, key: Text, w2: Text, w3: Text, body: Text)
    ensures ['{' as int] + (w1 + (key + (w2 + ([':' as int] + (w3 + ([QUOTE] + body))))))
         == (['{' as int] + w1 + key + w2 + [':' as int] + w3 + [QUOTE]) + body
  {
    assert w2 + ([':' as int] + (w3 + ([QUOTE] + body))) == (w2 + [':' as int] + w3 + [QUOTE]) + body;
    assert ['{' as int] + (w1 + (key + ((w2 + [':' as int] + w3 + [QUOTE]) + body)))
        == (['{' as int] + w1 + key + w2 + [':' as int] + w3 + [QUOTE]) + body;
  }

  // --- the main results ------------------------------------------------------------------

  /** `raw` can be uttered as an answer, under any registry of tools. */
  ghost predicate IsFinalText(names: seq<Text>, raw: Text) {
    exists d :: Fits(names, FINAL_BODY, d) && Spell(d) == raw
  }

  /** On every answer the grammar allows, the text shown live equals the parsed
      answer if and only if the raw text has no surrogate pair escape. */
  lemma DecoderAgrees(py: Python, lenient: Lenient, names: seq<Text>, raw: Text)
    requires IsFinalText(names, raw)
    ensures Parse(py, raw).Parsed? && Parse(py, raw).response.isFinal && !Parse(py, raw).response.malformed
    ensures Shown(lenient, raw) == Parse(py, raw).response.text <==> !HasPair(raw)
    ensures Shown(lenient, raw) == [] <==> Parse(py, raw).response.text == []
  {
    var d :| Fits(names, FINAL_BODY, d) && Spell(d) == raw;
    var t, w1, w2, w3, ps, w4 := FinalOf(names, d);
    FinalParses(py, w1, w2, w3, ps, w4);
    ShowsAnswer(lenient, w1, w2, w3, ps, w4);
    PairsLengthen(ps);
    FinalHasPair(w1, w2, w3, ps, w4);
    assert ps == [] <==> PiecesMeaning(ps) == [];
  }

  lemma {:induction false} PairsShowHalves(ps: seq<Piece>)
    requires GoodPieces(ps) && Pairs(ps) > 0
    ensures exists i :: 0 <= i < |Alone(ps)| && IsHigh(Alone(ps)[i])
    decreases |ps|
  {
    if PairAt(ps, 0) {
      assert Alone(ps)[0] == Lone(ps[0]);
    } else {
      PairsShowHalves(ps[1..]);
      var i :| 0 <= i < |Alone(ps[1..])| && IsHigh(Alone(ps[1..])[i]);
      assert Alone(ps)[i + 1] == Alone(ps[1..])[i];
    }
  }

  /** Where they differ, what was shown live holds a lone surrogate. */
  lemma PairShowsHalf(lenient: Lenient, names: seq<Text>, raw: Text)
    requires IsFinalText(names, raw) && HasPair(raw)
    ensures exists i :: 0 <= i < |Shown(lenient, raw)| && IsHigh(Shown(lenient, raw)[i])
  {
    var d :| Fits(names, FINAL_BODY, d) && Spell(d) == raw;
    var t, w1, w2, w3, ps, w4 := FinalOf(names, d);
    ShowsAnswer(lenient, w1, w2, w3, ps, w4);
    FinalHasPair(w1, w2, w3, ps, w4);
    PairsShowHalves(ps);
  }

  /** So `generate` marks such an answer as streamed exactly when something was
      said and no pair was escaped. */
  lemma StreamedExactly(py: Python, lenient: Lenient, names: seq<Text>, raw: Text)
    requires IsFinalText(names, raw)
    ensures Parse(py, raw).Parsed?
    ensures var r := Parse(py, raw).response;
      WithStreamed(r, Shown(lenient, raw)).streamed <==> r.text != [] && !HasPair(raw)
  {
    DecoderAgrees(py, lenient, names, raw);
  }

  const HIGH_HALF: Piece := Unit(Lit("d83d"))
  const LOW_HALF: Piece := Unit(Lit("de00"))

  /** The pair is a real one: here the decoder shows two lone surrogates and the
      parse returns one character. */
  lemma PairCounterexample(py: Python, lenient: Lenient)
    ensures var raw := OPENING + (Lit("\\ud83d") + Lit("\\ude00") + Lit("\"}"));
      && Shown(lenient, raw) == [0xD83D, 0xDE00]
      && Parse(py, raw) == Answer([0x1F600], raw)
  {
    var ps := [HIGH_HALF, LOW_HALF];
    PairText();
    HalvesMeaning();
    PlainWords();
    PlainSpelling(FINAL_WORD);
    FinalParses(py, [], [], [], ps, []);
    ShowsAnswer(lenient, [], [], [], ps, []);
  }

  lemma PairText()
    ensures OPENING + (Lit("\\ud83d") + Lit("\\ude00") + Lit("\"}")) ==
      Yield(FinalTree([], [], [], [HIGH_HALF, LOW_HALF], []))
  {
    FinalFlat([], [], [], [HIGH_HALF, LOW_HALF], []);
    TwoPieces(HIGH_HALF, LOW_HALF);
    assert YieldPiece(HIGH_HALF) == Lit("\\ud83d") && YieldPiece(LOW_HALF) == Lit("\\ude00");
    assert [QUOTE] + [] + ['}' as int] == Lit("\"}");
    FrontOf([], [QUOTE] + FINAL_WORD + [QUOTE], [], [], Lit("\\ud83d") + Lit("\\ude00") + Lit("\"}"));
    WholeOpening();
  }

  lemma WholeOpening()
    ensures OPENING == ['{' as int] + [] + ([QUOTE] + FINAL_WORD + [QUOTE]) + [] + [':' as int] + [] + [QUOTE]
  {
    OpeningLetters(0);
    assert OPENING == [OPENING[0]] + OPENING[1..8] + [OPENING[8]] + [OPENING[9]];
  }

  lemma HalvesMeaning()
    ensures GoodPieces([HIGH_HALF, LOW_HALF])
    ensures Alone([HIGH_HALF, LOW_HALF]) == [0xD83D, 0xDE00]
    ensures PiecesMeaning([HIGH_HALF, LOW_HALF]) == [0x1F600]
  {
    var ps := [HIGH_HALF, LOW_HALF];
    assert ps[1..] == [LOW_HALF] && [LOW_HALF][1..] == [] && ps[2..] == [];
    assert Alone(ps) == [Lone(HIGH_HALF)] + ([Lone(LOW_HALF)] + []);
    assert PiecesMeaning(ps) == [Join(Hex4(HIGH_HALF.hex), Hex4(LOW_HALF.hex))] + [];
  }

  lemma TwoPieces(p: Piece, q: Piece)
    ensures YieldPieces([p, q]) == YieldPiece(p) + YieldPiece(q)
  {
    assert [p, q][1..] == [q] && [q][1..] == [];
    assert YieldPieces([q]) == YieldPiece(q) + [];
  }

  lemma {:induction false} NameIn(names: seq<Text>, some: seq<Text>, d: Derivation) returns (name: Text)
    requires some != [] && Fits(names, NameAlternatives(some), d)
    ensures name in some && Spell(d) == [QUOTE] + name + [QUOTE]
    decreases |some|
  {
    if |some| == 1 {
      name := some[0];
    } else {
      FitsAlt(names, QuotedWord(some[0]), NameAlternatives(some[1..]), d);
      if d.Left? { name := some[0]; } else { name := NameIn(names, some[1..], d.d); }
    }
  }

  /** What the loop may rely on when the sampler obeyed build_grammar(names). */
  predicate Honored(names: seq<Text>, p: Parsed) {
    && p.Parsed? && !p.response.malformed
    && (p.response.isFinal ==> p.response.toolCalls == [])
    && (!p.response.isFinal ==> |p.response.toolCalls| == 1 && p.response.toolCalls[0].name in names
                                && !LowersToFinal(p.response.toolCalls[0].name))
  }

  lemma ToolHonored(py: Python, lenient: Lenient, names: seq<Text>, e: Expr, d: Derivation, name: Text)
    requires Fits(names, ToolBody(e), d)
    requires Spell(NamePart(names, e, d)) == [QUOTE] + name + [QUOTE] && IsPlain(name)
    requires name in names || LowersToFinal(name)
    ensures Honored(names, Parse(py, Spell(d)))
    ensures !Parse(py, Spell(d)).response.isFinal <==> !LowersToFinal(name)
    ensures Shown(lenient, Spell(d)) == []
  {
    ToolShowsNothing(lenient, names, e, d);
    var t, w1, w2, w3, w4, w5, w6, w7, args, w8 := ToolOf(names, e, d, name);
    ToolParses(py, w1, w2, w3, name, w4, w5, w6, w7, args, w8);
  }

  lemma ToolShowsNothing(lenient: Lenient, names: seq<Text>, e: Expr, d: Derivation)
    requires Fits(names, ToolBody(e), d)
    ensures Shown(lenient, Spell(d)) == []
  {
    FrontFits(names, e, d);
    FitsChar(names, '{', d.l);
    WsIsBlank(names, d.r.l);
    FitsWord(names, [QUOTE] + TOOL_WORD + [QUOTE], d.r.r.l);
    assert Spell(d) == Spell(d.l) + Spell(d.r) && Spell(d.r) == Spell(d.r.l) + Spell(d.r.r);
    assert Spell(d.r.r) == Spell(d.r.r.l) + Spell(d.r.r.r);
    ShowsNothing(lenient, Spell(d.r.l), Spell(d.r.r.r));
  }

  /** Every text build_grammar(names) derives parses, and as an answer or as
      exactly one call of a registered tool; with no tools, only as an answer.
      Only the answer shape shows anything before it is parsed. */
  lemma GrammarHonored(py: Python, lenient: Lenient, names: seq<Text>, raw: Text)
    requires forall n :: n in names ==> IsPlain(n)
    requires Utterable(names, RootRule, raw)
    ensures Honored(names, Parse(py, raw))
    ensures names == [] ==> Parse(py, raw).response.isFinal
    ensures !IsFinalText(names, raw) ==> Shown(lenient, raw) == []
  {
    hide Fits, Parse, Shown;
    var d :| Fits(names, Ref(RootRule), d) && Spell(d) == raw;
    FitsRef(names, RootRule, d);
    if names == [] {
      DecoderAgrees(py, lenient, names, raw);
      FinalCalls(py, names, d.d);
    } else {
      var e := d.d;
      FitsAlt(names, Ref(ToolCallRule), Alt(Ref(FinalRule), Ref(FinalToolRule)), e);
      if e.Left? {
        FitsRef(names, ToolCallRule, e.d);
        var body := e.d.d;
        var n := NamePart(names, Ref(ToolNameRule), body);
        FitsRef(names, ToolNameRule, n);
        var name := NameIn(names, names, n.d);
        ToolHonored(py, lenient, names, Ref(ToolNameRule), body, name);
      } else {
        FitsAlt(names, Ref(FinalRule), Ref(FinalToolRule), e.d);
        if e.d.Left? {
          FitsRef(names, FinalRule, e.d.d);
          FinalCalls(py, names, e.d.d.d);
        } else {
          FitsRef(names, FinalToolRule, e.d.d);
          PlainWords();
          assert LowersToFinal(FINAL_WORD);
          var name := QuotedWord(FINAL_WORD);
          FitsWord(names, [QUOTE] + FINAL_WORD + [QUOTE], NamePart(names, name, e.d.d.d));
          ToolHonored(py, lenient, names, name, e.d.d.d, FINAL_WORD);
        }
      }
    }
  }

  lemma FinalCalls(py: Python, names: seq<Text>, d: Derivation)
    requires Fits(names, FINAL_BODY, d)
    ensures IsFinalText(names, Spell(d))
    ensures Honored(names, Parse(py, Spell(d))) && Parse(py, Spell(d)).response.isFinal
  {
    var t, w1, w2, w3, ps, w4 := FinalOf(names, d);
    FinalParses(py, w1, w2, w3, ps, w4);
  }
}
