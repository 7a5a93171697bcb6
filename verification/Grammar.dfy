/** build_grammar (backend/agent/grammar.py) as data, and derivation from it.

    A GBNF grammar is a body for each rule name. `Derives` is the usual relation,
    counted by the depth of rule references so that it is well founded; the
    inversion lemmas turn a derivation into a JSON tree that spells the same
    text. Nothing about parsing is assumed here. */
module Grammar {
  import opened Codes
  import opened Json

  datatype Rule =
    | RootRule | ToolCallRule | FinalRule | FinalToolRule | ToolNameRule
    | ValueRule | ObjectRule | ArrayRule | StringRule | NumberRule | WsRule

  datatype CharClass =
    | StringChar | EscapeLetter | HexClass | DigitClass | NonZeroClass | ExpClass | SignClass | BlankClass

  datatype Expr =
    | Nothing
    | Word(t: Text)
    | One(chars: CharClass)
    | Cat(left: Expr, right: Expr)
    | Alt(left: Expr, right: Expr)
    | Repeat(body: Expr, least: nat, most: Option<nat>)
    | Ref(rule: Rule)

  predicate InClass(chars: CharClass, c: Code) {
    match chars
    case StringChar => c != QUOTE && c != BACKSLASH && c != 0x7F && c > 0x1F
    case EscapeLetter => c == QUOTE || c == BACKSLASH || c == 'b' as int || c == 'f' as int
                         || c == 'n' as int || c == 'r' as int || c == 't' as int
    case HexClass => IsHex(c)
    case DigitClass => IsDigit(c)
    case NonZeroClass => IsDigit(c) && c != '0' as int
    case ExpClass => IsExp(c)
    case SignClass => IsSign(c)
    case BlankClass => c == 0x20 || c == 0x09
  }

  // --- the rules -----------------------------------------------------------------

  function Char(c: char): Expr { Word([c as int]) }

  function Optional(e: Expr): Expr { Repeat(e, 0, Some(1)) }

  function Star(e: Expr): Expr { Repeat(e, 0, None) }

  function Plus(e: Expr): Expr { Repeat(e, 1, None) }

  const WS: Expr := Ref(WsRule)

  /** string ":" ws value */
  const PAIR: Expr := Cat(Ref(StringRule), Cat(Char(':'), Cat(WS, Ref(ValueRule))))

  const ESCAPED: Expr :=
    Cat(Word([BACKSLASH]), Alt(One(EscapeLetter), Cat(Char('u'), Repeat(One(HexClass), 4, Some(4)))))

  const INTEGER: Expr :=
    Alt(One(DigitClass), Cat(One(NonZeroClass), Repeat(One(DigitClass), 0, Some(15))))

  const FRACTION: Expr := Cat(Char('.'), Plus(One(DigitClass)))

  const EXPONENT: Expr :=
    Cat(One(ExpClass), Cat(Optional(One(SignClass)), Cat(One(DigitClass), Repeat(One(NonZeroClass), 0, Some(15)))))

  /** _JSON_RULES. */
  function JsonBody(rule: Rule): Expr
    requires rule in {ValueRule, ObjectRule, ArrayRule, StringRule, NumberRule, WsRule}
  {
    match rule
    case ValueRule =>
      Alt(Ref(ObjectRule), Alt(Ref(ArrayRule), Alt(Ref(StringRule), Alt(Ref(NumberRule),
        Cat(Alt(Word(TRUE_WORD), Alt(Word(FALSE_WORD), Word(NULL_WORD))), WS)))))
    case ObjectRule =>
      Cat(Char('{'), Cat(WS, Cat(Optional(Cat(PAIR, Star(Cat(Char(','), Cat(WS, PAIR))))), Cat(Char('}'), WS))))
    case ArrayRule =>
      Cat(Char('['),
        Cat(WS, Cat(Optional(Cat(Ref(ValueRule), Star(Cat(Char(','), Cat(WS, Ref(ValueRule)))))), Cat(Char(']'), WS))))
    case StringRule =>
      Cat(Word([QUOTE]), Cat(Star(Alt(One(StringChar), ESCAPED)), Cat(Word([QUOTE]), WS)))
    case NumberRule =>
      Cat(Cat(Optional(Char('-')), INTEGER), Cat(Optional(FRACTION), Cat(Optional(EXPONENT), WS)))
    case WsRule =>
      Alt(Nothing, Alt(Char(' '), Cat(Word([LF]), Repeat(One(BlankClass), 0, Some(20)))))
  }

  function QuotedWord(name: Text): Expr { Word([QUOTE] + name + [QUOTE]) }

  const FINAL_WORD: Text := Lit("final")
  const TOOL_WORD: Text := Lit("tool")
  const ARGS_WORD: Text := Lit("args")

  const FINAL_BODY: Expr :=
    Cat(Char('{'),
      Cat(WS, Cat(QuotedWord(FINAL_WORD), Cat(WS, Cat(Char(':'), Cat(WS, Cat(Ref(StringRule), Cat(WS, Char('}')))))))))

  /** The shared tail of both tool shapes, from the tool's name on. */
  function ToolBody(name: Expr): Expr {
    Cat(Char('{'), Cat(WS, Cat(QuotedWord(TOOL_WORD), Cat(WS, Cat(Char(':'), Cat(WS, Cat(name, Cat(WS, Cat(Char(','),
      Cat(WS, Cat(QuotedWord(ARGS_WORD),
        Cat(WS, Cat(Char(':'), Cat(WS, Cat(Ref(ObjectRule), Cat(WS, Char('}')))))))))))))))))
  }

  function NameAlternatives(names: seq<Text>): Expr
    requires names != []
  {
    if |names| == 1 then QuotedWord(names[0]) else Alt(QuotedWord(names[0]), NameAlternatives(names[1..]))
  }

  /** build_grammar(names): the body of each rule. With no names only `root` is
      defined beside the JSON rules, and the rest derive nothing that is used. */
  function BuildGrammar(names: seq<Text>, rule: Rule): Expr {
    if rule in {ValueRule, ObjectRule, ArrayRule, StringRule, NumberRule, WsRule} then JsonBody(rule)
    else if names == [] then FINAL_BODY
    else match rule
      case RootRule => Alt(Ref(ToolCallRule), Alt(Ref(FinalRule), Ref(FinalToolRule)))
      case FinalRule => FINAL_BODY
      case FinalToolRule => ToolBody(QuotedWord(FINAL_WORD))
      case ToolCallRule => ToolBody(Ref(ToolNameRule))
      case _ => NameAlternatives(names)
  }

  // --- derivation ----------------------------------------------------------------

  /** A derivation: which alternative was taken, how often a repetition went
      round, and the characters at the leaves. */
  datatype Derivation =
    | Leaf(t: Text)
    | Both(l: Derivation, r: Derivation)
    | Left(d: Derivation)
    | Right(d: Derivation)
    | Many(ds: seq<Derivation>)
    | Via(d: Derivation)

  /** The text a derivation spells. */
  function Spell(d: Derivation): Text
    decreases d, 0
  {
    match d
    case Leaf(t) => t
    case Both(l, r) => Spell(l) + Spell(r)
    case Left(e) => Spell(e)
    case Right(e) => Spell(e)
    case Many(ds) => SpellAll(ds)
    case Via(e) => Spell(e)
  }

  function SpellAll(ds: seq<Derivation>): Text
    decreases ds, 1
  {
    if ds == [] then [] else Spell(ds[0]) + SpellAll(ds[1..])
  }

  /** `d` is a derivation from `e` under build_grammar(names). */
  predicate Fits(names: seq<Text>, e: Expr, d: Derivation)
    decreases d
  {
    match e
    case Nothing => d == Leaf([])
    case Word(t) => d == Leaf(t)
    case One(chars) => d.Leaf? && |d.t| == 1 && InClass(chars, d.t[0])
    case Cat(l, r) => d.Both? && Fits(names, l, d.l) && Fits(names, r, d.r)
    case Alt(l, r) => (d.Left? && Fits(names, l, d.d)) || (d.Right? && Fits(names, r, d.d))
    case Repeat(b, least, most) =>
      && d.Many? && least <= |d.ds| && (most.Some? ==> |d.ds| <= most.value)
      && forall k :: 0 <= k < |d.ds| ==> Fits(names, b, d.ds[k])
    case Ref(rule) => d.Via? && Fits(names, BuildGrammar(names, rule), d.d)
  }

  /** `s` can be uttered as `rule` under build_grammar(names). */
  ghost predicate Utterable(names: seq<Text>, rule: Rule, s: Text) {
    exists d :: Fits(names, Ref(rule), d) && Spell(d) == s
  }

  // --- from a derivation to a tree -------------------------------------------------

  lemma FitsCat(names: seq<Text>, l: Expr, r: Expr, d: Derivation)
    requires Fits(names, Cat(l, r), d)
    ensures d.Both? && Fits(names, l, d.l) && Fits(names, r, d.r) && Spell(d) == Spell(d.l) + Spell(d.r)
  {
  }

  lemma FitsWord(names: seq<Text>, w: Text, d: Derivation)
    requires Fits(names, Word(w), d)
    ensures Spell(d) == w
  {
  }

  lemma FitsOne(names: seq<Text>, chars: CharClass, d: Derivation)
    requires Fits(names, One(chars), d)
    ensures d.Leaf? && |d.t| == 1 && InClass(chars, d.t[0]) && Spell(d) == d.t
  {
  }

  lemma FitsAlt(names: seq<Text>, l: Expr, r: Expr, d: Derivation)
    requires Fits(names, Alt(l, r), d)
    ensures (d.Left? && Fits(names, l, d.d) && Spell(d) == Spell(d.d))
      || (d.Right? && Fits(names, r, d.d) && Spell(d) == Spell(d.d))
  {
  }

  lemma FitsRef(names: seq<Text>, rule: Rule, d: Derivation)
    requires Fits(names, Ref(rule), d)
    ensures d.Via? && Fits(names, BuildGrammar(names, rule), d.d) && Spell(d) == Spell(d.d)
  {
  }

  lemma FitsOptional(names: seq<Text>, b: Expr, d: Derivation)
    requires Fits(names, Optional(b), d)
    ensures d.Many? && (d.ds == [] || (|d.ds| == 1 && Fits(names, b, d.ds[0])))
    ensures Spell(d) == if d.ds == [] then [] else Spell(d.ds[0])
  {
    if |d.ds| == 1 {
      assert d.ds[1..] == [];
      assert SpellAll(d.ds) == Spell(d.ds[0]) + [];
    }
  }

  lemma FitsRepeat(names: seq<Text>, b: Expr, least: nat, most: Option<nat>, d: Derivation)
    requires Fits(names, Repeat(b, least, most), d)
    ensures d.Many? && least <= |d.ds| && (most.Some? ==> |d.ds| <= most.value)
    ensures forall k :: 0 <= k < |d.ds| ==> Fits(names, b, d.ds[k])
    ensures Spell(d) == SpellAll(d.ds)
  {
  }

  /** A repetition of one-character classes is a text of that length in the class. */
  lemma {:induction false} ClassRun(names: seq<Text>, chars: CharClass, ds: seq<Derivation>)
    requires forall k :: 0 <= k < |ds| ==> Fits(names, One(chars), ds[k])
    ensures |SpellAll(ds)| == |ds|
    ensures forall k :: 0 <= k < |ds| ==> InClass(chars, SpellAll(ds)[k])
  {
    if ds != [] {
      assert Fits(names, One(chars), ds[0]);
      ClassRun(names, chars, ds[1..]);
      var s, tail := SpellAll(ds), SpellAll(ds[1..]);
      assert s == Spell(ds[0]) + tail;
      forall k | 0 <= k < |ds| ensures InClass(chars, s[k]) {
        if k > 0 { assert s[k] == tail[k - 1]; }
      }
    }
  }

  lemma RepeatClass(names: seq<Text>, chars: CharClass, least: nat, most: Option<nat>, d: Derivation)
    requires Fits(names, Repeat(One(chars), least, most), d)
    ensures least <= |Spell(d)| && (most.Some? ==> |Spell(d)| <= most.value)
    ensures forall k :: 0 <= k < |Spell(d)| ==> InClass(chars, Spell(d)[k])
  {
    FitsRepeat(names, One(chars), least, most, d);
    ClassRun(names, chars, d.ds);
  }

  lemma WsIsBlank(names: seq<Text>, d: Derivation)
    requires Fits(names, WS, d)
    ensures AllWs(Spell(d))
  {
    FitsRef(names, WsRule, d);
    var indent := Repeat(One(BlankClass), 0, Some(20));
    FitsAlt(names, Nothing, Alt(Char(' '), Cat(Word([LF]), indent)), d.d);
    if d.d.Right? {
      var e := d.d.d;
      FitsAlt(names, Char(' '), Cat(Word([LF]), indent), e);
      if e.Right? {
        FitsCat(names, Word([LF]), indent, e.d);
        RepeatClass(names, BlankClass, 0, Some(20), e.d.r);
      }
    }
  }

  /** One element of a string's body. */
  lemma PieceOf(names: seq<Text>, d: Derivation) returns (p: Piece)
    requires Fits(names, Alt(One(StringChar), ESCAPED), d)
    ensures GoodPiece(p) && Spell(d) == YieldPiece(p)
  {
    FitsAlt(names, One(StringChar), ESCAPED, d);
    if d.Left? {
      p := Plain(d.d.t[0]);
      assert d.d.t == [d.d.t[0]];
    } else {
      var unit := Cat(Char('u'), Repeat(One(HexClass), 4, Some(4)));
      FitsCat(names, Word([BACKSLASH]), Alt(One(EscapeLetter), unit), d.d);
      var e := d.d.r;
      FitsAlt(names, One(EscapeLetter), unit, e);
      if e.Left? {
        p := Short(e.d.t[0]);
        assert e.d.t == [e.d.t[0]];
      } else {
        FitsCat(names, Char('u'), Repeat(One(HexClass), 4, Some(4)), e.d);
        RepeatClass(names, HexClass, 4, Some(4), e.d.r);
        p := Unit(Spell(e.d.r));
      }
    }
  }

  lemma {:induction false} PiecesOf(names: seq<Text>, ds: seq<Derivation>) returns (ps: seq<Piece>)
    requires forall k :: 0 <= k < |ds| ==> Fits(names, Alt(One(StringChar), ESCAPED), ds[k])
    ensures GoodPieces(ps) && SpellAll(ds) == YieldPieces(ps)
  {
    if ds == [] {
      ps := [];
    } else {
      assert Fits(names, Alt(One(StringChar), ESCAPED), ds[0]);
      var p := PieceOf(names, ds[0]);
      var rest := PiecesOf(names, ds[1..]);
      ps := [p] + rest;
      assert ps[1..] == rest;
    }
  }

  lemma StringOf(names: seq<Text>, d: Derivation) returns (ps: seq<Piece>, w: Text)
    requires Fits(names, Ref(StringRule), d)
    ensures GoodPieces(ps) && AllWs(w) && Spell(d) == Quoted(ps) + w
  {
    hide Fits, Spell, SpellAll;
    FitsRef(names, StringRule, d);
    var piece := Alt(One(StringChar), ESCAPED);
    FitsCat(names, Word([QUOTE]), Cat(Star(piece), Cat(Word([QUOTE]), WS)), d.d);
    var e := d.d.r;
    FitsCat(names, Star(piece), Cat(Word([QUOTE]), WS), e);
    FitsCat(names, Word([QUOTE]), WS, e.r);
    FitsRepeat(names, piece, 0, None, e.l);
    ps := PiecesOf(names, e.l.ds);
    WsIsBlank(names, e.r.r);
    w := Spell(e.r.r);
    FitsWord(names, [QUOTE], d.d.l);
    FitsWord(names, [QUOTE], e.r.l);
    assert Spell(d) == [QUOTE] + (YieldPieces(ps) + ([QUOTE] + w));
    assert Quoted(ps) + w == [QUOTE] + (YieldPieces(ps) + ([QUOTE] + w));
  }

  lemma IntegerOf(names: seq<Text>, d: Derivation)
    requires Fits(names, INTEGER, d)
    ensures GoodDigits(Spell(d))
  {
    var long := Cat(One(NonZeroClass), Repeat(One(DigitClass), 0, Some(15)));
    FitsAlt(names, One(DigitClass), long, d);
    if d.Right? {
      FitsCat(names, One(NonZeroClass), Repeat(One(DigitClass), 0, Some(15)), d.d);
      RepeatClass(names, DigitClass, 0, Some(15), d.d.r);
      assert Spell(d) == [d.d.l.t[0]] + Spell(d.d.r);
    }
  }

  lemma FractionOf(names: seq<Text>, d: Derivation)
    requires Fits(names, FRACTION, d)
    ensures GoodFraction(Spell(d))
  {
    FitsCat(names, Char('.'), Plus(One(DigitClass)), d);
    RepeatClass(names, DigitClass, 1, None, d.r);
    assert Spell(d)[1..] == Spell(d.r);
  }

  lemma ExponentOf(names: seq<Text>, d: Derivation)
    requires Fits(names, EXPONENT, d)
    ensures GoodExponent(Spell(d))
  {
    hide Fits, Spell, SpellAll;
    var digits := Cat(One(DigitClass), Repeat(One(NonZeroClass), 0, Some(15)));
    FitsCat(names, One(ExpClass), Cat(Optional(One(SignClass)), digits), d);
    FitsCat(names, Optional(One(SignClass)), digits, d.r);
    FitsCat(names, One(DigitClass), Repeat(One(NonZeroClass), 0, Some(15)), d.r.r);
    FitsOptional(names, One(SignClass), d.r.l);
    if d.r.l.ds != [] { FitsOne(names, SignClass, d.r.l.ds[0]); }
    FitsOne(names, ExpClass, d.l);
    FitsOne(names, DigitClass, d.r.r.l);
    RepeatClass(names, NonZeroClass, 0, Some(15), d.r.r.r);
    ExponentShape(d.l.t, Spell(d.r.l), d.r.r.l.t, Spell(d.r.r.r));
  }

  lemma ExponentShape(e: Text, sign: Text, first: Text, more: Text)
    requires |e| == 1 && IsExp(e[0]) && (sign == [] || (|sign| == 1 && IsSign(sign[0])))
    requires |first| == 1 && IsDigit(first[0]) && AllDigits(more)
    ensures GoodExponent(e + (sign + (first + more)))
  {
    var run := first + more;
    var s := e + (sign + run);
    assert AllDigits(run);
    if sign == [] { assert s[1..] == run; } else { assert s[2..] == run; }
  }

  lemma NumberOf(names: seq<Text>, d: Derivation) returns (t: Tree, w: Text)
    requires Fits(names, Ref(NumberRule), d)
    ensures Good(t) && AllWs(w) && Spell(d) == Yield(t) + w
  {
    hide Fits, Spell, SpellAll;
    FitsRef(names, NumberRule, d);
    var front, back := Cat(Optional(Char('-')), INTEGER), Cat(Optional(FRACTION), Cat(Optional(EXPONENT), WS));
    FitsCat(names, front, back, d.d);
    FitsCat(names, Optional(Char('-')), INTEGER, d.d.l);
    FitsCat(names, Optional(FRACTION), Cat(Optional(EXPONENT), WS), d.d.r);
    FitsCat(names, Optional(EXPONENT), WS, d.d.r.r);
    var minus, digits := d.d.l.l, Spell(d.d.l.r);
    var fraction, exponent := d.d.r.l, d.d.r.r.l;
    FitsOptional(names, Char('-'), minus);
    FitsOptional(names, FRACTION, fraction);
    FitsOptional(names, EXPONENT, exponent);
    IntegerOf(names, d.d.l.r);
    if fraction.ds != [] { FractionOf(names, fraction.ds[0]); }
    if exponent.ds != [] { ExponentOf(names, exponent.ds[0]); }
    WsIsBlank(names, d.d.r.r.r);
    w := Spell(d.d.r.r.r);
    t := NumberTree(minus.ds != [], digits, Spell(fraction), Spell(exponent));
    if minus.ds != [] { FitsWord(names, ['-' as int], minus.ds[0]); }
    NumberSpelling(minus.ds != [], digits, Spell(fraction), Spell(exponent), w);
  }

  lemma NumberSpelling(minus: bool, digits: Text, fraction: Text, exponent: Text, w: Text)
    ensures ((if minus then ['-' as int] else []) + digits) + (fraction + (exponent + w))
         == NumberText(minus, digits, fraction, exponent) + w
  {
  }

  lemma FitsChar(names: seq<Text>, c: char, d: Derivation)
    requires Fits(names, Char(c), d)
    ensures Spell(d) == [c as int]
  {
  }

  /** The literals of the value rule. */
  lemma LiteralOf(names: seq<Text>, d: Derivation) returns (t: Tree, w: Text)
    requires Fits(names, Cat(Alt(Word(TRUE_WORD), Alt(Word(FALSE_WORD), Word(NULL_WORD))), WS), d)
    ensures Good(t) && AllWs(w) && Spell(d) == Yield(t) + w
  {
    FitsCat(names, Alt(Word(TRUE_WORD), Alt(Word(FALSE_WORD), Word(NULL_WORD))), WS, d);
    WsIsBlank(names, d.r);
    w := Spell(d.r);
    FitsAlt(names, Word(TRUE_WORD), Alt(Word(FALSE_WORD), Word(NULL_WORD)), d.l);
    if d.l.Left? {
      FitsWord(names, TRUE_WORD, d.l.d);
      t := BoolTree(true);
    } else {
      FitsAlt(names, Word(FALSE_WORD), Word(NULL_WORD), d.l.d);
      if d.l.d.Left? {
        FitsWord(names, FALSE_WORD, d.l.d.d);
        t := BoolTree(false);
      } else {
        FitsWord(names, NULL_WORD, d.l.d.d);
        t := NullTree;
      }
    }
  }

  const LITERAL: Expr := Cat(Alt(Word(TRUE_WORD), Alt(Word(FALSE_WORD), Word(NULL_WORD))), WS)
  const FROM_NUMBER: Expr := Alt(Ref(NumberRule), LITERAL)
  const FROM_STRING: Expr := Alt(Ref(StringRule), FROM_NUMBER)
  const FROM_ARRAY: Expr := Alt(Ref(ArrayRule), FROM_STRING)

  lemma {:induction false} ValueOf(names: seq<Text>, d: Derivation) returns (t: Tree, w: Text)
    requires Fits(names, Ref(ValueRule), d)
    ensures Good(t) && AllWs(w) && Spell(d) == Yield(t) + w
    decreases d
  {
    FitsRef(names, ValueRule, d);
    FitsAlt(names, Ref(ObjectRule), FROM_ARRAY, d.d);
    if d.d.Left? {
      t, w := ObjectOf(names, d.d.d);
    } else {
      var e := d.d.d;
      FitsAlt(names, Ref(ArrayRule), FROM_STRING, e);
      if e.Left? {
        t, w := ArrayOf(names, e.d);
      } else {
        FitsAlt(names, Ref(StringRule), FROM_NUMBER, e.d);
        if e.d.Left? {
          var ps;
          ps, w := StringOf(names, e.d.d);
          t := StrTree(ps);
        } else {
          FitsAlt(names, Ref(NumberRule), LITERAL, e.d.d);
          if e.d.d.Left? {
            t, w := NumberOf(names, e.d.d.d);
          } else {
            t, w := LiteralOf(names, e.d.d.d);
          }
        }
      }
    }
  }

  const NEXT_ITEM: Expr := Cat(Char(','), Cat(WS, Ref(ValueRule)))
  const ITEMS: Expr := Cat(Ref(ValueRule), Star(NEXT_ITEM))
  const NEXT_PAIR: Expr := Cat(Char(','), Cat(WS, PAIR))
  const PAIRS: Expr := Cat(PAIR, Star(NEXT_PAIR))

  function Brackets(open: char, inner: Expr, close: char): Expr {
    Cat(Char(open), Cat(WS, Cat(Optional(inner), Cat(Char(close), WS))))
  }

  /** A bracketed list, taken apart: the blanks inside, what is derived from
      `inner` if anything is, and the blanks behind. */
  lemma BracketsOf(names: seq<Text>, open: char, inner: Expr, close: char, d: Derivation)
    returns (w0: Text, opt: Derivation, w: Text)
    requires Fits(names, Brackets(open, inner, close), d)
    ensures opt.Many? && opt < d && AllWs(w0) && AllWs(w)
    ensures opt.ds == [] || (|opt.ds| == 1 && Fits(names, inner, opt.ds[0]))
    ensures Spell(d) == [open as int] + (w0 + ((if opt.ds == [] then [] else Spell(opt.ds[0])) + ([close as int] + w)))
  {
    hide Fits, Spell, SpellAll;
    FitsCat(names, Char(open), Cat(WS, Cat(Optional(inner), Cat(Char(close), WS))), d);
    var e := d.r;
    FitsCat(names, WS, Cat(Optional(inner), Cat(Char(close), WS)), e);
    FitsCat(names, Optional(inner), Cat(Char(close), WS), e.r);
    FitsCat(names, Char(close), WS, e.r.r);
    FitsOptional(names, inner, e.r.l);
    WsIsBlank(names, e.l);
    WsIsBlank(names, e.r.r.r);
    FitsChar(names, open, d.l);
    FitsChar(names, close, e.r.r.l);
    w0, opt, w := Spell(e.l), e.r.l, Spell(e.r.r.r);
  }

  lemma {:induction false} ArrayOf(names: seq<Text>, d: Derivation) returns (t: Tree, w: Text)
    requires Fits(names, Ref(ArrayRule), d)
    ensures Good(t) && AllWs(w) && Spell(d) == Yield(t) + w
    decreases d
  {
    hide Fits, Spell, SpellAll;
    FitsRef(names, ArrayRule, d);
    var w0, opt;
    w0, opt, w := BracketsOf(names, '[', ITEMS, ']', d.d);
    var items := NoItems;
    if opt.ds != [] {
      var list := opt.ds[0];
      FitsCat(names, Ref(ValueRule), Star(NEXT_ITEM), list);
      FitsRepeat(names, NEXT_ITEM, 0, None, list.r);
      items := ItemsOf(names, list, 0);
      assert list.r.ds[0..] == list.r.ds;
    }
    t := ArrayTree(w0, items);
    Bracketed('[' as int, w0, YieldItems(items), ']' as int, w);
  }

  lemma Bracketed(open: Code, w0: Text, body: Text, close: Code, w: Text)
    ensures [open] + (w0 + (body + ([close] + w))) == ([open] + w0 + body + [close]) + w
  {
  }

  lemma FitsAt(names: seq<Text>, b: Expr, ds: seq<Derivation>, k: nat)
    requires k < |ds| && forall j :: 0 <= j < |ds| ==> Fits(names, b, ds[j])
    ensures Fits(names, b, ds[k])
    ensures SpellAll(ds[k..]) == Spell(ds[k]) + SpellAll(ds[k + 1..])
  {
    assert ds[k..][1..] == ds[k + 1..];
  }

  /** Item `i` of a derived list: the first stands alone, the rest follow a comma. */
  function ItemAt(list: Derivation, i: nat): (d: Derivation)
    requires list.Both? && list.r.Many? && i <= |list.r.ds|
    requires i > 0 ==> list.r.ds[i - 1].Both? && list.r.ds[i - 1].r.Both?
    ensures d < list
  {
    if i == 0 then list.l
    else
      assert list.r.ds[i - 1] < list.r;
      assert list.r.ds[i - 1].r < list.r.ds[i - 1];
      list.r.ds[i - 1].r.r
  }

  lemma {:induction false} ItemsOf(names: seq<Text>, list: Derivation, i: nat) returns (items: Items)
    requires Fits(names, ITEMS, list)
    requires list.Both? && list.r.Many? && i <= |list.r.ds|
    requires i > 0 ==> list.r.ds[i - 1].Both? && list.r.ds[i - 1].r.Both?
    ensures GoodItems(items) && items.Item?
    ensures YieldItems(items) == Spell(ItemAt(list, i)) + SpellAll(list.r.ds[i..])
    decreases list, |list.r.ds| - i
  {
    FitsCat(names, Ref(ValueRule), Star(NEXT_ITEM), list);
    FitsRepeat(names, NEXT_ITEM, 0, None, list.r);
    var ds := list.r.ds;
    if i > 0 { NextAt(names, Ref(ValueRule), ds, i - 1); }
    var t, w := ValueOf(names, ItemAt(list, i));
    if i == |ds| {
      items := Item(t, w, [], NoItems);
      assert ds[i..] == [];
    } else {
      NextAt(names, Ref(ValueRule), ds, i);
      var rest := ItemsOf(names, list, i + 1);
      items := Item(t, w, Spell(ds[i].r.l), rest);
      CommaSpelling(Yield(t), w, Spell(ds[i].r.l), Spell(ds[i].r.r), SpellAll(ds[i + 1..]));
    }
  }

  lemma CommaSpelling(v: Text, w: Text, blank: Text, next: Text, more: Text)
    ensures (v + w) + (([',' as int] + (blank + next)) + more) == v + w + ([',' as int] + blank + (next + more))
  {
  }

  lemma {:induction false} ObjectOf(names: seq<Text>, d: Derivation) returns (t: Tree, w: Text)
    requires Fits(names, Ref(ObjectRule), d)
    ensures t.ObjectTree? && Good(t) && AllWs(w) && Spell(d) == Yield(t) + w
    decreases d
  {
    hide Fits, Spell, SpellAll;
    FitsRef(names, ObjectRule, d);
    var w0, opt;
    w0, opt, w := BracketsOf(names, '{', PAIRS, '}', d.d);
    var members := NoMembers;
    if opt.ds != [] {
      var list := opt.ds[0];
      FitsCat(names, PAIR, Star(NEXT_PAIR), list);
      FitsRepeat(names, NEXT_PAIR, 0, None, list.r);
      members := MembersOf(names, list, 0);
      assert list.r.ds[0..] == list.r.ds;
    }
    t := ObjectTree(w0, members);
    Bracketed('{' as int, w0, YieldMembers(members), '}' as int, w);
  }

  /** One member on its own: string ":" ws value. */
  lemma {:induction false} PairOf(names: seq<Text>, d: Derivation) returns (m: Members)
    requires Fits(names, PAIR, d)
    ensures GoodMembers(m) && m.Member? && m.rest.NoMembers? && YieldMembers(m) == Spell(d)
    decreases d, 0
  {
    FitsCat(names, Ref(StringRule), Cat(Char(':'), Cat(WS, Ref(ValueRule))), d);
    FitsCat(names, Char(':'), Cat(WS, Ref(ValueRule)), d.r);
    FitsCat(names, WS, Ref(ValueRule), d.r.r);
    FitsChar(names, ':', d.r.l);
    WsIsBlank(names, d.r.r.l);
    var key, wColon := StringOf(names, d.l);
    var v, wEnd := ValueOf(names, d.r.r.r);
    m := Member(key, wColon, Spell(d.r.r.l), v, wEnd, [], NoMembers);
    PairSpelling(Quoted(key), wColon, Spell(d.r.r.l), Yield(v), wEnd);
  }

  lemma PairSpelling(key: Text, w0: Text, w1: Text, v: Text, w2: Text)
    ensures (key + w0) + ([':' as int] + (w1 + (v + w2))) == key + w0 + [':' as int] + w1 + v + w2 + []
  {
  }

  /** What stands at place `k` of a derived tail: a comma, blanks and one more. */
  lemma NextAt(names: seq<Text>, b: Expr, ds: seq<Derivation>, k: nat)
    requires k < |ds| && forall j :: 0 <= j < |ds| ==> Fits(names, Cat(Char(','), Cat(WS, b)), ds[j])
    ensures ds[k].Both? && ds[k].r.Both? && Fits(names, b, ds[k].r.r) && AllWs(Spell(ds[k].r.l))
    ensures SpellAll(ds[k..]) == ([',' as int] + (Spell(ds[k].r.l) + Spell(ds[k].r.r))) + SpellAll(ds[k + 1..])
  {
    FitsAt(names, Cat(Char(','), Cat(WS, b)), ds, k);
    FitsCat(names, Char(','), Cat(WS, b), ds[k]);
    FitsCat(names, WS, b, ds[k].r);
    FitsChar(names, ',', ds[k].l);
    WsIsBlank(names, ds[k].r.l);
  }

  lemma {:induction false} MembersOf(names: seq<Text>, list: Derivation, i: nat) returns (members: Members)
    requires Fits(names, PAIRS, list)
    requires list.Both? && list.r.Many? && i <= |list.r.ds|
    requires i > 0 ==> list.r.ds[i - 1].Both? && list.r.ds[i - 1].r.Both?
    ensures GoodMembers(members) && members.Member?
    ensures YieldMembers(members) == Spell(ItemAt(list, i)) + SpellAll(list.r.ds[i..])
    decreases list, |list.r.ds| - i
  {
    hide Fits, GoodMembers;
    FitsCat(names, PAIR, Star(NEXT_PAIR), list);
    FitsRepeat(names, NEXT_PAIR, 0, None, list.r);
    var ds := list.r.ds;
    if i > 0 { NextAt(names, PAIR, ds, i - 1); }
    if i == |ds| {
      members := PairOf(names, ItemAt(list, i));
      assert ds[i..] == [];
    } else {
      NextAt(names, PAIR, ds, i);
      var rest := MembersOf(names, list, i + 1);
      members := PairAndMore(names, ItemAt(list, i), Spell(ds[i].r.l), rest, Spell(ds[i].r.r), SpellAll(ds[i + 1..]));
    }
  }

  /** A member, a comma, and the members already built. */
  lemma {:induction false} PairAndMore(names: seq<Text>, d: Derivation, blank: Text, rest: Members, next: Text,
    more: Text)
    returns (members: Members)
    requires Fits(names, PAIR, d)
    requires AllWs(blank) && GoodMembers(rest) && rest.Member? && YieldMembers(rest) == next + more
    ensures GoodMembers(members) && members.Member?
    ensures YieldMembers(members) == Spell(d) + (([',' as int] + (blank + next)) + more)
    decreases d, 1
  {
    var m := PairOf(names, d);
    members := WithRest(m, blank, rest);
    CommaSpelling(Spell(d), [], blank, next, more);
    assert Spell(d) + [] == Spell(d);
  }

  lemma WithRest(m: Members, blank: Text, rest: Members) returns (members: Members)
    requires GoodMembers(m) && m.Member? && m.rest.NoMembers?
    requires AllWs(blank) && GoodMembers(rest) && rest.Member?
    ensures GoodMembers(members) && members.Member?
    ensures YieldMembers(members) == YieldMembers(m) + ([',' as int] + blank + YieldMembers(rest))
  {
    members := Member(m.key, m.wColon, m.wValue, m.value, m.wEnd, blank, rest);
    var core := Quoted(m.key) + m.wColon + [':' as int] + m.wValue + Yield(m.value) + m.wEnd;
    assert YieldMembers(m) == core + [];
  }
}
