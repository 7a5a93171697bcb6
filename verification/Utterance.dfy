/** The other direction of module Grammar (backend/agent/grammar.py): what it lets
    a model say. Every JSON value can be written under it, and so can every answer
    and every call of a registered tool. */
module Utterance {
  import opened Codes
  import opened Json
  import opened Grammar
  import opened Protocol
  import Sse
  import Client

  // --- what can be written ------------------------------------------------------------------

  /** Nothing, a blank, or a line break and up to twenty blanks and tabs. */
  predicate LegalWs(w: Text) {
    || w == [] || w == [SPACE]
    || (w != [] && w[0] == LF && |w| <= 21 && forall k :: 1 <= k < |w| ==> w[k] == 0x20 || w[k] == 0x09)
  }

  /** No control characters; the escapes of JSON but for the needless one. */
  predicate LegalPiece(p: Piece) {
    match p
    case Plain(c) => c != QUOTE && c != BACKSLASH && c >= 0x20 && c != 0x7F
    case Short(letter) => letter in [QUOTE, BACKSLASH] + Lit("bfnrt")
    case Unit(hex) => IsHex4(hex)
  }

  predicate LegalPieces(ps: seq<Piece>) { forall i :: 0 <= i < |ps| ==> LegalPiece(ps[i]) }

  predicate NonZeros(s: Text) { |s| <= 15 && forall i :: 0 <= i < |s| ==> IsDigit(s[i]) && s[i] != '0' as int }

  /** A digit and up to fifteen that are not zero, behind `e` and perhaps a sign. */
  predicate LegalExponent(s: Text) {
    || s == []
    || (|s| >= 2 && IsExp(s[0]) && IsDigit(s[1]) && NonZeros(s[2..]))
    || (|s| >= 3 && IsExp(s[0]) && IsSign(s[1]) && IsDigit(s[2]) && NonZeros(s[3..]))
  }

  /** JSON values as the grammar writes them: integers of at most sixteen digits. */
  predicate Legal(t: Tree)
    decreases t
  {
    match t
    case NullTree => true
    case BoolTree(_) => true
    case NumberTree(_, d, f, e) => GoodDigits(d) && |d| <= 16 && GoodFraction(f) && LegalExponent(e)
    case StrTree(ps) => LegalPieces(ps)
    case ArrayTree(w, items) => LegalWs(w) && LegalItems(items)
    case ObjectTree(w, members) => LegalWs(w) && LegalMembers(members)
  }

  predicate LegalItems(items: Items)
    decreases items
  {
    match items
    case NoItems => true
    case Item(v, w1, w2, rest) => Legal(v) && LegalWs(w1) && LegalWs(w2) && LegalItems(rest)
  }

  predicate LegalMembers(members: Members)
    decreases members
  {
    match members
    case NoMembers => true
    case Member(key, w0, w1, v, w2, w3, rest) =>
      && LegalPieces(key) && LegalWs(w0) && LegalWs(w1) && Legal(v) && LegalWs(w2) && LegalWs(w3)
      && LegalMembers(rest)
  }

  // --- derivations for it -------------------------------------------------------------------

  /** `d` derives `s` from `e`. */
  predicate Says(names: seq<Text>, e: Expr, d: Derivation, s: Text) { Fits(names, e, d) && Spell(d) == s }

  lemma CatSaid(names: seq<Text>, l: Expr, r: Expr, dl: Derivation, dr: Derivation, a: Text, b: Text)
    requires Says(names, l, dl, a) && Says(names, r, dr, b)
    ensures Says(names, Cat(l, r), Both(dl, dr), a + b)
  {
  }

  lemma LeftSaid(names: seq<Text>, l: Expr, r: Expr, d: Derivation, s: Text)
    requires Says(names, l, d, s)
    ensures Says(names, Alt(l, r), Left(d), s)
  {
  }

  lemma RightSaid(names: seq<Text>, l: Expr, r: Expr, d: Derivation, s: Text)
    requires Says(names, r, d, s)
    ensures Says(names, Alt(l, r), Right(d), s)
  {
  }

  lemma RefSaid(names: seq<Text>, rule: Rule, d: Derivation, s: Text)
    requires Says(names, BuildGrammar(names, rule), d, s)
    ensures Says(names, Ref(rule), Via(d), s)
  {
  }

  lemma WordSaid(names: seq<Text>, w: Text)
    ensures Says(names, Word(w), Leaf(w), w)
  {
  }

  lemma OneSaid(names: seq<Text>, chars: CharClass, c: Code)
    requires InClass(chars, c)
    ensures Says(names, One(chars), Leaf([c]), [c])
  {
  }

  lemma SkippedSaid(names: seq<Text>, e: Expr)
    ensures Says(names, Optional(e), Many([]), [])
  {
  }

  lemma GivenSaid(names: seq<Text>, e: Expr, d: Derivation, s: Text)
    requires Says(names, e, d, s)
    ensures Says(names, Optional(e), Many([d]), s)
  {
    assert [d][1..] == [];
    assert SpellAll([d]) == Spell(d) + [];
  }

  /** Any number of characters of a class. */
  lemma {:induction false} ClassSaid(names: seq<Text>, chars: CharClass, s: Text) returns (ds: seq<Derivation>)
    requires forall k :: 0 <= k < |s| ==> InClass(chars, s[k])
    ensures |ds| == |s| && SpellAll(ds) == s && forall k :: 0 <= k < |ds| ==> Fits(names, One(chars), ds[k])
  {
    if s == [] {
      ds := [];
    } else {
      var rest := ClassSaid(names, chars, s[1..]);
      OneSaid(names, chars, s[0]);
      ds := [Leaf([s[0]])] + rest;
      assert ds[1..] == rest;
      assert s == [s[0]] + s[1..];
    }
  }

  lemma RunSaid(names: seq<Text>, chars: CharClass, least: nat, most: Option<nat>, s: Text) returns (d: Derivation)
    requires forall k :: 0 <= k < |s| ==> InClass(chars, s[k])
    requires least <= |s| && (most.Some? ==> |s| <= most.value)
    ensures Says(names, Repeat(One(chars), least, most), d, s)
  {
    var ds := ClassSaid(names, chars, s);
    d := Many(ds);
  }

  lemma WsSaid(names: seq<Text>, w: Text) returns (d: Derivation)
    requires LegalWs(w)
    ensures Says(names, WS, d, w)
  {
    var indent := Repeat(One(BlankClass), 0, Some(20));
    var broken := Cat(Word([LF]), indent);
    if w == [] {
      LeftSaid(names, Nothing, Alt(Char(' '), broken), Leaf([]), []);
      d := Left(Leaf([]));
    } else if w == [SPACE] {
      WordSaid(names, [SPACE]);
      LeftSaid(names, Char(' '), broken, Leaf([SPACE]), w);
      RightSaid(names, Nothing, Alt(Char(' '), broken), Left(Leaf([SPACE])), w);
      d := Right(Left(Leaf([SPACE])));
    } else {
      var tail := RunSaid(names, BlankClass, 0, Some(20), w[1..]);
      WordSaid(names, [LF]);
      CatSaid(names, Word([LF]), indent, Leaf([LF]), tail, [LF], w[1..]);
      assert [LF] + w[1..] == w;
      RightSaid(names, Char(' '), broken, Both(Leaf([LF]), tail), w);
      RightSaid(names, Nothing, Alt(Char(' '), broken), Right(Both(Leaf([LF]), tail)), w);
      d := Right(Right(Both(Leaf([LF]), tail)));
    }
    RefSaid(names, WsRule, d, w);
    d := Via(d);
  }

  // --- strings ------------------------------------------------------------------------------

  const PIECE: Expr := Alt(One(StringChar), ESCAPED)

  lemma LettersAre(c: Code)
    ensures c in [QUOTE, BACKSLASH] + Lit("bfnrt") <==> InClass(EscapeLetter, c)
  {
    var s := Lit("bfnrt");
    assert s == ['b' as int, 'f' as int, 'n' as int, 'r' as int, 't' as int];
  }

  lemma PieceSaid(names: seq<Text>, p: Piece) returns (d: Derivation)
    requires LegalPiece(p)
    ensures Says(names, PIECE, d, YieldPiece(p))
  {
    hide Fits, Spell, IsHex4;
    var unit := Cat(Char('u'), Repeat(One(HexClass), 4, Some(4)));
    match p
    case Plain(c) =>
      OneSaid(names, StringChar, c);
      LeftSaid(names, One(StringChar), ESCAPED, Leaf([c]), [c]);
      d := Left(Leaf([c]));
    case Short(letter) =>
      LettersAre(letter);
      OneSaid(names, EscapeLetter, letter);
      LeftSaid(names, One(EscapeLetter), unit, Leaf([letter]), [letter]);
      d := Escape(names, Left(Leaf([letter])), [letter]);
    case Unit(hex) =>
      HexSaid(hex);
      var four := RunSaid(names, HexClass, 4, Some(4), hex);
      WordSaid(names, ['u' as int]);
      CatSaid(names, Char('u'), Repeat(One(HexClass), 4, Some(4)), Leaf(['u' as int]), four, ['u' as int], hex);
      RightSaid(names, One(EscapeLetter), unit, Both(Leaf(['u' as int]), four), ['u' as int] + hex);
      d := Escape(names, Right(Both(Leaf(['u' as int]), four)), ['u' as int] + hex);
      assert [BACKSLASH] + (['u' as int] + hex) == [BACKSLASH, 'u' as int] + hex;
  }

  lemma HexSaid(hex: Text)
    requires IsHex4(hex)
    ensures |hex| == 4 && forall k :: 0 <= k < 4 ==> InClass(HexClass, hex[k])
  {
  }

  lemma Escape(names: seq<Text>, e: Derivation, s: Text) returns (d: Derivation)
    requires Says(names, Alt(One(EscapeLetter), Cat(Char('u'), Repeat(One(HexClass), 4, Some(4)))), e, s)
    ensures Says(names, PIECE, d, [BACKSLASH] + s)
  {
    hide Fits, Spell;
    var rest := Alt(One(EscapeLetter), Cat(Char('u'), Repeat(One(HexClass), 4, Some(4))));
    WordSaid(names, [BACKSLASH]);
    CatSaid(names, Word([BACKSLASH]), rest, Leaf([BACKSLASH]), e, [BACKSLASH], s);
    RightSaid(names, One(StringChar), ESCAPED, Both(Leaf([BACKSLASH]), e), [BACKSLASH] + s);
    d := Right(Both(Leaf([BACKSLASH]), e));
  }

  lemma {:induction false} PiecesSaid(names: seq<Text>, ps: seq<Piece>) returns (ds: seq<Derivation>)
    requires LegalPieces(ps)
    ensures SpellAll(ds) == YieldPieces(ps) && forall k :: 0 <= k < |ds| ==> Fits(names, PIECE, ds[k])
  {
    if ps == [] {
      ds := [];
    } else {
      var d := PieceSaid(names, ps[0]);
      var rest := PiecesSaid(names, ps[1..]);
      ds := [d] + rest;
      assert ds[1..] == rest;
    }
  }

  lemma ManySaid(names: seq<Text>, e: Expr, ds: seq<Derivation>, s: Text)
    requires SpellAll(ds) == s && forall k :: 0 <= k < |ds| ==> Fits(names, e, ds[k])
    ensures Says(names, Star(e), Many(ds), s)
  {
  }

  lemma StringSaid(names: seq<Text>, ps: seq<Piece>, w: Text) returns (d: Derivation)
    requires LegalPieces(ps) && LegalWs(w)
    ensures Says(names, Ref(StringRule), d, Quoted(ps) + w)
  {
    hide Fits, Spell, SpellAll, LegalPiece, LegalWs;
    var ds := PiecesSaid(names, ps);
    var blank := WsSaid(names, w);
    ManySaid(names, PIECE, ds, YieldPieces(ps));
    var quote := Word([QUOTE]);
    WordSaid(names, [QUOTE]);
    CatSaid(names, quote, WS, Leaf([QUOTE]), blank, [QUOTE], w);
    var back := Both(Leaf([QUOTE]), blank);
    CatSaid(names, Star(PIECE), Cat(quote, WS), Many(ds), back, YieldPieces(ps), [QUOTE] + w);
    CatSaid(names, quote, Cat(Star(PIECE), Cat(quote, WS)), Leaf([QUOTE]), Both(Many(ds), back), [QUOTE],
      YieldPieces(ps) + ([QUOTE] + w));
    d := Both(Leaf([QUOTE]), Both(Many(ds), back));
    assert [QUOTE] + (YieldPieces(ps) + ([QUOTE] + w)) == Quoted(ps) + w;
    RefSaid(names, StringRule, d, Quoted(ps) + w);
    d := Via(d);
  }

  // --- numbers and literals -----------------------------------------------------------------

  lemma IntegerSaid(names: seq<Text>, s: Text) returns (d: Derivation)
    requires GoodDigits(s) && |s| <= 16
    ensures Says(names, INTEGER, d, s)
  {
    var more := Repeat(One(DigitClass), 0, Some(15));
    OneSaid(names, DigitClass, s[0]);
    if |s| == 1 {
      LeftSaid(names, One(DigitClass), Cat(One(NonZeroClass), more), Leaf([s[0]]), [s[0]]);
      assert s == [s[0]];
      d := Left(Leaf([s[0]]));
    } else {
      OneSaid(names, NonZeroClass, s[0]);
      var run := RunSaid(names, DigitClass, 0, Some(15), s[1..]);
      CatSaid(names, One(NonZeroClass), more, Leaf([s[0]]), run, [s[0]], s[1..]);
      assert [s[0]] + s[1..] == s;
      RightSaid(names, One(DigitClass), Cat(One(NonZeroClass), more), Both(Leaf([s[0]]), run), s);
      d := Right(Both(Leaf([s[0]]), run));
    }
  }

  lemma FractionSaid(names: seq<Text>, s: Text) returns (d: Derivation)
    requires GoodFraction(s)
    ensures Says(names, Optional(FRACTION), d, s)
  {
    if s == [] {
      SkippedSaid(names, FRACTION);
      d := Many([]);
    } else {
      WordSaid(names, ['.' as int]);
      var run := RunSaid(names, DigitClass, 1, None, s[1..]);
      CatSaid(names, Char('.'), Plus(One(DigitClass)), Leaf(['.' as int]), run, ['.' as int], s[1..]);
      assert ['.' as int] + s[1..] == s;
      d := Both(Leaf(['.' as int]), run);
      GivenSaid(names, FRACTION, d, s);
      d := Many([d]);
    }
  }

  const EXP_DIGITS: Expr := Cat(One(DigitClass), Repeat(One(NonZeroClass), 0, Some(15)))

  lemma SignedSaid(names: seq<Text>, sign: Text, first: Code, more: Text) returns (d: Derivation)
    requires sign == [] || (|sign| == 1 && IsSign(sign[0]))
    requires IsDigit(first) && NonZeros(more)
    ensures Says(names, Cat(Optional(One(SignClass)), EXP_DIGITS), d, sign + ([first] + more))
  {
    OneSaid(names, DigitClass, first);
    var run := RunSaid(names, NonZeroClass, 0, Some(15), more);
    CatSaid(names, One(DigitClass), Repeat(One(NonZeroClass), 0, Some(15)), Leaf([first]), run, [first], more);
    var front := Many([]);
    if sign == [] {
      SkippedSaid(names, One(SignClass));
    } else {
      OneSaid(names, SignClass, sign[0]);
      assert [sign[0]] == sign;
      GivenSaid(names, One(SignClass), Leaf(sign), sign);
      front := Many([Leaf(sign)]);
    }
    CatSaid(names, Optional(One(SignClass)), EXP_DIGITS, front, Both(Leaf([first]), run), sign, [first] + more);
    d := Both(front, Both(Leaf([first]), run));
  }

  lemma ExponentSaid(names: seq<Text>, s: Text) returns (d: Derivation)
    requires LegalExponent(s)
    ensures Says(names, Optional(EXPONENT), d, s)
  {
    hide Fits, Spell;
    if s == [] {
      SkippedSaid(names, EXPONENT);
      d := Many([]);
    } else {
      OneSaid(names, ExpClass, s[0]);
      if IsDigit(s[1]) && NonZeros(s[2..]) {
        d := SignedSaid(names, [], s[1], s[2..]);
        assert [s[0]] + ([] + ([s[1]] + s[2..])) == s;
      } else {
        d := SignedSaid(names, [s[1]], s[2], s[3..]);
        assert [s[0]] + ([s[1]] + ([s[2]] + s[3..])) == s;
      }
      CatSaid(names, One(ExpClass), Cat(Optional(One(SignClass)), EXP_DIGITS), Leaf([s[0]]), d, [s[0]], Spell(d));
      d := Both(Leaf([s[0]]), d);
      GivenSaid(names, EXPONENT, d, s);
      d := Many([d]);
    }
  }

  lemma NumberSaid(names: seq<Text>, t: Tree, w: Text) returns (d: Derivation)
    requires t.NumberTree? && Legal(t) && LegalWs(w)
    ensures Says(names, Ref(NumberRule), d, Yield(t) + w)
  {
    var sign: Text := if t.minus then ['-' as int] else [];
    var minus := Many(if t.minus then [Leaf(['-' as int])] else []);
    WordSaid(names, ['-' as int]);
    if t.minus { GivenSaid(names, Char('-'), Leaf(['-' as int]), sign); } else { SkippedSaid(names, Char('-')); }
    var digits := IntegerSaid(names, t.digits);
    var fraction := FractionSaid(names, t.fraction);
    var exponent := ExponentSaid(names, t.exponent);
    var blank := WsSaid(names, w);
    hide Fits, Spell;
    CatSaid(names, Optional(Char('-')), INTEGER, minus, digits, sign, t.digits);
    CatSaid(names, Optional(EXPONENT), WS, exponent, blank, t.exponent, w);
    CatSaid(names, Optional(FRACTION), Cat(Optional(EXPONENT), WS), fraction, Both(exponent, blank), t.fraction,
      t.exponent + w);
    CatSaid(names, Cat(Optional(Char('-')), INTEGER), Cat(Optional(FRACTION), Cat(Optional(EXPONENT), WS)),
      Both(minus, digits), Both(fraction, Both(exponent, blank)), sign + t.digits, t.fraction + (t.exponent + w));
    NumberSpelling(t.minus, t.digits, t.fraction, t.exponent, w);
    d := Both(Both(minus, digits), Both(fraction, Both(exponent, blank)));
    RefSaid(names, NumberRule, d, Yield(t) + w);
    d := Via(d);
  }

  lemma LiteralSaid(names: seq<Text>, t: Tree, w: Text) returns (d: Derivation)
    requires (t.NullTree? || t.BoolTree?) && LegalWs(w)
    ensures Says(names, LITERAL, d, Yield(t) + w)
  {
    var blank := WsSaid(names, w);
    hide Fits, Spell;
    var word := Leaf(Yield(t));
    WordSaid(names, Yield(t));
    var others := Alt(Word(FALSE_WORD), Word(NULL_WORD));
    if t == BoolTree(true) {
      LeftSaid(names, Word(TRUE_WORD), others, word, Yield(t));
      d := Left(word);
    } else if t == BoolTree(false) {
      LeftSaid(names, Word(FALSE_WORD), Word(NULL_WORD), word, Yield(t));
      RightSaid(names, Word(TRUE_WORD), others, Left(word), Yield(t));
      d := Right(Left(word));
    } else {
      RightSaid(names, Word(FALSE_WORD), Word(NULL_WORD), word, Yield(t));
      RightSaid(names, Word(TRUE_WORD), others, Right(word), Yield(t));
      d := Right(Right(word));
    }
    CatSaid(names, Alt(Word(TRUE_WORD), others), WS, d, blank, Yield(t), w);
    d := Both(d, blank);
  }

  // --- values -------------------------------------------------------------------------------

  /** Every way of writing a value that the grammar has the means for is derivable,
      with any legal blanks behind it. */
  lemma {:induction false} ValueSaid(names: seq<Text>, t: Tree, w: Text) returns (d: Derivation)
    requires Legal(t) && LegalWs(w)
    ensures Says(names, Ref(ValueRule), d, Yield(t) + w)
    decreases t, 1
  {
    hide Fits, Spell;
    var s := Yield(t) + w;
    match t
    case ObjectTree(_, _) =>
      d := ObjectSaid(names, t, w);
      LeftSaid(names, Ref(ObjectRule), FROM_ARRAY, d, s);
      RefSaid(names, ValueRule, Left(d), s);
      d := Via(Left(d));
    case ArrayTree(_, _) =>
      d := ArraySaid(names, t, w);
      LeftSaid(names, Ref(ArrayRule), FROM_STRING, d, s);
      d := FromArray(names, Left(d), s);
    case StrTree(ps) =>
      d := StringSaid(names, ps, w);
      LeftSaid(names, Ref(StringRule), FROM_NUMBER, d, s);
      d := FromString(names, Left(d), s);
    case NumberTree(_, _, _, _) =>
      d := NumberSaid(names, t, w);
      LeftSaid(names, Ref(NumberRule), LITERAL, d, s);
      RightSaid(names, Ref(StringRule), FROM_NUMBER, Left(d), s);
      d := FromString(names, Right(Left(d)), s);
    case _ =>
      d := LiteralSaid(names, t, w);
      RightSaid(names, Ref(NumberRule), LITERAL, d, s);
      RightSaid(names, Ref(StringRule), FROM_NUMBER, Right(d), s);
      d := FromString(names, Right(Right(d)), s);
  }

  lemma FromArray(names: seq<Text>, e: Derivation, s: Text) returns (d: Derivation)
    requires Says(names, FROM_ARRAY, e, s)
    ensures Says(names, Ref(ValueRule), d, s)
  {
    hide Fits, Spell;
    RightSaid(names, Ref(ObjectRule), FROM_ARRAY, e, s);
    RefSaid(names, ValueRule, Right(e), s);
    d := Via(Right(e));
  }

  lemma FromString(names: seq<Text>, e: Derivation, s: Text) returns (d: Derivation)
    requires Says(names, FROM_STRING, e, s)
    ensures Says(names, Ref(ValueRule), d, s)
  {
    hide Fits, Spell;
    RightSaid(names, Ref(ArrayRule), FROM_STRING, e, s);
    d := FromArray(names, Right(e), s);
  }

  /** A bracketed list, put together. */
  lemma BracketsSaid(names: seq<Text>, rule: Rule, open: char, inner: Expr, close: char, w0: Text, opt: Derivation,
    body: Text, w: Text) returns (d: Derivation)
    requires BuildGrammar(names, rule) == Brackets(open, inner, close)
    requires LegalWs(w0) && LegalWs(w) && Says(names, Optional(inner), opt, body)
    ensures Says(names, Ref(rule), d, ([open as int] + w0 + body + [close as int]) + w)
  {
    var first := WsSaid(names, w0);
    var last := WsSaid(names, w);
    hide Fits, Spell;
    var o, c: Text := [open as int], [close as int];
    WordSaid(names, o);
    WordSaid(names, c);
    CatSaid(names, Char(close), WS, Leaf(c), last, c, w);
    CatSaid(names, Optional(inner), Cat(Char(close), WS), opt, Both(Leaf(c), last), body, c + w);
    CatSaid(names, WS, Cat(Optional(inner), Cat(Char(close), WS)), first, Both(opt, Both(Leaf(c), last)), w0,
      body + (c + w));
    CatSaid(names, Char(open), Cat(WS, Cat(Optional(inner), Cat(Char(close), WS))), Leaf(o),
      Both(first, Both(opt, Both(Leaf(c), last))), o, w0 + (body + (c + w)));
    Bracketed(open as int, w0, body, close as int, w);
    d := Both(Leaf(o), Both(first, Both(opt, Both(Leaf(c), last))));
    RefSaid(names, rule, d, (o + w0 + body + c) + w);
    d := Via(d);
  }

  lemma {:induction false} ArraySaid(names: seq<Text>, t: Tree, w: Text) returns (d: Derivation)
    requires t.ArrayTree? && Legal(t) && LegalWs(w)
    ensures Says(names, Ref(ArrayRule), d, Yield(t) + w)
    decreases t, 0
  {
    hide Fits, Spell;
    var opt := Many([]);
    if t.items.NoItems? {
      SkippedSaid(names, ITEMS);
    } else {
      var list := ItemsSaid(names, t.items);
      GivenSaid(names, ITEMS, list, YieldItems(t.items));
      opt := Many([list]);
    }
    d := BracketsSaid(names, ArrayRule, '[', ITEMS, ']', t.w, opt, YieldItems(t.items), w);
  }

  lemma {:induction false} ObjectSaid(names: seq<Text>, t: Tree, w: Text) returns (d: Derivation)
    requires t.ObjectTree? && Legal(t) && LegalWs(w)
    ensures Says(names, Ref(ObjectRule), d, Yield(t) + w)
    decreases t, 0
  {
    hide Fits, Spell;
    var opt := Many([]);
    if t.members.NoMembers? {
      SkippedSaid(names, PAIRS);
    } else {
      var list := MembersSaid(names, t.members);
      GivenSaid(names, PAIRS, list, YieldMembers(t.members));
      opt := Many([list]);
    }
    d := BracketsSaid(names, ObjectRule, '{', PAIRS, '}', t.w, opt, YieldMembers(t.members), w);
  }

  /** One element and then others, each behind a comma. */
  predicate ListSaid(names: seq<Text>, b: Expr, next: Expr, d: Derivation, s: Text) {
    && d.Both? && d.r.Many? && Fits(names, b, d.l) && (forall k :: 0 <= k < |d.r.ds| ==> Fits(names, next, d.r.ds[k]))
    && Spell(d) == s
  }

  lemma ListIsSaid(names: seq<Text>, b: Expr, next: Expr, d: Derivation, s: Text)
    requires ListSaid(names, b, next, d, s)
    ensures Says(names, Cat(b, Star(next)), d, s)
  {
  }

  lemma OnlySaid(names: seq<Text>, b: Expr, next: Expr, first: Derivation, s: Text)
    requires Says(names, b, first, s)
    ensures ListSaid(names, b, next, Both(first, Many([])), s)
  {
    assert Spell(Both(first, Many([]))) == s + [];
  }

  /** A first element before a list. */
  lemma MoreSaid(names: seq<Text>, b: Expr, first: Derivation, s: Text, wNext: Text, list: Derivation, rest: Text)
    returns (d: Derivation)
    requires Says(names, b, first, s) && LegalWs(wNext) && ListSaid(names, b, Cat(Char(','), Cat(WS, b)), list, rest)
    ensures ListSaid(names, b, Cat(Char(','), Cat(WS, b)), d, s + ([',' as int] + wNext + rest))
  {
    hide Fits, Spell, SpellAll, LegalWs;
    var second, more := Spell(list.l), SpellAll(list.r.ds);
    ListSpells(list);
    ListStarts(names, b, Cat(Char(','), Cat(WS, b)), list, rest);
    var link := LinkSaid(names, b, list.l, second, wNext);
    d := Both(first, Many([link] + list.r.ds));
    ListSpells(d);
    SpellsCons(link, list.r.ds);
    assert ([',' as int] + (wNext + second)) + more == [',' as int] + wNext + (second + more);
  }

  lemma ListStarts(names: seq<Text>, b: Expr, next: Expr, d: Derivation, s: Text)
    requires ListSaid(names, b, next, d, s)
    ensures Says(names, b, d.l, Spell(d.l))
  {
  }

  /** A comma, blanks and an element. */
  lemma LinkSaid(names: seq<Text>, b: Expr, e: Derivation, s: Text, w: Text) returns (d: Derivation)
    requires Says(names, b, e, s) && LegalWs(w)
    ensures Says(names, Cat(Char(','), Cat(WS, b)), d, [',' as int] + (w + s))
  {
    hide Fits, Spell, LegalWs;
    var blank := WsSaid(names, w);
    WordSaid(names, [',' as int]);
    CatSaid(names, WS, b, blank, e, w, s);
    CatSaid(names, Char(','), Cat(WS, b), Leaf([',' as int]), Both(blank, e), [',' as int], w + s);
    d := Both(Leaf([',' as int]), Both(blank, e));
  }

  lemma ListSpells(d: Derivation)
    requires d.Both? && d.r.Many?
    ensures Spell(d) == Spell(d.l) + SpellAll(d.r.ds)
  {
  }

  lemma SpellsCons(d: Derivation, ds: seq<Derivation>)
    ensures SpellAll([d] + ds) == Spell(d) + SpellAll(ds)
  {
    assert ([d] + ds)[1..] == ds;
  }

  lemma {:induction false} ItemsSaid(names: seq<Text>, items: Items) returns (d: Derivation)
    requires items.Item? && LegalItems(items)
    ensures ListSaid(names, Ref(ValueRule), NEXT_ITEM, d, YieldItems(items))
    ensures Says(names, ITEMS, d, YieldItems(items))
    decreases items, 2
  {
    hide Fits, Spell, ListSaid;
    var first := ValueSaid(names, items.value, items.wEnd);
    var s := Yield(items.value) + items.wEnd;
    if items.rest.NoItems? {
      OnlySaid(names, Ref(ValueRule), NEXT_ITEM, first, s);
      d := Both(first, Many([]));
      assert s + [] == s;
    } else {
      var list := ItemsSaid(names, items.rest);
      d := MoreSaid(names, Ref(ValueRule), first, s, items.wNext, list, YieldItems(items.rest));
    }
    ListIsSaid(names, Ref(ValueRule), NEXT_ITEM, d, YieldItems(items));
  }

  /** The front of a member, without what follows it. */
  function PairText(m: Members): Text
    requires m.Member?
  {
    Quoted(m.key) + m.wColon + [':' as int] + m.wValue + Yield(m.value) + m.wEnd
  }

  lemma {:induction false} PairSaid(names: seq<Text>, m: Members) returns (d: Derivation)
    requires m.Member? && LegalMembers(m)
    ensures Says(names, PAIR, d, PairText(m))
    decreases m, 2
  {
    hide Fits, Spell;
    var key := StringSaid(names, m.key, m.wColon);
    var blank := WsSaid(names, m.wValue);
    var value := ValueSaid(names, m.value, m.wEnd);
    var colon: Text := [':' as int];
    WordSaid(names, colon);
    var v := Yield(m.value) + m.wEnd;
    CatSaid(names, WS, Ref(ValueRule), blank, value, m.wValue, v);
    CatSaid(names, Char(':'), Cat(WS, Ref(ValueRule)), Leaf(colon), Both(blank, value), colon, m.wValue + v);
    CatSaid(names, Ref(StringRule), Cat(Char(':'), Cat(WS, Ref(ValueRule))), key,
      Both(Leaf(colon), Both(blank, value)), Quoted(m.key) + m.wColon, colon + (m.wValue + v));
    PairSpelling(Quoted(m.key), m.wColon, m.wValue, Yield(m.value), m.wEnd);
    d := Both(key, Both(Leaf(colon), Both(blank, value)));
    assert PairText(m) + [] == PairText(m);
  }

  lemma {:induction false} MembersSaid(names: seq<Text>, members: Members) returns (d: Derivation)
    requires members.Member? && LegalMembers(members)
    ensures ListSaid(names, PAIR, NEXT_PAIR, d, YieldMembers(members))
    ensures Says(names, PAIRS, d, YieldMembers(members))
    decreases members, 3
  {
    hide Fits, Spell, ListSaid;
    var first := PairSaid(names, members);
    var s := PairText(members);
    if members.rest.NoMembers? {
      OnlySaid(names, PAIR, NEXT_PAIR, first, s);
      d := Both(first, Many([]));
      assert s + [] == s;
    } else {
      var list := MembersSaid(names, members.rest);
      d := MoreSaid(names, PAIR, first, s, members.wNext, list, YieldMembers(members.rest));
    }
    ListIsSaid(names, PAIR, NEXT_PAIR, d, YieldMembers(members));
  }

  // --- whole utterances ---------------------------------------------------------------------

  lemma FinalSaid(names: seq<Text>, w1: Text, w2: Text, w3: Text, ps: seq<Piece>, w4: Text) returns (d: Derivation)
    requires LegalWs(w1) && LegalWs(w2) && LegalWs(w3) && LegalPieces(ps) && LegalWs(w4)
    ensures Says(names, FINAL_BODY, d, Yield(FinalTree(w1, w2, w3, ps, w4)))
  {
    var a := WsSaid(names, w1);
    var b := WsSaid(names, w2);
    var c := WsSaid(names, w3);
    var e := WsSaid(names, []);
    var text := StringSaid(names, ps, w4);
    hide Fits, Spell;
    var open, close, colon, key: Text := ['{' as int], ['}' as int], [':' as int], [QUOTE] + FINAL_WORD + [QUOTE];
    WordSaid(names, open);
    WordSaid(names, close);
    WordSaid(names, colon);
    WordSaid(names, key);
    var e8 := Cat(WS, Char('}'));
    var e7 := Cat(Ref(StringRule), e8);
    CatSaid(names, WS, Char('}'), e, Leaf(close), [], close);
    CatSaid(names, Ref(StringRule), e8, text, Both(e, Leaf(close)), Quoted(ps) + w4, [] + close);
    d := Both(text, Both(e, Leaf(close)));
    var s := (Quoted(ps) + w4) + ([] + close);
    CatSaid(names, WS, e7, c, d, w3, s);
    CatSaid(names, Char(':'), Cat(WS, e7), Leaf(colon), Both(c, d), colon, w3 + s);
    var e4 := Cat(WS, Cat(Char(':'), Cat(WS, e7)));
    CatSaid(names, WS, Cat(Char(':'), Cat(WS, e7)), b, Both(Leaf(colon), Both(c, d)), w2, colon + (w3 + s));
    CatSaid(names, QuotedWord(FINAL_WORD), e4, Leaf(key), Both(b, Both(Leaf(colon), Both(c, d))), key,
      w2 + (colon + (w3 + s)));
    d := Both(Leaf(key), Both(b, Both(Leaf(colon), Both(c, d))));
    s := key + (w2 + (colon + (w3 + s)));
    CatSaid(names, WS, Cat(QuotedWord(FINAL_WORD), e4), a, d, w1, s);
    CatSaid(names, Char('{'), Cat(WS, Cat(QuotedWord(FINAL_WORD), e4)), Leaf(open), Both(a, d), open, w1 + s);
    d := Both(Leaf(open), Both(a, d));
    FinalSpelling(w1, w2, w3, ps, w4, []);
    assert w4 + [] == w4;
  }

  lemma ArgsSaid(names: seq<Text>, args: Tree) returns (d: Derivation)
    requires args.ObjectTree? && Legal(args)
    ensures Says(names, AFTER_NAME, d,
      [] + ([',' as int] + [] + ([QUOTE] + ARGS_WORD + [QUOTE])
        + ([] + [':' as int] + [] + Yield(args) + [] + ['}' as int])))
  {
    var e := WsSaid(names, []);
    var inside := ObjectSaid(names, args, []);
    hide Fits, Spell;
    var close, colon, comma, key: Text := ['}' as int], [':' as int], [',' as int], [QUOTE] + ARGS_WORD + [QUOTE];
    WordSaid(names, close);
    WordSaid(names, colon);
    WordSaid(names, comma);
    WordSaid(names, key);
    var inner := Cat(Ref(ObjectRule), Cat(WS, Char('}')));
    CatSaid(names, WS, Char('}'), e, Leaf(close), [], close);
    CatSaid(names, Ref(ObjectRule), Cat(WS, Char('}')), inside, Both(e, Leaf(close)), Yield(args) + [], [] + close);
    d := Both(inside, Both(e, Leaf(close)));
    var s := (Yield(args) + []) + ([] + close);
    CatSaid(names, WS, inner, e, d, [], s);
    CatSaid(names, Char(':'), Cat(WS, inner), Leaf(colon), Both(e, d), colon, [] + s);
    CatSaid(names, WS, Cat(Char(':'), Cat(WS, inner)), e, Both(Leaf(colon), Both(e, d)), [], colon + ([] + s));
    d := Both(e, Both(Leaf(colon), Both(e, d)));
    s := [] + (colon + ([] + s));
    CatSaid(names, QuotedWord(ARGS_WORD), TO_ARGS, Leaf(key), d, key, s);
    CatSaid(names, WS, Cat(QuotedWord(ARGS_WORD), TO_ARGS), e, Both(Leaf(key), d), [], key + s);
    CatSaid(names, Char(','), Cat(WS, Cat(QuotedWord(ARGS_WORD), TO_ARGS)), Leaf(comma), Both(e, Both(Leaf(key), d)),
      comma, [] + (key + s));
    CatSaid(names, WS, Cat(Char(','), Cat(WS, Cat(QuotedWord(ARGS_WORD), TO_ARGS))), e,
      Both(Leaf(comma), Both(e, Both(Leaf(key), d))), [], comma + ([] + (key + s)));
    d := Both(e, Both(Leaf(comma), Both(e, Both(Leaf(key), d))));
    Flatten([], [], Yield(args), [], []);
    Tight(key, s, [] + colon + [] + Yield(args) + [] + close);
  }

  lemma Tight(key: Text, s: Text, z: Text)
    requires s == z
    ensures [] + ([',' as int] + ([] + (key + s))) == [] + ([',' as int] + [] + key + z)
  {
  }

  lemma ToolSaid(names: seq<Text>, e: Expr, named: Derivation, name: Text, args: Tree) returns (d: Derivation)
    requires IsPlain(name) && args.ObjectTree? && Legal(args) && Says(names, e, named, [QUOTE] + name + [QUOTE])
    ensures Says(names, ToolBody(e), d, Yield(ToolTree([], [], [], name, [], [], [], [], args, [])))
  {
    var none := WsSaid(names, []);
    var rest := ArgsSaid(names, args);
    hide Fits, Spell;
    var open, colon, key, value: Text := ['{' as int], [':' as int], [QUOTE] + TOOL_WORD + [QUOTE],
      [QUOTE] + name + [QUOTE];
    var s := [] + ([',' as int] + [] + ([QUOTE] + ARGS_WORD + [QUOTE])
      + ([] + [':' as int] + [] + Yield(args) + [] + ['}' as int]));
    WordSaid(names, open);
    WordSaid(names, colon);
    WordSaid(names, key);
    var e6 := Cat(e, AFTER_NAME);
    CatSaid(names, e, AFTER_NAME, named, rest, value, s);
    CatSaid(names, WS, e6, none, Both(named, rest), [], value + s);
    d := Both(none, Both(named, rest));
    s := [] + (value + s);
    CatSaid(names, Char(':'), Cat(WS, e6), Leaf(colon), d, colon, s);
    var e4 := Cat(Char(':'), Cat(WS, e6));
    CatSaid(names, WS, e4, none, Both(Leaf(colon), d), [], colon + s);
    CatSaid(names, QuotedWord(TOOL_WORD), Cat(WS, e4), Leaf(key), Both(none, Both(Leaf(colon), d)), key,
      [] + (colon + s));
    d := Both(Leaf(key), Both(none, Both(Leaf(colon), d)));
    s := key + ([] + (colon + s));
    CatSaid(names, WS, Cat(QuotedWord(TOOL_WORD), Cat(WS, e4)), none, d, [], s);
    CatSaid(names, Char('{'), Cat(WS, Cat(QuotedWord(TOOL_WORD), Cat(WS, e4))), Leaf(open), Both(none, d), open,
      [] + s);
    d := Both(Leaf(open), Both(none, d));
    ToolSpelling([], [], [], name, [], [], [], [], args, []);
  }

  lemma {:induction false} NameSaid(names: seq<Text>, some: seq<Text>, name: Text) returns (d: Derivation)
    requires name in some
    ensures Says(names, NameAlternatives(some), d, [QUOTE] + name + [QUOTE])
  {
    hide Fits, Spell;
    var s := [QUOTE] + name + [QUOTE];
    if some[0] == name {
      WordSaid(names, s);
      d := Leaf(s);
      if |some| > 1 {
        LeftSaid(names, QuotedWord(name), NameAlternatives(some[1..]), d, s);
        d := Left(d);
      }
    } else {
      d := NameSaid(names, some[1..], name);
      RightSaid(names, QuotedWord(some[0]), NameAlternatives(some[1..]), d, s);
      d := Right(d);
    }
  }

  lemma {:induction false} LegalIsGood(t: Tree)
    requires Legal(t)
    ensures Good(t)
    decreases t, 1
  {
    match t
    case ArrayTree(_, items) => ItemsGood(items);
    case ObjectTree(_, members) => MembersGood(members);
    case StrTree(ps) => PiecesGood(ps);
    case NumberTree(_, _, _, e) => ExponentGood(e);
    case _ =>
  }

  lemma PiecesGood(ps: seq<Piece>)
    requires LegalPieces(ps)
    ensures GoodPieces(ps)
  {
    forall i | 0 <= i < |ps| ensures GoodPiece(ps[i]) {
      assert LegalPiece(ps[i]);
      if ps[i].Short? { LettersAre(ps[i].letter); }
    }
  }

  lemma ExponentGood(s: Text)
    requires LegalExponent(s)
    ensures GoodExponent(s)
  {
    if |s| >= 2 && IsDigit(s[1]) && NonZeros(s[2..]) { assert s[1..] == [s[1]] + s[2..]; }
      else if s != [] { assert s[2..] == [s[2]] + s[3..]; }
  }

  lemma {:induction false} ItemsGood(items: Items)
    requires LegalItems(items)
    ensures GoodItems(items)
    decreases items, 2
  {
    if items.Item? {
      LegalIsGood(items.value);
      ItemsGood(items.rest);
    }
  }

  lemma {:induction false} MembersGood(members: Members)
    requires LegalMembers(members)
    ensures GoodMembers(members)
    decreases members, 2
  {
    if members.Member? {
      PiecesGood(members.key);
      LegalIsGood(members.value);
      MembersGood(members.rest);
    }
  }

  /** A character as the grammar lets it be written. */
  function PieceOfChar(c: Code): Piece {
    if c == QUOTE || c == BACKSLASH then Short(c)
    else if 0 <= c < 0x20 || c == 0x7F then
      Unit(['0' as int, '0' as int, Sse.HexLower(c / 16), Sse.HexLower(c % 16)])
    else Plain(c)
  }

  function PiecesOfText(t: Text): (ps: seq<Piece>)
    ensures |ps| == |t|
  {
    if t == [] then [] else [PieceOfChar(t[0])] + PiecesOfText(t[1..])
  }

  lemma CharWritten(c: Code)
    requires 0 <= c
    ensures LegalPiece(PieceOfChar(c)) && GoodPiece(PieceOfChar(c)) && Lone(PieceOfChar(c)) == c
    ensures PieceOfChar(c).Unit? ==> IsHex4(PieceOfChar(c).hex) && Hex4(PieceOfChar(c).hex) <= 0x7F
  {
    if PieceOfChar(c).Unit? {
      var h := PieceOfChar(c).hex;
      assert 0 <= c / 16 < 8;
      assert HexDigit(Sse.HexLower(c / 16)) == c / 16 && HexDigit(Sse.HexLower(c % 16)) == c % 16;
      assert Hex4(h) == c;
    }
  }

  lemma {:induction false} TextWritten(t: Text)
    requires forall i :: 0 <= i < |t| ==> 0 <= t[i]
    ensures LegalPieces(PiecesOfText(t)) && GoodPieces(PiecesOfText(t)) && PiecesMeaning(PiecesOfText(t)) == t
  {
    hide LegalPiece, GoodPiece, PieceOfChar, Lone;
    if t != [] {
      CharWritten(t[0]);
      TextWritten(t[1..]);
      var ps := PiecesOfText(t);
      assert ps[1..] == PiecesOfText(t[1..]);
      assert !PairAt(ps, 0);
      assert t == [t[0]] + t[1..];
    }
  }

  /** Whatever the answer is, the grammar lets the model give it, and the parse hands
      it on word for word. */
  lemma AnyAnswer(py: Client.Python, names: seq<Text>, t: Text) returns (raw: Text)
    requires forall i :: 0 <= i < |t| ==> 0 <= t[i]
    ensures Utterable(names, RootRule, raw) && Client.Parse(py, raw) == Client.Answer(t, raw)
  {
    hide Fits, Spell, Client.Parse, LegalPiece, GoodPiece, Good, FinalTree, Yield;
    var ps := PiecesOfText(t);
    TextWritten(t);
    raw := AnswerSaid(names, ps);
    FinalGood([], [], [], ps, []);
    FinalParses(py, [], [], [], ps, []);
  }

  lemma AnswerSaid(names: seq<Text>, ps: seq<Piece>) returns (raw: Text)
    requires LegalPieces(ps)
    ensures raw == Yield(FinalTree([], [], [], ps, [])) && Utterable(names, RootRule, raw)
  {
    raw := Yield(FinalTree([], [], [], ps, []));
    var d := FinalSaid(names, [], [], [], ps, []);
    hide Fits, Spell, LegalPiece;
    if names != [] {
      RefSaid(names, FinalRule, d, raw);
      LeftSaid(names, Ref(FinalRule), Ref(FinalToolRule), Via(d), raw);
      RightSaid(names, Ref(ToolCallRule), Alt(Ref(FinalRule), Ref(FinalToolRule)), Left(Via(d)), raw);
      d := Right(Left(Via(d)));
    }
    RefSaid(names, RootRule, d, raw);
  }

  /** Whatever its arguments are, every registered tool can be called with them, and
      the parse hands on that name and those arguments. */
  lemma AnyCall(py: Client.Python, names: seq<Text>, name: Text, args: Tree) returns (raw: Text)
    requires name in names && IsPlain(name) && !Client.LowersToFinal(name)
    requires args.ObjectTree? && Legal(args)
    ensures Utterable(names, RootRule, raw) && Good(args)
    ensures Client.Parse(py, raw) == Client.Parsed(
      Client.Response([], raw, [Client.ParsedToolCall(name, Meaning(args).members)], false, false, false))
  {
    raw := Yield(ToolTree([], [], [], name, [], [], [], [], args, []));
    var named := NameSaid(names, names, name);
    RefSaid(names, ToolNameRule, named, [QUOTE] + name + [QUOTE]);
    var d := ToolSaid(names, Ref(ToolNameRule), Via(named), name, args);
    LegalIsGood(args);
    ToolIsGood([], [], [], name, [], [], [], [], args, []);
    ToolParses(py, [], [], [], name, [], [], [], [], args, []);
    hide Fits, Spell, Client.Parse, Client.LowersToFinal;
    RefSaid(names, ToolCallRule, d, raw);
    LeftSaid(names, Ref(ToolCallRule), Alt(Ref(FinalRule), Ref(FinalToolRule)), Via(d), raw);
    RefSaid(names, RootRule, Left(Via(d)), raw);
  }
}
