/** JSON texts (RFC 8259, sections 2 to 7) and Python's json.loads as a function
    on code points. A `Tree` is one way of writing a value down, with every blank
    and every escape spelled out; `Yield` is the text it spells and `Meaning` the
    value it denotes. The reader knows nothing of trees, and ReadsWhatIsWritten
    says it recovers the meaning of every one of them. */
module Json {
  import opened Codes

  // --- values ----------------------------------------------------------------

  datatype Value =
    | Null
    | Bool(b: bool)
    | Number(lexeme: Text)
    | Str(text: Text)
    | Array(items: seq<Value>)
    | Object(members: seq<(Text, Value)>)

  /** dict lookup: of several members with one key, the last one written wins. */
  function Get(members: seq<(Text, Value)>, key: Text): (r: Option<Value>)
    ensures r.Some? <==> exists i :: 0 <= i < |members| && members[i].0 == key
  {
    if members == [] then None
    else
      var later := Get(members[1..], key);
      if later.Some? then later
      else if members[0].0 == key then Some(members[0].1)
      else None
  }

  // --- the reader ------------------------------------------------------------

  predicate IsWs(c: Code) { c == 0x20 || c == 0x09 || c == 0x0A || c == 0x0D }

  predicate AllWs(s: Text) { forall i :: 0 <= i < |s| ==> IsWs(s[i]) }

  function SkipWs(s: Text): (r: Text)
    ensures |r| <= |s|
    ensures r == [] || !IsWs(r[0])
  {
    if s != [] && IsWs(s[0]) then SkipWs(s[1..]) else s
  }

  function Unescape(c: Code): Option<Code> {
    if c == QUOTE || c == BACKSLASH || c == 0x2F then Some(c)
    else if c == 'b' as int then Some(0x08)
    else if c == 'f' as int then Some(0x0C)
    else if c == 'n' as int then Some(0x0A)
    else if c == 'r' as int then Some(0x0D)
    else if c == 't' as int then Some(0x09)
    else None
  }

  /** A \uXXXX at the front of `s`, and what follows it. */
  function ReadUnit(s: Text): (r: Option<(Code, Text)>)
    ensures r.Some? ==> |r.value.1| == |s| - 6
  {
    if |s| >= 6 && s[0] == BACKSLASH && s[1] == 'u' as int && IsHex4(s[2..6])
    then Some((Hex4(s[2..6]), s[6..]))
    else None
  }

  /** A string's characters up to its closing quote, and what follows the quote.
      Strict, as json.loads is by default: a raw control character is an error. */
  function ReadString(s: Text): (r: Option<(Text, Text)>)
    ensures r.Some? ==> |r.value.1| < |s|
  {
    if s == [] then None
    else if s[0] == QUOTE then Some(([], s[1..]))
    else if s[0] == BACKSLASH then
      if |s| < 2 then None
      else if s[1] == 'u' as int then
        match ReadUnit(s)
        case None => None
        case Some((u, rest)) =>
          (match ReadUnit(rest)
           case Some((v, rest2)) =>
             if IsHigh(u) && IsLow(v) then Prepend(Join(u, v), ReadString(rest2))
             else Prepend(u, ReadString(rest))
           case None => Prepend(u, ReadString(rest)))
      else
        match Unescape(s[1])
        case None => None
        case Some(c) => Prepend(c, ReadString(s[2..]))
    else if s[0] < 0x20 then None
    else Prepend(s[0], ReadString(s[1..]))
  }

  function Prepend(c: Code, r: Option<(Text, Text)>): Option<(Text, Text)> {
    match r case None => None case Some((t, rest)) => Some(([c] + t, rest))
  }

  function CountDigits(s: Text): (n: nat)
    ensures n <= |s|
  {
    if s != [] && IsDigit(s[0]) then 1 + CountDigits(s[1..]) else 0
  }

  function FractionLength(s: Text): (n: nat)
    ensures n <= |s|
  {
    if |s| >= 2 && s[0] == '.' as int && IsDigit(s[1]) then 1 + CountDigits(s[1..]) else 0
  }

  predicate IsSign(c: Code) { c == '+' as int || c == '-' as int }

  predicate IsExp(c: Code) { c == 'e' as int || c == 'E' as int }

  function ExponentLength(s: Text): (n: nat)
    ensures n <= |s|
  {
    if |s| >= 2 && IsExp(s[0]) then
      var sign := if IsSign(s[1]) then 2 else 1;
      var digits := CountDigits(s[sign..]);
      if digits > 0 then sign + digits else 0
    else 0
  }

  /** What follows the number at the front of `s`. */
  function AfterNumber(s: Text): (r: Option<Text>)
    ensures r.Some? ==> |r.value| < |s|
  {
    var unsigned := if s != [] && s[0] == '-' as int then s[1..] else s;
    if unsigned == [] || !IsDigit(unsigned[0]) then None
    else
      var r1 := unsigned[if unsigned[0] == '0' as int then 1 else CountDigits(unsigned)..];
      var r2 := r1[FractionLength(r1)..];
      Some(r2[ExponentLength(r2)..])
  }

  /** A number's lexeme, and what follows it. */
  function ReadNumber(s: Text): (r: Option<(Text, Text)>)
    ensures r.Some? ==> |r.value.1| < |s|
  {
    match AfterNumber(s)
    case None => None
    case Some(rest) => Some((s[..|s| - |rest|], rest))
  }

  const TRUE_WORD: Text := Lit("true")
  const FALSE_WORD: Text := Lit("false")
  const NULL_WORD: Text := Lit("null")
  const NAN_WORD: Text := Lit("NaN")
  const INFINITY_WORD: Text := Lit("Infinity")
  const MINUS_INFINITY_WORD: Text := Lit("-Infinity")

  /** One value at the front of `s`, and what follows it. */
  function ReadValue(s: Text): (r: Option<(Value, Text)>)
    ensures r.Some? ==> |r.value.1| < |s|
    decreases |s|, 1
  {
    if s == [] then None
    else if s[0] == QUOTE then
      (match ReadString(s[1..])
       case None => None
       case Some((t, rest)) => Some((Str(t), rest)))
    else if s[0] == '{' as int then
      var r := SkipWs(s[1..]);
      if r != [] && r[0] == '}' as int then Some((Object([]), r[1..]))
      else
        (match ReadMembers(r)
         case None => None
         case Some((ms, rest)) => Some((Object(ms), rest)))
    else if s[0] == '[' as int then
      var r := SkipWs(s[1..]);
      if r != [] && r[0] == ']' as int then Some((Array([]), r[1..]))
      else
        (match ReadItems(r)
         case None => None
         case Some((vs, rest)) => Some((Array(vs), rest)))
    else ReadWord(s)
  }

  /** Literals, the constants json.loads adds to RFC 8259, and numbers. */
  function ReadWord(s: Text): (r: Option<(Value, Text)>)
    requires s != []
    ensures r.Some? ==> |r.value.1| < |s|
  {
    if NULL_WORD <= s then Some((Null, s[4..]))
    else if TRUE_WORD <= s then Some((Bool(true), s[4..]))
    else if FALSE_WORD <= s then Some((Bool(false), s[5..]))
    else if NAN_WORD <= s then Some((Number(NAN_WORD), s[3..]))
    else if INFINITY_WORD <= s then Some((Number(INFINITY_WORD), s[8..]))
    else if MINUS_INFINITY_WORD <= s then Some((Number(MINUS_INFINITY_WORD), s[9..]))
    else
      match ReadNumber(s)
      case None => None
      case Some((lexeme, rest)) => Some((Number(lexeme), rest))
  }

  /** Members from the key's quote to the closing brace. */
  function ReadMembers(s: Text): (r: Option<(seq<(Text, Value)>, Text)>)
    ensures r.Some? ==> |r.value.1| < |s|
    decreases |s|, 0
  {
    if s == [] || s[0] != QUOTE then None
    else
      match ReadString(s[1..])
      case None => None
      case Some((key, r0)) =>
        var r1 := SkipWs(r0);
        if r1 == [] || r1[0] != ':' as int then None
        else
          match ReadValue(SkipWs(r1[1..]))
          case None => None
          case Some((v, r2)) =>
            var r3 := SkipWs(r2);
            if r3 == [] then None
            else if r3[0] == '}' as int then Some(([(key, v)], r3[1..]))
            else if r3[0] == ',' as int then
              (match ReadMembers(SkipWs(r3[1..]))
               case None => None
               case Some((ms, rest)) => Some(([(key, v)] + ms, rest)))
            else None
  }

  /** Items up to the closing bracket. */
  function ReadItems(s: Text): (r: Option<(seq<Value>, Text)>)
    ensures r.Some? ==> |r.value.1| < |s|
    decreases |s|, 2
  {
    match ReadValue(s)
    case None => None
    case Some((v, r0)) =>
      var r1 := SkipWs(r0);
      if r1 == [] then None
      else if r1[0] == ']' as int then Some(([v], r1[1..]))
      else if r1[0] == ',' as int then
        (match ReadItems(SkipWs(r1[1..]))
         case None => None
         case Some((vs, rest)) => Some(([v] + vs, rest)))
      else None
  }

  const BOM: Code := 0xFEFF

  /** json.loads: one value, blanks around it, and nothing else. */
  function Loads(s: Text): Option<Value> {
    if s != [] && s[0] == BOM then None
    else
      match ReadValue(SkipWs(s))
      case None => None
      case Some((v, rest)) => if SkipWs(rest) == [] then Some(v) else None
  }

  // --- ways of writing a value -------------------------------------------------

  datatype Piece = Plain(c: Code) | Short(letter: Code) | Unit(hex: Text)

  predicate GoodPiece(p: Piece) {
    match p
    case Plain(c) => c != QUOTE && c != BACKSLASH && c >= 0x20
    case Short(letter) => Unescape(letter).Some?
    case Unit(hex) => IsHex4(hex)
  }

  predicate GoodPieces(ps: seq<Piece>) { forall i :: 0 <= i < |ps| ==> GoodPiece(ps[i]) }

  function YieldPiece(p: Piece): (t: Text)
    ensures |t| >= 1
  {
    match p
    case Plain(c) => [c]
    case Short(letter) => [BACKSLASH, letter]
    case Unit(hex) => [BACKSLASH, 'u' as int] + hex
  }

  function YieldPieces(ps: seq<Piece>): Text {
    if ps == [] then [] else YieldPiece(ps[0]) + YieldPieces(ps[1..])
  }

  /** What one piece denotes when nothing is joined to it. */
  function Lone(p: Piece): Code
    requires GoodPiece(p)
  {
    match p
    case Plain(c) => c
    case Short(letter) => Unescape(letter).value
    case Unit(hex) => Hex4(hex)
  }

  predicate PairAt(ps: seq<Piece>, i: int) {
    && 0 <= i < |ps| - 1
    && ps[i].Unit? && ps[i + 1].Unit?
    && IsHex4(ps[i].hex) && IsHex4(ps[i + 1].hex)
    && IsHigh(Hex4(ps[i].hex)) && IsLow(Hex4(ps[i + 1].hex))
  }

  /** Section 7: a high and a low surrogate escape side by side are one character. */
  function PiecesMeaning(ps: seq<Piece>): Text
    requires GoodPieces(ps)
  {
    if ps == [] then []
    else if PairAt(ps, 0) then [Join(Hex4(ps[0].hex), Hex4(ps[1].hex))] + PiecesMeaning(ps[2..])
    else [Lone(ps[0])] + PiecesMeaning(ps[1..])
  }

  /** `w` is the blank space in front of the part it is named with. */
  datatype Tree =
    | NullTree
    | BoolTree(b: bool)
    | NumberTree(minus: bool, digits: Text, fraction: Text, exponent: Text)
    | StrTree(pieces: seq<Piece>)
    | ArrayTree(w: Text, items: Items)
    | ObjectTree(w: Text, members: Members)

  datatype Items = NoItems | Item(value: Tree, wEnd: Text, wNext: Text, rest: Items)

  datatype Members =
    | NoMembers
    | Member(key: seq<Piece>, wColon: Text, wValue: Text, value: Tree, wEnd: Text, wNext: Text, rest: Members)

  predicate AllDigits(s: Text) { forall i :: 0 <= i < |s| ==> IsDigit(s[i]) }

  predicate GoodDigits(s: Text) {
    s != [] && AllDigits(s) && (s[0] == '0' as int ==> |s| == 1)
  }

  predicate GoodFraction(s: Text) {
    s == [] || (|s| >= 2 && s[0] == '.' as int && AllDigits(s[1..]))
  }

  predicate GoodExponent(s: Text) {
    || s == []
    || (|s| >= 2 && IsExp(s[0]) && AllDigits(s[1..]))
    || (|s| >= 3 && IsExp(s[0]) && IsSign(s[1]) && AllDigits(s[2..]))
  }

  predicate Good(t: Tree)
    decreases t
  {
    match t
    case NullTree => true
    case BoolTree(_) => true
    case NumberTree(_, d, f, e) => GoodDigits(d) && GoodFraction(f) && GoodExponent(e)
    case StrTree(ps) => GoodPieces(ps)
    case ArrayTree(w, items) => AllWs(w) && GoodItems(items)
    case ObjectTree(w, members) => AllWs(w) && GoodMembers(members)
  }

  predicate GoodItems(items: Items)
    decreases items
  {
    match items
    case NoItems => true
    case Item(v, w1, w2, rest) => Good(v) && AllWs(w1) && AllWs(w2) && GoodItems(rest)
  }

  predicate GoodMembers(members: Members)
    decreases members
  {
    match members
    case NoMembers => true
    case Member(key, w0, w1, v, w2, w3, rest) =>
      && GoodPieces(key) && AllWs(w0) && AllWs(w1) && Good(v) && AllWs(w2) && AllWs(w3)
      && GoodMembers(rest)
  }

  function Quoted(ps: seq<Piece>): Text { [QUOTE] + YieldPieces(ps) + [QUOTE] }

  function NumberText(minus: bool, digits: Text, fraction: Text, exponent: Text): Text {
    (if minus then ['-' as int] else []) + digits + fraction + exponent
  }

  function Yield(t: Tree): Text
    decreases t
  {
    match t
    case NullTree => NULL_WORD
    case BoolTree(b) => if b then TRUE_WORD else FALSE_WORD
    case NumberTree(m, d, f, e) => NumberText(m, d, f, e)
    case StrTree(ps) => Quoted(ps)
    case ArrayTree(w, items) => ['[' as int] + w + YieldItems(items) + [']' as int]
    case ObjectTree(w, members) => ['{' as int] + w + YieldMembers(members) + ['}' as int]
  }

  function YieldItems(items: Items): Text
    decreases items
  {
    match items
    case NoItems => []
    case Item(v, w1, w2, rest) =>
      Yield(v) + w1 + (if rest.NoItems? then [] else [',' as int] + w2 + YieldItems(rest))
  }

  function YieldMembers(members: Members): Text
    decreases members
  {
    match members
    case NoMembers => []
    case Member(key, w0, w1, v, w2, w3, rest) =>
      Quoted(key) + w0 + [':' as int] + w1 + Yield(v) + w2
      + (if rest.NoMembers? then [] else [',' as int] + w3 + YieldMembers(rest))
  }

  function Meaning(t: Tree): Value
    requires Good(t)
    decreases t
  {
    match t
    case NullTree => Null
    case BoolTree(b) => Bool(b)
    case NumberTree(m, d, f, e) => Number(NumberText(m, d, f, e))
    case StrTree(ps) => Str(PiecesMeaning(ps))
    case ArrayTree(w, items) => Array(ItemsMeaning(items))
    case ObjectTree(w, members) => Object(MembersMeaning(members))
  }

  function ItemsMeaning(items: Items): seq<Value>
    requires GoodItems(items)
    decreases items
  {
    match items
    case NoItems => []
    case Item(v, w1, w2, rest) => [Meaning(v)] + ItemsMeaning(rest)
  }

  function MembersMeaning(members: Members): seq<(Text, Value)>
    requires GoodMembers(members)
    decreases members
  {
    match members
    case NoMembers => []
    case Member(key, w0, w1, v, w2, w3, rest) =>
      [(PiecesMeaning(key), Meaning(v))] + MembersMeaning(rest)
  }

  // --- reading what was written ------------------------------------------------

  /** `s` cannot be mistaken for more of the number in front of it. */
  predicate Stops(s: Text) {
    s == [] || (!IsDigit(s[0]) && s[0] != '.' as int && !IsExp(s[0]))
  }

  lemma {:induction false} SkipWsOver(w: Text, s: Text)
    requires AllWs(w)
    ensures SkipWs(w + s) == SkipWs(s)
  {
    if w != [] {
      assert (w + s)[1..] == w[1..] + s;
      SkipWsOver(w[1..], s);
    } else {
      assert w + s == s;
    }
  }

  lemma SkipWsStops(w: Text, s: Text)
    requires AllWs(w)
    requires s != [] && !IsWs(s[0])
    ensures SkipWs(w + s) == s
  {
    SkipWsOver(w, s);
  }

  lemma ReadUnitYield(hex: Text, rest: Text)
    requires IsHex4(hex)
    ensures ReadUnit(YieldPiece(Unit(hex)) + rest) == Some((Hex4(hex), rest))
  {
    var s := YieldPiece(Unit(hex)) + rest;
    assert s[2..6] == hex;
    assert s[6..] == rest;
  }

  lemma ReadUnitOther(p: Piece, rest: Text)
    requires GoodPiece(p) && !p.Unit?
    ensures ReadUnit(YieldPiece(p) + rest) == None
  {
    var s := YieldPiece(p) + rest;
    if p.Short? {
      assert s[1] == p.letter;
    }
  }

  lemma ReadPlain(c: Code, tail: Text)
    requires GoodPiece(Plain(c))
    ensures ReadString([c] + tail) == Prepend(c, ReadString(tail))
  {
    assert ([c] + tail)[1..] == tail;
  }

  lemma ReadShort(letter: Code, tail: Text)
    requires GoodPiece(Short(letter))
    ensures ReadString([BACKSLASH, letter] + tail) == Prepend(Unescape(letter).value, ReadString(tail))
  {
    var s := [BACKSLASH, letter] + tail;
    assert s[0] == BACKSLASH && s[1] == letter && s[2..] == tail;
  }

  lemma ReadLoneUnit(hex: Text, tail: Text)
    requires IsHex4(hex)
    requires ReadUnit(tail).None? || !IsHigh(Hex4(hex)) || !IsLow(ReadUnit(tail).value.0)
    ensures ReadString(YieldPiece(Unit(hex)) + tail) == Prepend(Hex4(hex), ReadString(tail))
  {
    ReadUnitYield(hex, tail);
  }

  lemma ReadPair(high: Text, low: Text, tail: Text)
    requires IsHex4(high) && IsHex4(low) && IsHigh(Hex4(high)) && IsLow(Hex4(low))
    ensures ReadString(YieldPiece(Unit(high)) + (YieldPiece(Unit(low)) + tail))
         == Prepend(Join(Hex4(high), Hex4(low)), ReadString(tail))
  {
    ReadUnitYield(high, YieldPiece(Unit(low)) + tail);
    ReadUnitYield(low, tail);
  }

  lemma YieldPiecesCons(ps: seq<Piece>, rest: Text)
    requires ps != []
    ensures YieldPieces(ps) + [QUOTE] + rest == YieldPiece(ps[0]) + (YieldPieces(ps[1..]) + [QUOTE] + rest)
  {
  }

  lemma {:induction false} ReadStringYield(ps: seq<Piece>, rest: Text)
    requires GoodPieces(ps)
    ensures ReadString(YieldPieces(ps) + [QUOTE] + rest) == Some((PiecesMeaning(ps), rest))
    decreases |ps|
  {
    if ps == [] {
      assert (YieldPieces(ps) + [QUOTE] + rest)[1..] == rest;
    } else if PairAt(ps, 0) {
      YieldPiecesCons(ps, rest);
      YieldPiecesCons(ps[1..], rest);
      assert ps[1..][1..] == ps[2..];
      ReadStringYield(ps[2..], rest);
      ReadPair(ps[0].hex, ps[1].hex, YieldPieces(ps[2..]) + [QUOTE] + rest);
    } else {
      YieldPiecesCons(ps, rest);
      ReadStringYield(ps[1..], rest);
      ReadLonePiece(ps, rest);
    }
  }

  lemma ReadLonePiece(ps: seq<Piece>, rest: Text)
    requires GoodPieces(ps) && ps != [] && !PairAt(ps, 0)
    ensures var tail := YieldPieces(ps[1..]) + [QUOTE] + rest;
      ReadString(YieldPiece(ps[0]) + tail) == Prepend(Lone(ps[0]), ReadString(tail))
  {
    var tail := YieldPieces(ps[1..]) + [QUOTE] + rest;
    match ps[0] {
      case Plain(c) => ReadPlain(c, tail);
      case Short(letter) => ReadShort(letter, tail);
      case Unit(hex) =>
        if |ps| == 1 {
          assert tail[0] == QUOTE;
        } else {
          YieldPiecesCons(ps[1..], rest);
          var tail2 := YieldPieces(ps[1..][1..]) + [QUOTE] + rest;
          if ps[1].Unit? { ReadUnitYield(ps[1].hex, tail2); } else { ReadUnitOther(ps[1], tail2); }
        }
        ReadLoneUnit(hex, tail);
    }
  }

  lemma {:induction false} CountDigitsOver(d: Text, rest: Text)
    requires AllDigits(d)
    requires rest == [] || !IsDigit(rest[0])
    ensures CountDigits(d + rest) == |d|
  {
    if d == [] {
      assert d + rest == rest;
    } else {
      assert (d + rest)[1..] == d[1..] + rest;
      CountDigitsOver(d[1..], rest);
    }
  }

  lemma FractionOver(f: Text, rest: Text)
    requires GoodFraction(f)
    requires rest == [] || (!IsDigit(rest[0]) && rest[0] != '.' as int)
    ensures FractionLength(f + rest) == |f|
  {
    if f == [] {
      assert f + rest == rest;
    } else {
      assert (f + rest)[1..] == f[1..] + rest;
      CountDigitsOver(f[1..], rest);
    }
  }

  lemma ExponentOver(e: Text, rest: Text)
    requires GoodExponent(e)
    requires Stops(rest)
    ensures ExponentLength(e + rest) == |e|
  {
    if e == [] {
      assert e + rest == rest;
    } else {
      var sign := if IsSign(e[1]) then 2 else 1;
      assert (e + rest)[sign..] == e[sign..] + rest;
      CountDigitsOver(e[sign..], rest);
    }
  }

  lemma DigitsOver(d: Text, f: Text, e: Text, rest: Text)
    requires GoodDigits(d) && GoodFraction(f) && GoodExponent(e) && Stops(rest)
    ensures CountDigits(d + (f + (e + rest))) == |d|
    ensures FractionLength(f + (e + rest)) == |f|
    ensures ExponentLength(e + rest) == |e|
  {
    ExponentOver(e, rest);
    assert e + rest == [] || (!IsDigit((e + rest)[0]) && (e + rest)[0] != '.' as int) by {
      if e == [] { assert e + rest == rest; }
    }
    FractionOver(f, e + rest);
    var after := f + (e + rest);
    assert after == [] || !IsDigit(after[0]) by {
      if f == [] { assert after == e + rest; }
    }
    CountDigitsOver(d, after);
  }

  lemma AfterNumberYield(minus: bool, d: Text, f: Text, e: Text, rest: Text)
    requires GoodDigits(d) && GoodFraction(f) && GoodExponent(e)
    requires Stops(rest)
    ensures AfterNumber((if minus then ['-' as int] else []) + (d + (f + (e + rest)))) == Some(rest)
  {
    hide CountDigits, FractionLength, ExponentLength, GoodFraction, GoodExponent, Stops;
    var u := d + (f + (e + rest));
    DigitsOver(d, f, e, rest);
    assert u[0] == d[0];
    if minus { DropPrefix(['-' as int], u); } else { assert [] + u == u; }
    assert d[0] == '0' as int ==> |d| == 1;
    DropPrefix(d, f + (e + rest));
    DropPrefix(f, e + rest);
    DropPrefix(e, rest);
  }

  lemma DropPrefix(a: Text, b: Text)
    ensures (a + b)[|a|..] == b
  {
  }

  lemma ReadNumberYield(minus: bool, d: Text, f: Text, e: Text, rest: Text)
    requires GoodDigits(d) && GoodFraction(f) && GoodExponent(e)
    requires Stops(rest)
    ensures ReadNumber(NumberText(minus, d, f, e) + rest) == Some((NumberText(minus, d, f, e), rest))
  {
    hide AfterNumber, GoodDigits, GoodFraction, GoodExponent, Stops;
    var s := NumberText(minus, d, f, e) + rest;
    var sign := if minus then ['-' as int] else [];
    assert s == sign + (d + (f + (e + rest))) by {
      assert s == sign + d + f + (e + rest);
    }
    AfterNumberYield(minus, d, f, e, rest);
    assert s[..|s| - |rest|] == NumberText(minus, d, f, e);
  }

  lemma ReadWordNumber(minus: bool, d: Text, f: Text, e: Text, rest: Text)
    requires GoodDigits(d) && GoodFraction(f) && GoodExponent(e)
    requires Stops(rest)
    ensures ReadValue(NumberText(minus, d, f, e) + rest) == Some((Number(NumberText(minus, d, f, e)), rest))
  {
    hide ReadNumber, ReadValue, ReadWord, GoodFraction, GoodExponent, Stops;
    var s := NumberText(minus, d, f, e) + rest;
    ReadNumberYield(minus, d, f, e, rest);
    assert s[0] == if minus then '-' as int else d[0];
    assert minus ==> s[1] == d[0];
    NotAWord(s);
  }

  lemma NotAWord(s: Text)
    requires s != [] && (IsDigit(s[0]) || (|s| > 1 && s[0] == '-' as int && IsDigit(s[1])))
    ensures ReadValue(s) == match ReadNumber(s)
                            case None => None
                            case Some((lexeme, rest)) => Some((Number(lexeme), rest))
  {
    hide ReadNumber, ReadString, ReadMembers, ReadItems, SkipWs;
    assert ReadValue(s) == ReadWord(s);
    NoWordStarts(s);
  }

  lemma NoWordStarts(s: Text)
    requires s != [] && (IsDigit(s[0]) || (|s| > 1 && s[0] == '-' as int && IsDigit(s[1])))
    ensures !(NULL_WORD <= s) && !(TRUE_WORD <= s) && !(FALSE_WORD <= s)
    ensures !(NAN_WORD <= s) && !(INFINITY_WORD <= s) && !(MINUS_INFINITY_WORD <= s)
  {
    WordLetters();
    Differs(NULL_WORD, s, 0);
    Differs(TRUE_WORD, s, 0);
    Differs(FALSE_WORD, s, 0);
    Differs(NAN_WORD, s, 0);
    Differs(INFINITY_WORD, s, 0);
    Differs(MINUS_INFINITY_WORD, s, if IsDigit(s[0]) then 0 else 1);
  }

  lemma WordLetters()
    ensures |NULL_WORD| == 4 && NULL_WORD[0] == 'n' as int
    ensures |TRUE_WORD| == 4 && TRUE_WORD[0] == 't' as int
    ensures |FALSE_WORD| == 5 && FALSE_WORD[0] == 'f' as int
    ensures |NAN_WORD| == 3 && NAN_WORD[0] == 'N' as int
    ensures |INFINITY_WORD| == 8 && INFINITY_WORD[0] == 'I' as int
    ensures |MINUS_INFINITY_WORD| == 9 && MINUS_INFINITY_WORD[0] == '-' as int && MINUS_INFINITY_WORD[1] == 'I' as int
  {
  }

  lemma Differs(word: Text, s: Text, i: nat)
    requires i < |word| && i < |s| && word[i] != s[i]
    ensures !(word <= s)
  {
  }

  lemma ReadWordLiteral(t: Tree, rest: Text)
    requires t.NullTree? || t.BoolTree?
    ensures ReadValue(Yield(t) + rest) == Some((Meaning(t), rest))
  {
    var s := Yield(t) + rest;
    assert Yield(t) <= s;
    assert s[|Yield(t)|..] == rest;
    assert NULL_WORD[0] == 'n' as int && TRUE_WORD[0] == 't' as int && FALSE_WORD[0] == 'f' as int;
    assert s[0] == Yield(t)[0];
  }

  lemma YieldStart(t: Tree)
    requires Good(t)
    ensures Yield(t) != [] && !IsWs(Yield(t)[0])
    ensures Yield(t)[0] != ']' as int && Yield(t)[0] != '}' as int
  {
    match t {
      case NumberTree(m, d, f, e) =>
        assert Yield(t)[0] == if m then '-' as int else d[0];
      case NullTree => assert NULL_WORD[0] == 'n' as int;
      case BoolTree(b) => assert TRUE_WORD[0] == 't' as int && FALSE_WORD[0] == 'f' as int;
      case _ =>
    }
  }

  /** The reader recovers the meaning of every way of writing every value, and
      stops exactly where the writing stops. */
  lemma {:induction false} ReadsWhatIsWritten(t: Tree, rest: Text)
    requires Good(t) && Stops(rest)
    ensures ReadValue(Yield(t) + rest) == Some((Meaning(t), rest))
    decreases t
  {
    match t {
      case NullTree => ReadWordLiteral(t, rest);
      case BoolTree(_) => ReadWordLiteral(t, rest);
      case NumberTree(m, d, f, e) => ReadWordNumber(m, d, f, e, rest);
      case StrTree(ps) =>
        assert (Quoted(ps) + rest)[1..] == YieldPieces(ps) + [QUOTE] + rest;
        ReadStringYield(ps, rest);
      case ArrayTree(w, items) =>
        if items.Item? { ReadsItems(items, rest); }
        ReadsArray(w, items, rest);
      case ObjectTree(w, members) =>
        if members.Member? { ReadsMembers(members, rest); }
        ReadsObject(w, members, rest);
    }
  }

  lemma ReadsArray(w: Text, items: Items, rest: Text)
    requires AllWs(w) && GoodItems(items)
    requires items.Item? ==> ReadItems(YieldItems(items) + [']' as int] + rest) == Some((ItemsMeaning(items), rest))
    ensures ReadValue(Yield(ArrayTree(w, items)) + rest) == Some((Array(ItemsMeaning(items)), rest))
  {
    hide ReadItems, ReadMembers, ReadString, ReadWord, SkipWs;
    var s := Yield(ArrayTree(w, items)) + rest;
    var body := YieldItems(items) + [']' as int] + rest;
    assert s[1..] == w + body;
    if items.NoItems? {
      assert body == [']' as int] + rest;
    } else {
      YieldStart(items.value);
      assert body[0] == Yield(items.value)[0];
    }
    SkipWsStops(w, body);
    assert s[0] == '[' as int;
    assert items.NoItems? ==> body[1..] == rest;
  }

  lemma ReadsObject(w: Text, members: Members, rest: Text)
    requires AllWs(w) && GoodMembers(members)
    requires members.Member? ==>
      ReadMembers(YieldMembers(members) + ['}' as int] + rest) == Some((MembersMeaning(members), rest))
    ensures ReadValue(Yield(ObjectTree(w, members)) + rest) == Some((Object(MembersMeaning(members)), rest))
  {
    hide ReadItems, ReadMembers, ReadString, ReadWord, SkipWs;
    var s := Yield(ObjectTree(w, members)) + rest;
    var body := YieldMembers(members) + ['}' as int] + rest;
    assert s[1..] == w + body;
    if members.NoMembers? {
      assert body == ['}' as int] + rest;
    } else {
      assert body[0] == QUOTE;
    }
    SkipWsStops(w, body);
    assert s[0] == '{' as int;
    assert members.NoMembers? ==> body[1..] == rest;
  }

  /** One item read, the text after it being `after`. */
  lemma ItemStep(v: Tree, w1: Text, after: Text)
    requires Good(v) && AllWs(w1)
    requires after != [] && (after[0] == ',' as int || after[0] == ']' as int)
    requires ReadValue(Yield(v) + (w1 + after)) == Some((Meaning(v), w1 + after))
    ensures ReadItems(Yield(v) + (w1 + after))
         == if after[0] == ']' as int then Some(([Meaning(v)], after[1..]))
            else match ReadItems(SkipWs(after[1..]))
                 case None => None
                 case Some((vs, rest)) => Some(([Meaning(v)] + vs, rest))
  {
    SkipWsStops(w1, after);
  }

  lemma {:induction false} ReadsItems(items: Items, rest: Text)
    requires GoodItems(items) && items.Item?
    ensures ReadItems(YieldItems(items) + [']' as int] + rest) == Some((ItemsMeaning(items), rest))
    decreases items
  {
    hide ReadItems, ReadMembers, ReadValue, SkipWs, Yield, Meaning, Good, Stops;
    var Item(v, w1, w2, more) := items;
    var next := YieldItems(more) + [']' as int] + rest;
    var after := if more.NoItems? then [']' as int] + rest else [',' as int] + (w2 + next);
    assert YieldItems(items) + [']' as int] + rest == Yield(v) + (w1 + after);
    BlankStops(w1, after);
    ReadsWhatIsWritten(v, w1 + after);
    ItemStep(v, w1, after);
    if more.NoItems? {
      assert after[1..] == rest;
      assert ItemsMeaning(items) == [Meaning(v)];
    } else {
      assert after[1..] == w2 + next;
      YieldStart(more.value);
      assert next[0] == Yield(more.value)[0];
      SkipWsStops(w2, next);
      ReadsItems(more, rest);
    }
  }

  lemma BlankStops(w: Text, after: Text)
    requires AllWs(w)
    requires after != [] && (after[0] == ',' as int || after[0] == ']' as int || after[0] == '}' as int)
    ensures Stops(w + after)
  {
    if w != [] { assert (w + after)[0] == w[0]; } else { assert w + after == after; }
  }

  /** One member read, the text after its value being `after`. */
  lemma MemberStep(key: seq<Piece>, w0: Text, w1: Text, v: Tree, w2: Text, after: Text)
    requires GoodPieces(key) && AllWs(w0) && AllWs(w1) && Good(v) && AllWs(w2)
    requires after != [] && (after[0] == ',' as int || after[0] == '}' as int)
    requires ReadValue(Yield(v) + (w2 + after)) == Some((Meaning(v), w2 + after))
    ensures ReadMembers(Quoted(key) + (w0 + ([':' as int] + (w1 + (Yield(v) + (w2 + after))))))
         == if after[0] == '}' as int then Some(([(PiecesMeaning(key), Meaning(v))], after[1..]))
            else match ReadMembers(SkipWs(after[1..]))
                 case None => None
                 case Some((ms, rest)) => Some(([(PiecesMeaning(key), Meaning(v))] + ms, rest))
  {
    hide ReadValue, ReadString, ReadItems, SkipWs, Yield, YieldPieces, Meaning, PiecesMeaning, Good, GoodPieces;
    var value := Yield(v) + (w2 + after);
    var colon := [':' as int] + (w1 + value);
    var s := Quoted(key) + (w0 + colon);
    assert s[1..] == YieldPieces(key) + [QUOTE] + (w0 + colon);
    ReadStringYield(key, w0 + colon);
    SkipWsStops(w0, colon);
    assert colon[1..] == w1 + value;
    YieldStart(v);
    assert value[0] == Yield(v)[0];
    SkipWsStops(w1, value);
    SkipWsStops(w2, after);
  }

  lemma Reassociate(a: Text, b: Text, c: Text, d: Text, e: Text, f: Text, g: Text)
    ensures a + b + c + d + e + f + g == a + (b + (c + (d + (e + (f + g)))))
  {
    var efg := e + (f + g);
    assert a + b + c + d + e + f + g == a + b + c + d + efg;
    assert a + b + c + d + efg == a + b + (c + (d + efg));
  }

  lemma YieldMembersCons(members: Members, rest: Text)
    requires members.Member?
    ensures var Member(key, w0, w1, v, w2, w3, more) := members;
      var next := YieldMembers(more) + ['}' as int] + rest;
      var after := if more.NoMembers? then ['}' as int] + rest else [',' as int] + (w3 + next);
      YieldMembers(members) + ['}' as int] + rest
        == Quoted(key) + (w0 + ([':' as int] + (w1 + (Yield(v) + (w2 + after)))))
  {
    var Member(key, w0, w1, v, w2, w3, more) := members;
    var y := YieldMembers(more);
    var close := ['}' as int] + rest;
    var after := if more.NoMembers? then close else [',' as int] + (w3 + (y + ['}' as int] + rest));
    var tail := if more.NoMembers? then [] else [',' as int] + w3 + y;
    CommaThen(w3, y, rest);
    assert [] + close == close;
    assert tail + close == after;
    Reassociate(Quoted(key), w0, [':' as int], w1, Yield(v), w2, after);
    Associate(Quoted(key) + w0 + [':' as int] + w1 + Yield(v) + w2, tail, close);
    Associate(YieldMembers(members), ['}' as int], rest);
  }

  lemma Associate(a: Text, b: Text, c: Text)
    ensures (a + b) + c == a + (b + c)
  {
  }

  lemma CommaThen(w3: Text, y: Text, rest: Text)
    ensures [',' as int] + (w3 + (y + ['}' as int] + rest)) == ([',' as int] + w3 + y) + (['}' as int] + rest)
  {
  }

  lemma {:induction false} ReadsMembers(members: Members, rest: Text)
    requires GoodMembers(members) && members.Member?
    ensures ReadMembers(YieldMembers(members) + ['}' as int] + rest) == Some((MembersMeaning(members), rest))
    decreases members
  {
    hide ReadItems, ReadMembers, ReadValue, SkipWs, Yield, Meaning, Good, Stops, PiecesMeaning, GoodPieces, YieldPieces;
    var Member(key, w0, w1, v, w2, w3, more) := members;
    var next := YieldMembers(more) + ['}' as int] + rest;
    var after := if more.NoMembers? then ['}' as int] + rest else [',' as int] + (w3 + next);
    YieldMembersCons(members, rest);
    BlankStops(w2, after);
    ReadsWhatIsWritten(v, w2 + after);
    MemberStep(key, w0, w1, v, w2, after);
    if more.NoMembers? {
      assert after[1..] == rest;
      assert MembersMeaning(members) == [(PiecesMeaning(key), Meaning(v))];
    } else {
      assert after[1..] == w3 + next;
      assert next[0] == QUOTE;
      SkipWsStops(w3, next);
      ReadsMembers(more, rest);
    }
  }

  /** json.loads accepts every JSON text, with blanks before and after, and
      returns what it denotes. */
  lemma LoadsWhatIsWritten(before: Text, t: Tree, after: Text)
    requires AllWs(before) && Good(t) && AllWs(after)
    ensures Loads(before + Yield(t) + after) == Some(Meaning(t))
  {
    var s := before + Yield(t) + after;
    assert s == before + (Yield(t) + after);
    YieldStart(t);
    assert (Yield(t) + after)[0] == Yield(t)[0];
    SkipWsStops(before, Yield(t) + after);
    assert s[0] == if before == [] then Yield(t)[0] else before[0];
    NotBom(t);
    assert Stops(after);
    ReadsWhatIsWritten(t, after);
    SkipWsOver(after, []);
    assert after + [] == after;
  }

  lemma NotBom(t: Tree)
    requires Good(t)
    ensures Yield(t) != [] && Yield(t)[0] != BOM
  {
    match t {
      case NumberTree(m, d, f, e) =>
        assert Yield(t)[0] == if m then '-' as int else d[0];
      case NullTree => assert NULL_WORD[0] == 'n' as int;
      case BoolTree(b) => assert TRUE_WORD[0] == 't' as int && FALSE_WORD[0] == 'f' as int;
      case _ =>
    }
  }
}
