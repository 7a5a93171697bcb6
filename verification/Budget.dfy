/** Fitting tool output into a token budget (ragsvc/ragbudget.py). */
module Budget {
  import opened Codes

  // --- the fallback estimator ---------------------------------------------------------------

  /** int(len(text) / 3.4) + 1, with 3.4 as 17/5; nothing costs nothing. */
  function CountChars(n: nat): nat { if n == 0 then 0 else n * 5 / 17 + 1 }

  function Count(text: Text): nat { CountChars(|text|) }

  /** int(budget * 3.4). */
  function CharsFor(budget: nat): nat { budget * 17 / 5 }

  lemma CharsForBounds(budget: nat)
    ensures 17 * budget - 4 <= 5 * CharsFor(budget) <= 17 * budget
    ensures 5 * CharsFor(budget) == 17 * budget <==> budget % 5 == 0
  {
  }

  lemma CountBounds(n: nat)
    ensures n > 0 ==> 17 * (CountChars(n) - 1) <= 5 * n < 17 * CountChars(n)
  {
  }

  /** The estimate is over the budget exactly when the characters reach 17/5 of it. */
  lemma CountOver(n: nat, budget: nat)
    ensures CountChars(n) <= budget <==> n == 0 || 5 * n < 17 * budget
  {
  }

  // --- truncate_to_tokens ------------------------------------------------------------------------

  /** str.rfind(c), or -1. */
  function LastIndex(s: Text, c: Code): (i: int)
    ensures -1 <= i < |s|
    ensures i >= 0 ==> s[i] == c
  {
    if s == [] then -1 else if s[|s| - 1] == c then |s| - 1 else LastIndex(s[..|s| - 1], c)
  }

  /** A line boundary in the last 15% is worth cutting at. */
  predicate CutsLine(clipped: Text, cutAt: nat) { 20 * LastIndex(clipped, LF) > 17 * cutAt }

  function AtLine(clipped: Text, cutAt: nat): Text {
    if CutsLine(clipped, cutAt) then clipped[..LastIndex(clipped, LF)] else clipped
  }

  /** The pre-cut: at most 12 characters a token, and some. */
  function Head(text: Text, budget: nat): Text {
    var ceiling := budget * 12 + 512;
    if |text| <= ceiling then text else text[..ceiling]
  }

  function Clipped(text: Text, budget: nat): Text {
    var head := Head(text, budget);
    head[..if |head| <= CharsFor(budget) then |head| else CharsFor(budget)]
  }

  predicate Whole(text: Text, budget: nat) {
    Count(Head(text, budget)) <= budget && |Head(text, budget)| == |text|
  }

  /** truncate_to_tokens without the tokenizer. */
  function Truncate(text: Text, budget: int): (Text, bool) {
    if budget <= 0 then ([], text != [])
    else if text == [] then ([], false)
    else if Whole(text, budget) then (text, false)
    else (RStrip(AtLine(Clipped(text, budget), |Clipped(text, budget)|)), true)
  }

  /** The pre-cut never matters. */
  lemma ClippedIs(text: Text, budget: nat)
    ensures Clipped(text, budget) == text[..if |text| <= CharsFor(budget) then |text| else CharsFor(budget)]
    ensures Whole(text, budget) <==> Count(text) <= budget
  {
    CharsForBounds(budget);
    if |text| > budget * 12 + 512 { CountOver(|text|, budget); }
  }

  lemma {:induction false} RStripPrefix(s: Text)
    ensures RStrip(s) <= s
    ensures |RStrip(s)| == |s| <==> s == [] || !IsSpace(s[|s| - 1])
  {
    if s != [] && IsSpace(s[|s| - 1]) { RStripPrefix(s[..|s| - 1]); }
  }

  /** What is kept is a prefix, no longer than the budget buys. */
  lemma TruncateKeeps(text: Text, budget: int)
    ensures Truncate(text, budget).0 <= text
    ensures Truncate(text, budget).1 && budget > 0 ==> |Truncate(text, budget).0| <= CharsFor(budget)
    ensures budget <= 0 ==> Truncate(text, budget).0 == []
    ensures !Truncate(text, budget).1 ==> Truncate(text, budget).0 == text && (budget > 0 ==> Count(text) <= budget)
  {
    hide RStrip, AtLine, Clipped, Whole;
    if budget > 0 && text != [] {
      ClippedIs(text, budget);
      var clipped := Clipped(text, budget);
      AtLinePrefix(clipped, |clipped|);
      RStripPrefix(AtLine(clipped, |clipped|));
      Prefixes(RStrip(AtLine(clipped, |clipped|)), AtLine(clipped, |clipped|), clipped);
      Prefixes(RStrip(AtLine(clipped, |clipped|)), clipped, text);
    }
  }

  lemma AtLinePrefix(clipped: Text, cutAt: nat)
    ensures AtLine(clipped, cutAt) <= clipped
    ensures |AtLine(clipped, cutAt)| == |clipped| <==> !CutsLine(clipped, cutAt)
  {
  }

  lemma Prefixes(a: Text, b: Text, c: Text)
    requires a <= b && b <= c
    ensures a <= c && |a| <= |c|
  {
  }

  /** The documented bound holds except in one family of inputs, which a caller can
      recognise: the budget is a multiple of 5, the text is at least as long as the
      cut, and nothing is trimmed back at the cut. Then it is missed by one. */
  lemma TruncateOvershoots(text: Text, budget: int)
    ensures Count(Truncate(text, budget).0) > budget && budget >= 0 <==>
      && budget > 0 && budget % 5 == 0 && |text| >= CharsFor(budget)
      && !CutsLine(text[..CharsFor(budget)], CharsFor(budget))
      && !IsSpace(text[CharsFor(budget) - 1])
    ensures budget >= 0 ==> Count(Truncate(text, budget).0) <= budget + 1
  {
    hide RStrip, AtLine, Clipped, Whole, CutsLine;
    if budget > 0 && text != [] {
      CharsForBounds(budget);
      TruncateKeeps(text, budget);
      CountOver(|Truncate(text, budget).0|, budget);
      CountOver(|Truncate(text, budget).0|, budget + 1);
      CountOver(|text|, budget);
      if |text| >= CharsFor(budget) && budget % 5 == 0 { CutHere(text, budget); }
    }
  }

  /** On a multiple of 5, exactly what is kept of a text at least as long as the cut. */
  lemma CutHere(text: Text, budget: int)
    requires budget > 0 && budget % 5 == 0 && |text| >= CharsFor(budget) && text != []
    ensures Truncate(text, budget).1
    ensures |Truncate(text, budget).0| == CharsFor(budget) <==>
      !CutsLine(text[..CharsFor(budget)], CharsFor(budget)) && !IsSpace(text[CharsFor(budget) - 1])
  {
    hide RStrip, CutsLine, Clipped, Whole;
    CharsForBounds(budget);
    ClippedIs(text, budget);
    CountOver(|text|, budget);
    var clipped := text[..CharsFor(budget)];
    AtLinePrefix(clipped, |clipped|);
    RStripPrefix(AtLine(clipped, |clipped|));
  }

  /** Exactly what is kept of a text that is over the budget. The first 17/5 characters
      a token, rounded down, are cut back to their last line break if that lies in
      the last 15% of them, and then to the last character that is not white space. */
  lemma TruncateIs(text: Text, budget: int) returns (n: nat, end: nat)
    requires budget > 0 && Count(text) > budget
    ensures n <= |text| && 5 * n <= 17 * budget < 5 * n + 5
    ensures || (end == n && forall k :: 0 <= k < n && text[k] == LF ==> 100 * k <= 85 * n)
            || (end < n && text[end] == LF && 100 * end > 85 * n && forall k :: end < k < n ==> text[k] != LF)
    ensures var kept := Truncate(text, budget).0;
      && Truncate(text, budget).1
      && |kept| <= end && kept == text[..|kept|]
      && (kept != [] ==> !IsSpace(kept[|kept| - 1]))
      && forall k :: |kept| <= k < end ==> IsSpace(text[k])
  {
    hide RStrip, Clipped, Whole, IsSpace;
    CountOver(|text|, budget);
    ClippedIs(text, budget);
    n := CharsFor(budget);
    var clipped := text[..n];
    LastIndexIs(clipped, LF);
    end := if CutsLine(clipped, n) then LastIndex(clipped, LF) else n;
    var kept := RStripCut(AtLine(clipped, n));
    assert AtLine(clipped, n) == text[..end];
    assert Truncate(text, budget) == (text[..end][..kept], true);
    assert text[..end][..kept] == text[..kept];
    forall k | kept <= k < end ensures IsSpace(text[k]) { assert text[..end][k] == text[k]; }
    RStripEnds(text[..end]);
  }

  lemma {:induction false} LastIndexIs(s: Text, c: Code)
    ensures forall k :: LastIndex(s, c) < k < |s| ==> s[k] != c
  {
    if s != [] && s[|s| - 1] != c { LastIndexIs(s[..|s| - 1], c); }
  }

  lemma {:induction false} RStripEnds(s: Text)
    ensures var t := RStrip(s); t != [] ==> !IsSpace(t[|t| - 1])
  {
    if s != [] && IsSpace(s[|s| - 1]) { RStripEnds(s[..|s| - 1]); }
  }

  /** Seventeen letters at a budget of 5: all are kept, and count as six. */
  lemma OvershootExample()
    ensures var text := seq(17, i requires 0 <= i < 17 => 'a' as int);
      Truncate(text, 5).0 == text && Count(text) == 6 && Count(Tail(text, 5)) == 6
  {
    var text: Text := seq(17, i requires 0 <= i < 17 => 'a' as int);
    CutHere(text, 5);
    TruncateKeeps(text, 5);
    assert LastIndex(text, LF) < 0;
    TailOvershoots(text, 5);
  }

  // --- tail_to_tokens -------------------------------------------------------------------------------

  function Foot(text: Text, budget: nat): Text {
    var ceiling := budget * 12 + 512;
    if |text| <= ceiling then text else text[|text| - ceiling..]
  }

  function LastChars(text: Text, n: nat): Text { if |text| <= n then text else text[|text| - n..] }

  /** tail_to_tokens without the tokenizer. */
  function Tail(text: Text, budget: int): Text {
    if budget <= 0 || text == [] then [] else LStrip(LastChars(Foot(text, budget), CharsFor(budget)))
  }

  lemma {:induction false} LStripSuffix(s: Text)
    ensures |LStrip(s)| <= |s| && LStrip(s) == s[|s| - |LStrip(s)|..]
    ensures LStrip(s) == s <==> s == [] || !IsSpace(s[0])
  {
    if s != [] && IsSpace(s[0]) { LStripSuffix(s[1..]); }
  }

  /** The mirror image: a suffix, over by one under the mirrored condition. */
  lemma TailOvershoots(text: Text, budget: int)
    ensures |Tail(text, budget)| <= |text| && Tail(text, budget) == text[|text| - |Tail(text, budget)|..]
    ensures budget > 0 ==> Count(Tail(text, budget)) <= budget + 1
    ensures budget > 0 ==> (Count(Tail(text, budget)) > budget <==>
      budget % 5 == 0 && |text| >= CharsFor(budget) && !IsSpace(text[|text| - CharsFor(budget)]))
  {
    if budget > 0 && text != [] {
      hide LStrip, Foot, IsSpace, CharsFor, Count, Tail;
      var n := TailIs(text, budget);
      TailCounts(text, budget, n);
    }
  }

  /** What is left of the last characters when white space at their front goes. */
  lemma TailIs(text: Text, budget: int) returns (n: nat)
    requires budget > 0 && text != []
    ensures n == |Tail(text, budget)| <= |text| && n <= CharsFor(budget)
    ensures Tail(text, budget) == text[|text| - n..]
    ensures |text| < CharsFor(budget) ==> n < CharsFor(budget)
    ensures |text| >= CharsFor(budget) ==> (n == CharsFor(budget) <==> !IsSpace(text[|text| - CharsFor(budget)]))
  {
    hide LStrip, Foot, IsSpace;
    CharsForBounds(budget);
    FootIs(text, budget);
    var last := LastChars(text, CharsFor(budget));
    LStripSuffix(last);
    n := |LStrip(last)|;
  }

  lemma TailCounts(text: Text, budget: int, n: nat)
    requires budget > 0 && n == |Tail(text, budget)| && n <= CharsFor(budget)
    ensures Count(Tail(text, budget)) <= budget + 1
    ensures Count(Tail(text, budget)) > budget <==> budget % 5 == 0 && n == CharsFor(budget)
  {
    hide Tail;
    CharsForBounds(budget);
    CountOver(n, budget);
    CountOver(n, budget + 1);
  }

  lemma FootIs(text: Text, budget: nat)
    ensures LastChars(Foot(text, budget), CharsFor(budget)) == LastChars(text, CharsFor(budget))
  {
    CharsForBounds(budget);
    SameEnd(text, budget * 12 + 512, CharsFor(budget));
  }

  lemma SameEnd(text: Text, m: nat, n: nat)
    requires n <= m
    ensures LastChars(LastChars(text, m), n) == LastChars(text, n)
  {
  }

  // --- fit ----------------------------------------------------------------------------------------------

  /** A token counter and its way to truncate: the tokenizer's, or the fallback's. */
  datatype Meter = Meter(count: Text -> nat, truncate: (Text, int) -> (Text, bool))

  const FALLBACK: Meter := Meter(Count, Truncate)

  function Notice(shown: int, total: nat, path: Text): Text {
    Lit("\n\n[truncated: showing about ") + Decimal(shown) + Lit(" of ") + Decimal(total)
    + Lit(" tokens. Full output written to ") + path
    + Lit(". Narrow the query or request specific pages to see the rest.]")
  }

  /** One pass of the loop: a body under the allowance, and its notice. */
  function Pass(m: Meter, text: Text, total: nat, path: Text, allowance: int): Text {
    var body := m.truncate(text, if allowance > 0 then allowance else 0).0;
    body + Notice(m.count(body), total, path)
  }

  /** The loop and its fallback, `tries` passes from here. */
  function Passes(m: Meter, text: Text, total: nat, path: Text, limit: int, allowance: int, tries: nat): Text
    decreases tries
  {
    if tries == 0 then Strip(Notice(0, total, path))
    else
      var content := Pass(m, text, total, path, allowance);
      var overshoot := m.count(content) - limit;
      if overshoot <= 0 then content else Passes(m, text, total, path, limit, allowance - (overshoot + 4), tries - 1)
  }

  function Allowance(m: Meter, total: nat, path: Text, limit: int): int { limit - m.count(Notice(limit, total, path)) }

  /** fit, given where the full text would be spilled. */
  method Fit(m: Meter, text: Text, limit: int, path: Text) returns (content: Text, spilled: bool)
    ensures !spilled <==> m.count(text) <= limit
    ensures !spilled ==> content == text
    ensures spilled ==>
      content == Passes(m, text, m.count(text), path, limit, Allowance(m, m.count(text), path, limit), 3)
    ensures m.count(content) <= limit || content == Strip(Notice(0, m.count(text), path))
  {
    hide Notice, Strip;
    var total := m.count(text);
    if total <= limit { return text, false; }
    spilled := true;
    var allowance := limit - m.count(Notice(limit, total, path));
    ghost var first := allowance;
    for i := 0 to 3
      invariant Passes(m, text, total, path, limit, first, 3) == Passes(m, text, total, path, limit, allowance, 3 - i)
    {
      var body := m.truncate(text, if allowance > 0 then allowance else 0).0;
      content := body + Notice(m.count(body), total, path);
      var overshoot := m.count(content) - limit;
      if overshoot <= 0 { return content, true; }
      allowance := allowance - (overshoot + 4);
    }
    content := Strip(Notice(0, total, path));
  }

  /** The passes one by one: each allowance is what the last one overshot by, and four,
      less; the first pass that is within the limit is the answer, and the bare
      notice if none of them is. */
  lemma {:induction false} PassesAre(m: Meter, text: Text, total: nat, path: Text, limit: int, first: int, tries: nat)
    returns (tried: seq<int>)
    ensures |tried| <= tries && (tries > 0 ==> tried != [] && tried[0] == first)
    ensures forall k :: 0 < k < |tried| ==> Tightened(m, text, total, path, limit, tried[k - 1], tried[k])
    ensures var content := Passes(m, text, total, path, limit, first, tries);
      || (tried != [] && m.count(content) <= limit && content == Pass(m, text, total, path, tried[|tried| - 1]))
      || (|tried| == tries && content == Strip(Notice(0, total, path))
          && (tries > 0 ==> m.count(Pass(m, text, total, path, tried[tries - 1])) > limit))
    decreases tries
  {
    hide Notice, Strip, Pass;
    if tries == 0 {
      tried := [];
    } else {
      var over := m.count(Pass(m, text, total, path, first)) - limit;
      if over <= 0 {
        tried := [first];
      } else {
        var rest := PassesAre(m, text, total, path, limit, first - (over + 4), tries - 1);
        tried := [first] + rest;
        forall k | 0 < k < |tried| ensures Tightened(m, text, total, path, limit, tried[k - 1], tried[k]) {
          if k > 1 { assert Tightened(m, text, total, path, limit, rest[k - 2], rest[k - 1]); }
        }
      }
    }
  }

  /** The pass at `a` was over the limit, and `b` makes up for it. */
  ghost predicate Tightened(m: Meter, text: Text, total: nat, path: Text, limit: int, a: int, b: int) {
    m.count(Pass(m, text, total, path, a)) > limit && b == a + limit - m.count(Pass(m, text, total, path, a)) - 4
  }

  /** A pass shows the text as truncated to its allowance, and behind it, in square
      brackets, how much of how much that is and where the rest can be read. */
  lemma PassSays(m: Meter, text: Text, total: nat, path: Text, allowance: int) returns (notice: Text)
    ensures var body := m.truncate(text, if allowance < 0 then 0 else allowance).0;
      && Pass(m, text, total, path, allowance) == body + notice
      && Within(Decimal(m.count(body)) + Lit(" of ") + Decimal(total), notice)
    ensures Within(path, notice) && Lit("\n\n[truncated: ") <= notice && notice[|notice| - 1] == ']' as int
  {
    var shown := m.count(m.truncate(text, if allowance < 0 then 0 else allowance).0);
    notice := Notice(shown, total, path);
    var opening, close := Lit("\n\n[truncated: showing about "),
      Lit(". Narrow the query or request specific pages to see the rest.]");
    assert opening[..14] == Lit("\n\n[truncated: ");
    assert close[|close| - 1] == ']' as int;
    hide Decimal, Lit;
    Around(opening, Decimal(shown), Lit(" of "), Decimal(total), Lit(" tokens. Full output written to "), path, close);
    assert notice[..14] == opening[..14];
  }

  lemma Around(a: Text, b: Text, c: Text, d: Text, e: Text, f: Text, g: Text)
    ensures var whole := a + b + c + d + e + f + g; Within(b + c + d, whole) && Within(f, whole)
  {
    var whole := a + b + c + d + e + f + g;
    assert whole == a + (b + c + d) + (e + f + g);
    WithinMiddle(a, b + c + d, e + f + g);
    WithinMiddle(a + b + c + d + e, f, g);
  }

  lemma {:induction false} DigitsGrow(m: nat, n: nat)
    requires m <= n
    ensures 1 <= |Digits(m)| <= |Digits(n)|
    decreases n
  {
    if n >= 10 { if m >= 10 { DigitsGrow(m / 10, n / 10); } else { DigitsGrow(0, n / 10); } }
  }

  lemma NoticeGrows(a: nat, b: nat, total: nat, path: Text)
    requires a <= b
    ensures 0 < |Notice(a, total, path)| <= |Notice(b, total, path)|
  {
    DigitsGrow(a, b);
  }

  /** Characters bought with the allowance, plus the notice, stay within the limit. */
  lemma Adds(body: nat, notice: nat, longest: nat, limit: nat)
    requires notice <= longest && 0 < longest && CountChars(longest) <= limit
    requires 5 * body <= 17 * (limit - CountChars(longest))
    ensures CountChars(body + notice) <= limit
  {
    CountBounds(longest);
    CountOver(body + notice, limit);
  }

  /** With the fallback estimator, whenever the notice alone fits the limit the
      first pass already fits: the one token by which truncation may overshoot is
      made good by the rounding of the notice. */
  lemma FallbackFirstPass(text: Text, limit: int, path: Text)
    requires Count(text) > limit && Count(Notice(limit, Count(text), path)) <= limit
    ensures var a := Allowance(FALLBACK, Count(text), path, limit);
      var content := Pass(FALLBACK, text, Count(text), path, a);
      && Count(content) <= limit
      && Passes(FALLBACK, text, Count(text), path, limit, a, 3) == content
    ensures var a := Allowance(FALLBACK, Count(text), path, limit);
      var body := Truncate(text, a).0;
      body <= text && Pass(FALLBACK, text, Count(text), path, a) == body + Notice(Count(body), Count(text), path)
  {
    hide Notice, Truncate;
    var total, a := Count(text), Allowance(FALLBACK, Count(text), path, limit);
    LimitPositive(limit, total, path);
    var body := Truncate(text, a).0;
    TruncateKeeps(text, a);
    CharsForBounds(a);
    CountOver(|body|, a + 1);
    assert a > 0 ==> Truncate(text, a).1;
    NoticeGrows(Count(body), limit, total, path);
    Adds(|body|, |Notice(Count(body), total, path)|, |Notice(limit, total, path)|, limit);
  }

  lemma LimitPositive(limit: int, total: nat, path: Text)
    requires Count(Notice(limit, total, path)) <= limit
    ensures limit > 0 && |Notice(limit, total, path)| > 0
  {
    assert |Lit(" of ")| == 4;
  }
}
