/** Context compaction (backend/agent/compact.py). */
module Compaction {
  import opened Codes

  datatype Role = System | User | Assistant | ToolRole

  datatype Message = Message(role: Role, content: Text)

  const CHARS_PER_TOKEN := 4
  const KEEP_RECENT := 4
  const DIGEST_SNIPPET_CHARS := 200

  function TotalChars(messages: seq<Message>): nat {
    if messages == [] then 0 else |messages[0].content| + TotalChars(messages[1..])
  }

  function EstimateTokens(messages: seq<Message>): nat {
    TotalChars(messages) / CHARS_PER_TOKEN
  }

  /** used_fraction(messages, context) > 0.75, in whole numbers. */
  predicate OverThreshold(messages: seq<Message>, context: int) {
    4 * EstimateTokens(messages) > 3 * (if context > 1 then context else 1)
  }

  function RoleName(role: Role): Text {
    match role
    case System => Lit("system")
    case User => Lit("user")
    case Assistant => Lit("assistant")
    case ToolRole => Lit("tool")
  }

  const DIGEST_PREFIX: Text :=
    Lit("Earlier steps were compacted to stay inside the context window. Digest of what happened:\n")

  function Snippet(content: Text): Text {
    if |content| > DIGEST_SNIPPET_CHARS then content[..DIGEST_SNIPPET_CHARS] + Lit(" ...") else content
  }

  function SnippetLine(m: Message): Text {
    Lit("[") + RoleName(m.role) + Lit("] ") + Snippet(m.content)
  }

  /** "\n".join over the snippet lines. */
  function JoinSnippets(middle: seq<Message>): Text {
    if middle == [] then []
    else if |middle| == 1 then SnippetLine(middle[0])
    else JoinSnippets(middle[..|middle| - 1]) + [LF] + SnippetLine(middle[|middle| - 1])
  }

  function Digest(middle: seq<Message>): Message {
    Message(System, DIGEST_PREFIX + JoinSnippets(middle))
  }

  predicate LoadBearing(m: Message) { m.role.System? || m.role.User? }

  /** How many messages at the front are kept as they are: at most two. */
  function HeadLength(messages: seq<Message>): (h: nat)
    ensures h <= 2 && h <= |messages|
  {
    if messages == [] || !LoadBearing(messages[0]) then 0
    else if |messages| == 1 || !LoadBearing(messages[1]) then 1
    else 2
  }

  /** What compaction means: the head, one digest of the middle, the last four. */
  function Compacted(messages: seq<Message>): seq<Message> {
    if |messages| <= KEEP_RECENT + 2 then messages
    else
      var h := HeadLength(messages);
      var t := |messages| - KEEP_RECENT;
      messages[..h] + [Digest(messages[h..t])] + messages[t..]
  }

  /** The loop that collects the snippets. */
  method CollectSnippets(middle: seq<Message>) returns (joined: Text)
    ensures joined == JoinSnippets(middle)
  {
    joined := [];
    for i := 0 to |middle|
      invariant joined == JoinSnippets(middle[..i])
    {
      assert middle[..i + 1][..i] == middle[..i];
      joined := if i == 0 then SnippetLine(middle[i]) else joined + [LF] + SnippetLine(middle[i]);
    }
    assert middle[..|middle|] == middle;
  }

  /** compact, as the source has it: pop the head, slice off the tail, collect
      the snippets one by one. */
  method Compact(messages: seq<Message>) returns (compacted: seq<Message>)
    ensures compacted == Compacted(messages)
  {
    if |messages| <= KEEP_RECENT + 2 { return messages; }
    var head, body := SplitHead(messages);
    var tail := if |body| > KEEP_RECENT then body[|body| - KEEP_RECENT..] else body;
    var middle := body[..|body| - |tail|];
    if middle == [] { return messages; }
    var joined := CollectSnippets(middle);
    compacted := head + [Message(System, DIGEST_PREFIX + joined)] + tail;
    Slices(messages, |head|, |messages| - KEEP_RECENT);
  }

  lemma Slices(messages: seq<Message>, h: nat, t: nat)
    requires h <= t <= |messages|
    ensures messages[h..][..t - h] == messages[h..t] && messages[h..][t - h..] == messages[t..]
  {
  }

  /** The loop that pops the messages kept at the front. */
  method SplitHead(messages: seq<Message>) returns (head: seq<Message>, body: seq<Message>)
    ensures |head| == HeadLength(messages)
    ensures head == messages[..|head|] && body == messages[|head|..]
  {
    head, body := [], messages;
    while body != [] && LoadBearing(body[0]) && |head| < 2
      invariant |head| <= 2 && |head| <= |messages|
      invariant head == messages[..|head|] && body == messages[|head|..]
      invariant forall i :: 0 <= i < |head| ==> LoadBearing(messages[i])
      decreases |body|
    {
      head := head + [body[0]];
      body := body[1..];
    }
  }

  /** What survives one compaction: the kept head and the last four, word for
      word; more than six messages become at most seven, and exactly seven when
      they open with the system prompt and the question. */
  lemma CompactKeeps(messages: seq<Message>)
    requires |messages| > KEEP_RECENT + 2
    ensures var c := Compacted(messages);
      var h := HeadLength(messages);
      && |c| == h + 1 + KEEP_RECENT <= 7
      && c[..h] == messages[..h]
      && c[h].role == System
      && c[|c| - KEEP_RECENT..] == messages[|messages| - KEEP_RECENT..]
  {
  }

  /** Where the documented idempotence ends: a second compaction rewrites the
      digest and nothing else. */
  lemma CompactAgain(messages: seq<Message>)
    requires |messages| > KEEP_RECENT + 2
    ensures var c := Compacted(messages);
      var h := HeadLength(messages);
      && (h < 2 ==> Compacted(c) == c)
      && (h == 2 ==> Compacted(c) == c[2 := Digest([c[2]])])
  {
    var c := Compacted(messages);
    var h := HeadLength(messages);
    if h == 2 {
      assert c[0] == messages[0] && c[1] == messages[1];
      assert HeadLength(c) == 2;
      assert c[2..3] == [c[2]];
      assert Compacted(c) == c[..2] + [Digest([c[2]])] + c[3..];
    }
  }

  // --- what the digest says ------------------------------------------------------------

  /** What a role is called on the wire. */
  ghost predicate Named(role: Role, name: Text) {
    && (role.System? ==> name == Lit("system"))
    && (role.User? ==> name == Lit("user"))
    && (role.Assistant? ==> name == Lit("assistant"))
    && (role.ToolRole? ==> name == Lit("tool"))
  }

  /** One line of the digest: the role in brackets, the first 200 characters, and an
      ellipsis exactly when there were more. */
  ghost predicate LineSays(line: Text, m: Message) {
    exists name: Text ::
      && Named(m.role, name)
      && line == Lit("[") + name + Lit("] ")
           + (if |m.content| <= 200 then m.content else m.content[..200] + Lit(" ..."))
  }

  /** Where a line begins and ends in a text. */
  datatype Place = Place(start: nat, end: nat)

  ghost predicate LineAt(text: Text, at: Place, m: Message) {
    at.start <= at.end <= |text| && LineSays(text[at.start..at.end], m)
  }

  /** From `start` to its end the text is one line for each message, in order, with a
      line feed between one and the next and nothing else. */
  ghost predicate LinesAt(text: Text, start: nat, at: seq<Place>, middle: seq<Message>) {
    && |at| == |middle| > 0
    && at[0].start == start && at[|at| - 1].end == |text|
    && (forall i :: 0 <= i < |middle| ==> LineAt(text, at[i], middle[i]))
    && (forall i :: 0 < i < |at| ==> Divided(text, at[i - 1], at[i]))
  }

  ghost predicate Divided(text: Text, a: Place, b: Place) {
    a.end < |text| && text[a.end] == LF && b.start == a.end + 1
  }

  lemma LineStays(text: Text, more: Text, at: Place, m: Message)
    requires LineAt(text, at, m)
    ensures LineAt(text + more, at, m)
  {
    assert (text + more)[at.start..at.end] == text[at.start..at.end];
  }

  lemma LineMoves(front: Text, text: Text, at: Place, m: Message)
    requires LineAt(text, at, m)
    ensures LineAt(front + text, Place(|front| + at.start, |front| + at.end), m)
  {
    assert (front + text)[|front| + at.start..|front| + at.end] == text[at.start..at.end];
  }

  lemma LinesMove(front: Text, text: Text, at: seq<Place>, middle: seq<Message>) returns (moved: seq<Place>)
    requires LinesAt(text, 0, at, middle)
    ensures LinesAt(front + text, |front|, moved, middle)
  {
    hide LineAt;
    moved := seq(|at|, i requires 0 <= i < |at| => Place(|front| + at[i].start, |front| + at[i].end));
    forall i | 0 <= i < |middle| ensures LineAt(front + text, moved[i], middle[i]) {
      LineMoves(front, text, at[i], middle[i]);
    }
    forall i | 0 < i < |moved| ensures Divided(front + text, moved[i - 1], moved[i]) {
      assert Divided(text, at[i - 1], at[i]);
    }
  }

  lemma {:induction false} JoinSays(middle: seq<Message>) returns (at: seq<Place>)
    requires middle != []
    ensures LinesAt(JoinSnippets(middle), 0, at, middle)
  {
    hide LineSays, LineAt, SnippetLine;
    var n := |middle| - 1;
    LineIs(middle[n]);
    var line := SnippetLine(middle[n]);
    if n == 0 {
      at := [Place(0, |line|)];
    } else {
      var init := JoinSays(middle[..n]);
      LineAdded(JoinSnippets(middle[..n]), line, init, middle);
      at := init + [Place(|JoinSnippets(middle[..n])| + 1, |JoinSnippets(middle)|)];
    }
  }

  lemma LineAdded(front: Text, line: Text, init: seq<Place>, middle: seq<Message>)
    requires |middle| > 1 && LinesAt(front, 0, init, middle[..|middle| - 1])
    requires LineAt(line, Place(0, |line|), middle[|middle| - 1])
    ensures var text := front + [LF] + line;
      LinesAt(text, 0, init + [Place(|front| + 1, |text|)], middle)
  {
    hide LineAt;
    var n, text := |middle| - 1, front + [LF] + line;
    var at := init + [Place(|front| + 1, |text|)];
    LineMoves(front + [LF], line, Place(0, |line|), middle[n]);
    forall i | 0 <= i < |middle| ensures LineAt(text, at[i], middle[i]) {
      if i < n {
        assert LineAt(front, init[i], middle[..n][i]);
        LineStays(front, [LF] + line, init[i], middle[i]);
        assert front + ([LF] + line) == text;
      }
    }
    forall i | 0 < i < |at| ensures Divided(text, at[i - 1], at[i]) {
      if i < n { assert Divided(front, init[i - 1], init[i]); }
    }
  }

  lemma LineIs(m: Message)
    ensures LineAt(SnippetLine(m), Place(0, |SnippetLine(m)|), m)
  {
    assert Named(m.role, RoleName(m.role));
    assert SnippetLine(m)[0..|SnippetLine(m)|] == SnippetLine(m);
  }

  /** Nothing that is collapsed goes missing: what is left is the first messages up
      to two while they are the system's or the user's, one digest, and the last
      four; the digest is its heading and then one line, in order, for every
      message in between. `at` says where the lines stand. */
  lemma DigestSays(messages: seq<Message>) returns (head: nat, at: seq<Place>)
    requires |messages| > 6
    ensures head <= 2
    ensures forall i :: 0 <= i < head ==> messages[i].role.System? || messages[i].role.User?
    ensures head < 2 ==> !messages[head].role.System? && !messages[head].role.User?
    ensures var c := Compacted(messages);
      && |c| == head + 5
      && c[..head] == messages[..head] && c[head + 1..] == messages[|messages| - 4..]
      && c[head].role.System? && DIGEST_PREFIX <= c[head].content
      && LinesAt(c[head].content, |DIGEST_PREFIX|, at, messages[head..|messages| - 4])
  {
    hide LinesAt, JoinSnippets, DIGEST_PREFIX;
    head := HeadLength(messages);
    var middle := messages[head..|messages| - 4];
    at := JoinSays(middle);
    at := LinesMove(DIGEST_PREFIX, JoinSnippets(middle), at, middle);
  }

  lemma {:induction false} CharsAppend(a: seq<Message>, b: seq<Message>)
    ensures TotalChars(a + b) == TotalChars(a) + TotalChars(b)
  {
    if a == [] {
      assert a + b == b;
    } else {
      assert (a + b)[1..] == a[1..] + b;
      CharsAppend(a[1..], b);
    }
  }

  /** When compaction sets in: the messages' characters, four to a token, are more
      than three quarters of the window; a window of nothing counts as one token. */
  lemma ThresholdIs(messages: seq<Message>, context: int, tokens: nat)
    requires 4 * tokens <= TotalChars(messages) < 4 * tokens + 4
    ensures OverThreshold(messages, context) <==>
      tokens as real / (if context < 1 then 1 else context) as real > 0.75
    ensures forall m :: TotalChars(messages + [m]) == TotalChars(messages) + |m.content|
  {
    var window := if context < 1 then 1 else context;
    assert EstimateTokens(messages) == tokens;
    RatioIs(tokens, window);
    forall m ensures TotalChars(messages + [m]) == TotalChars(messages) + |m.content| {
      CharsAppend(messages, [m]);
    }
  }

  lemma RatioIs(tokens: nat, window: int)
    requires window >= 1
    ensures tokens as real / window as real > 0.75 <==> 4 * tokens > 3 * window
  {
    AboveRatio(tokens as real / window as real, tokens as real, window as real);
    assert 4.0 * tokens as real == (4 * tokens) as real && 3.0 * window as real == (3 * window) as real;
  }

  lemma AboveRatio(q: real, t: real, w: real)
    requires w > 0.0 && q == t / w
    ensures q > 0.75 <==> 4.0 * t > 3.0 * w
  {
    Quotient(t, w);
    Signs(q - 0.75, w);
    Shifted(q, w);
  }

  lemma Quotient(t: real, w: real)
    requires w > 0.0
    ensures t / w * w == t
  {
  }

  lemma Shifted(q: real, w: real)
    ensures (q - 0.75) * w == q * w - 0.75 * w
  {
  }

  lemma Signs(x: real, w: real)
    requires w > 0.0
    ensures x > 0.0 <==> x * w > 0.0
  {
  }

  const SYSTEM_TAG: Text := Lit("[system] ")
  const ELLIPSIS: Text := Lit(" ...")

  /** The one digest text that digesting again leaves alone. */
  const FIXED: Text :=
    SYSTEM_TAG + DIGEST_PREFIX + (SYSTEM_TAG + DIGEST_PREFIX + SYSTEM_TAG + DIGEST_PREFIX[..4]) + ELLIPSIS

  lemma Lengths()
    ensures |DIGEST_PREFIX| == 89 && |SYSTEM_TAG| == 9 && |ELLIPSIS| == 4 && |FIXED| == 213
    ensures Lit("[") + RoleName(System) + Lit("] ") == SYSTEM_TAG
  {
  }

  /** Compaction is idempotent exactly when there was nothing to do, when the
      messages do not open with two that are kept (so six remain), or when the
      middle already reads as the fixed digest. */
  lemma IdempotentExactly(messages: seq<Message>)
    ensures Compacted(Compacted(messages)) == Compacted(messages) <==>
      || |messages| <= KEEP_RECENT + 2
      || HeadLength(messages) < 2
      || JoinSnippets(messages[2..|messages| - KEEP_RECENT]) == FIXED
  {
    if |messages| > KEEP_RECENT + 2 && HeadLength(messages) == 2 {
      CompactAgain(messages);
      var c := Compacted(messages);
      var j := JoinSnippets(messages[2..|messages| - KEEP_RECENT]);
      assert c[2] == Message(System, DIGEST_PREFIX + j);
      DigestFixed(j);
      assert Compacted(c) == c <==> Digest([c[2]]) == c[2];
    } else if |messages| > KEEP_RECENT + 2 {
      CompactAgain(messages);
    }
  }

  /** An ordinary conversation that is not left alone: a prompt, a question and any
      five short replies of the model. */
  lemma CompactTwice(prompt: Text, question: Text, reply: Text)
    requires |reply| <= DIGEST_SNIPPET_CHARS
    ensures var said := Message(Assistant, reply);
      var messages := [Message(System, prompt), Message(User, question), said, said, said, said, said];
      Compacted(Compacted(messages)) != Compacted(messages)
  {
    var said := Message(Assistant, reply);
    var messages := [Message(System, prompt), Message(User, question), said, said, said, said, said];
    IdempotentExactly(messages);
    assert messages[2..3] == [said];
    assert JoinSnippets([said])[1] == 'a' as int && FIXED[1] == 's' as int;
  }

  /** One more digesting gives back `j` only if `j` is FIXED. */
  lemma DigestFixed(j: Text)
    ensures Digest([Message(System, DIGEST_PREFIX + j)]) == Message(System, DIGEST_PREFIX + j) <==> j == FIXED
  {
    Lengths();
    var p, t := DIGEST_PREFIX, SYSTEM_TAG;
    var again := t + Snippet(p + j);
    assert JoinSnippets([Message(System, p + j)]) == again;
    assert p + again == p + j <==> again == j by {
      if p + again == p + j { assert (p + again)[89..] == again && (p + j)[89..] == j; }
    }
    if |p + j| <= 200 {
      assert |again| == 9 + 89 + |j|;
    } else {
      assert (p + j)[..200] == p + j[..111];
      assert again == t + p + j[..111] + ELLIPSIS;
      FixedPoint(j);
    }
  }

  lemma FixedPoint(j: Text)
    requires |j| > 111
    ensures j == SYSTEM_TAG + DIGEST_PREFIX + j[..111] + ELLIPSIS <==> j == FIXED
  {
    Lengths();
    FixedParts();
    hide SYSTEM_TAG, DIGEST_PREFIX, ELLIPSIS, FIXED;
    FixedIff(j, SYSTEM_TAG + DIGEST_PREFIX, ELLIPSIS);
  }

  lemma FixedParts()
    ensures var tp := SYSTEM_TAG + DIGEST_PREFIX; |tp| == 98 && FIXED == tp + (tp + tp[..13]) + ELLIPSIS
  {
    Lengths();
    var t, p := SYSTEM_TAG, DIGEST_PREFIX;
    hide SYSTEM_TAG, DIGEST_PREFIX, ELLIPSIS;
    assert (t + p)[..13] == t + p[..4];
    assert (t + p) + (t + p[..4]) == t + p + t + p[..4];
  }

  /** A text that starts with `tp`, goes on with its own first 111 characters and
      ends with `tail` can only be this one. */
  lemma FixedIff(j: Text, tp: Text, tail: Text)
    requires |tp| == 98 && |tail| == 4 && |j| > 111
    ensures j == tp + j[..111] + tail <==> j == tp + (tp + tp[..13]) + tail
  {
    var first := tp + tp[..13];
    if j == tp + j[..111] + tail {
      assert tp + j[..111] + tail == tp + (j[..111] + tail);
      Unrolled(j, tp, tail);
    }
    if j == tp + first + tail { Folded(j, tp, first, tail); }
  }

  lemma Folded(j: Text, tp: Text, first: Text, tail: Text)
    requires |tp| == 98 && first == tp + tp[..13] && j == tp + first + tail
    ensures |j| > 111 ==> j[..111] == first
  {
    assert j[..111] == tp + first[..13];
    assert first[..13] == tp[..13];
  }

  lemma Unrolled(j: Text, tp: Text, tail: Text)
    requires |tp| == 98 && |j| > 111
    requires j == tp + (j[..111] + tail)
    ensures j[..111] == tp + tp[..13]
  {
    assert j[..98] == tp;
    assert j[98..111] == j[..13] == tp[..13];
    assert j[..111] == j[..98] + j[98..111];
  }
}
