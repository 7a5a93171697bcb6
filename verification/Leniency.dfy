/** What the parse makes of a response that does not keep to the grammar
    (backend/llm/client.py:154-172, 318-355), by places and cases. */
module Leniency {
  import opened Codes
  import opened Json
  import opened Client

  // --- markdown fences ----------------------------------------------------------------------

  ghost predicate FenceAt(s: Text, i: int) {
    0 <= i && i + 3 <= |s| && s[i] == s[i + 1] == s[i + 2] == '`' as int
  }

  lemma FenceIs(s: Text, i: nat)
    requires i + 3 <= |s|
    ensures s[i..i + 3] == FENCE <==> FenceAt(s, i)
  {
    var part := s[i..i + 3];
    assert FENCE == ['`' as int, '`' as int, '`' as int];
    assert part == [s[i], s[i + 1], s[i + 2]];
  }

  lemma {:induction false} AfterFirstIs(s: Text, c: Code, k: nat)
    requires k < |s| && s[k] == c && forall j :: 0 <= j < k ==> s[j] != c
    ensures AfterFirst(s, c) == s[k + 1..]
  {
    if k > 0 {
      AfterFirstIs(s[1..], c, k - 1);
      assert s[1..][k..] == s[k + 1..];
    }
  }

  lemma {:induction false} BeforeFenceIs(s: Text, upTo: nat, end: nat)
    requires end <= upTo <= |s|
    requires forall j :: end < j <= upTo - 3 ==> !FenceAt(s, j)
    requires FenceAt(s, end) && end + 3 <= upTo
    ensures BeforeLastFence(s, upTo) == s[..end]
    decreases upTo
  {
    FenceIs(s, upTo - 3);
    if end < upTo - 3 { BeforeFenceIs(s, upTo - 1, end); }
  }

  lemma {:induction false} NoFenceIs(s: Text, upTo: nat)
    requires upTo <= |s| && forall j :: 0 <= j <= upTo - 3 ==> !FenceAt(s, j)
    ensures BeforeLastFence(s, upTo) == s
    decreases upTo
  {
    if upTo >= 3 {
      FenceIs(s, upTo - 3);
      NoFenceIs(s, upTo - 1);
    }
  }

  lemma StripNothing()
    ensures Strip([]) == []
  {
  }

  /** A response in a fence is read as what stands between the line of the first fence
      and the last fence behind it, or the end; a response without one as it is. */
  lemma CleanIs(raw: Text, line: nat, end: nat)
    ensures !FenceAt(Strip(raw), 0) ==> Clean(raw) == Strip(raw)
    ensures FenceAt(Strip(raw), 0) && LF !in Strip(raw) ==> Clean(raw) == []
    ensures var s := Strip(raw);
      FenceAt(s, 0) && line < |s| && s[line] == LF && (forall j :: 0 <= j < line ==> s[j] != LF) ==>
        && (line < end && FenceAt(s, end) && (forall j :: end < j ==> !FenceAt(s, j)) ==>
          Clean(raw) == Strip(s[line + 1..end]))
        && ((forall j :: line < j ==> !FenceAt(s, j)) ==> Clean(raw) == Strip(s[line + 1..]))
  {
    StripNothing();
    hide Strip;
    var s := Strip(raw);
    if |s| >= 3 {
      FenceIs(s, 0);
      assert s[0..3] == s[..3];
      if FenceAt(s, 0) && line < |s| && s[line] == LF && forall j :: 0 <= j < line ==> s[j] != LF {
        AfterFirstIs(s, LF, line);
        var inside := s[line + 1..];
        forall j | j >= 0 ensures FenceAt(inside, j) <==> FenceAt(s, line + 1 + j) {
        }
        if line < end && FenceAt(s, end) && forall j :: end < j ==> !FenceAt(s, j) {
          BeforeFenceIs(inside, |inside|, end - line - 1);
          assert inside[..end - line - 1] == s[line + 1..end];
        }
        if forall j :: line < j ==> !FenceAt(s, j) { NoFenceIs(inside, |inside|); }
      }
    } else {
      assert |FENCE| == 3;
    }
  }

  // --- the answer in a tool's shape ---------------------------------------------------------

  /** The value of a key is a text that shows something. */
  ghost predicate Tells(members: seq<(Text, Value)>, key: Text, t: Text) {
    Get(members, key) == Some(Str(t)) && Strip(t) != []
  }

  lemma {:induction false} FirstAnswerIs(members: seq<(Text, Value)>, keys: seq<Text>)
    ensures match FirstAnswer(members, keys)
            case Some(t) =>
              exists i :: 0 <= i < |keys| && Tells(members, keys[i], t)
                && forall j, u :: 0 <= j < i ==> !Tells(members, keys[j], u)
            case None => forall i, u :: 0 <= i < |keys| ==> !Tells(members, keys[i], u)
  {
    hide Strip;
    if keys != [] {
      FirstAnswerIs(members, keys[1..]);
      var rest := FirstAnswer(members, keys[1..]);
      if t :| Tells(members, keys[0], t) {
        assert FirstAnswer(members, keys) == Some(t);
      } else {
        var v := Get(members, keys[0]);
        if v.Some? && v.value.Str? { assert !Tells(members, keys[0], v.value.text); }
        assert FirstAnswer(members, keys) == rest;
        if rest.Some? {
          var i :| 0 <= i < |keys[1..]| && Tells(members, keys[1..][i], rest.value)
            && forall j, u :: 0 <= j < i ==> !Tells(members, keys[1..][j], u);
          Later(members, keys, i, rest.value);
        }
      }
    }
  }

  lemma Later(members: seq<(Text, Value)>, keys: seq<Text>, i: nat, t: Text)
    requires keys != [] && i < |keys[1..]| && Tells(members, keys[1..][i], t)
    requires forall u :: !Tells(members, keys[0], u)
    requires forall j, u :: 0 <= j < i ==> !Tells(members, keys[1..][j], u)
    ensures exists k :: (0 <= k < |keys| && Tells(members, keys[k], t)
      && forall j, u :: 0 <= j < k ==> !Tells(members, keys[j], u))
  {
    assert Tells(members, keys[i + 1], t);
    forall j, u | 0 <= j < i + 1 ensures !Tells(members, keys[j], u) {
      if j > 0 { assert keys[1..][j - 1] == keys[j]; }
    }
  }

  /** Field `i` is the first with its key, and the key's value is not null. */
  ghost predicate Listed(members: seq<(Text, Value)>, i: int) {
    && 0 <= i < |members|
    && (forall j :: 0 <= j < i ==> members[j].0 != members[i].0)
    && Get(members, members[i].0) != Some(Null)
  }

  ghost function Field(py: Python, members: seq<(Text, Value)>, i: int): Text
    requires 0 <= i < |members|
  {
    var v := Get(members, members[i].0);
    members[i].0 + Lit(": ") + (if v.None? then [] else if v.value.Str? then v.value.text else py.str(v.value))
  }

  /** The listed fields from place `from` on, at these places. */
  ghost predicate Places(members: seq<(Text, Value)>, from: nat, at: seq<nat>) {
    && (forall k :: 0 <= k < |at| ==> from <= at[k] && Listed(members, at[k]))
    && (forall j, k :: 0 <= j < k < |at| ==> at[j] < at[k])
    && (forall i :: from <= i && Listed(members, i) ==> i in at)
  }

  ghost function Fields(py: Python, members: seq<(Text, Value)>, at: seq<nat>): seq<Text>
    requires forall k :: 0 <= k < |at| ==> at[k] < |members|
  {
    seq(|at|, k requires 0 <= k < |at| => Field(py, members, at[k]))
  }

  lemma PlacesFirst(members: seq<(Text, Value)>, from: nat, rest: seq<nat>)
    requires Places(members, from + 1, rest) && Listed(members, from)
    ensures Places(members, from, [from] + rest)
  {
    hide Listed;
    var at := [from] + rest;
    forall k | 0 <= k < |at| ensures from <= at[k] && Listed(members, at[k]) {
      if k > 0 { assert at[k] == rest[k - 1]; }
    }
    forall j, k | 0 <= j < k < |at| ensures at[j] < at[k] {
      assert at[k] == rest[k - 1];
      if j > 0 { assert at[j] == rest[j - 1]; }
    }
    forall i | from <= i && Listed(members, i) ensures i in at {
      if i > from { assert i in rest; } else { assert at[0] == i; }
    }
  }

  lemma PlacesSkip(members: seq<(Text, Value)>, from: nat, rest: seq<nat>)
    requires Places(members, from + 1, rest) && !Listed(members, from)
    ensures Places(members, from, rest)
  {
    hide Listed;
  }

  lemma ListedIs(members: seq<(Text, Value)>, from: nat, seen: set<Text>)
    requires from < |members|
    requires forall t :: t in seen <==> exists j :: 0 <= j < from && members[j].0 == t
    ensures var k := members[from].0;
      && Get(members, k).Some?
      && (Listed(members, from) <==> !(k in seen || Get(members, k).value.Null?))
  {
  }

  lemma {:induction false} JoinFieldsIs(py: Python, members: seq<(Text, Value)>, from: nat, seen: set<Text>)
    returns (at: seq<nat>)
    requires from <= |members|
    requires forall t :: t in seen <==> exists j :: 0 <= j < from && members[j].0 == t
    ensures Places(members, from, at)
    ensures JoinFields(py, members, members[from..], seen) == Joined(Fields(py, members, at), Lit("; "))
    decreases |members| - from
  {
    if from == |members| {
      at := [];
    } else {
      hide Lit, Listed, Places, Joined, Fields, Field, Get;
      var k := members[from].0;
      SeenMore(members, from, seen);
      var rest := JoinFieldsIs(py, members, from + 1, seen + {k});
      PlacesInside(members, from + 1, rest);
      JoinStep(py, members, from, seen);
      if Listed(members, from) {
        at := [from] + rest;
        PlacesFirst(members, from, rest);
        FieldFirst(py, members, from, rest);
      } else {
        at := rest;
        PlacesSkip(members, from, rest);
      }
    }
  }

  /** One round of the join. */
  lemma JoinStep(py: Python, members: seq<(Text, Value)>, from: nat, seen: set<Text>)
    requires from < |members|
    requires forall t :: t in seen <==> exists j :: 0 <= j < from && members[j].0 == t
    ensures var rest, sep := JoinFields(py, members, members[from + 1..], seen + {members[from].0}), Lit("; ");
      JoinFields(py, members, members[from..], seen)
        == if !Listed(members, from) then rest
           else if rest == [] then Field(py, members, from) else Field(py, members, from) + sep + rest
  {
    ListedIs(members, from, seen);
    hide Lit, Listed, Get;
    assert members[from..][1..] == members[from + 1..];
    assert members[from..][0] == members[from];
  }

  lemma SeenMore(members: seq<(Text, Value)>, from: nat, seen: set<Text>)
    requires from < |members|
    requires forall t :: t in seen <==> exists j :: 0 <= j < from && members[j].0 == t
    ensures forall t :: t in seen + {members[from].0} <==> exists j :: 0 <= j < from + 1 && members[j].0 == t
  {
  }

  lemma PlacesInside(members: seq<(Text, Value)>, from: nat, at: seq<nat>)
    requires Places(members, from, at)
    ensures forall k :: 0 <= k < |at| ==> at[k] < |members|
  {
  }

  /** One more field in front. */
  lemma FieldFirst(py: Python, members: seq<(Text, Value)>, from: nat, rest: seq<nat>)
    requires from < |members| && forall k :: 0 <= k < |rest| ==> rest[k] < |members|
    ensures var others, sep := Joined(Fields(py, members, rest), Lit("; ")), Lit("; ");
      Joined(Fields(py, members, [from] + rest), sep)
        == if others == [] then Field(py, members, from) else Field(py, members, from) + sep + others
  {
    FieldsShow(py, members, rest);
    hide Lit, Field;
    var fields := Fields(py, members, [from] + rest);
    assert fields[1..] == Fields(py, members, rest);
    assert fields[0] == Field(py, members, from);
  }

  /** No field is written as nothing. */
  lemma FieldsShow(py: Python, members: seq<(Text, Value)>, at: seq<nat>)
    requires forall k :: 0 <= k < |at| ==> at[k] < |members|
    ensures Joined(Fields(py, members, at), Lit("; ")) == [] <==> at == []
  {
    assert |Lit(": ")| == 2;
    if at != [] { assert |Fields(py, members, at)[0]| >= 2; }
  }

  /** What an answer in a tool's shape says: a text is itself; of an object, the first
      of five fields that is a text and shows something, and if there is none, every
      field that is not null, once and in order, as `key: value` with semicolons in
      between; anything else is written out, and nothing as nothing. */
  lemma FinalTextIs(py: Python, args: Value) returns (at: seq<nat>)
    ensures args.Str? ==> FinalText(py, Some(args)) == args.text
    ensures args.Null? ==> FinalText(py, Some(args)) == []
    ensures !args.Str? && !args.Null? && !args.Object? ==> FinalText(py, Some(args)) == py.str(args)
    ensures args.Object? ==>
      var keys := [Lit("answer"), Lit("final"), Lit("text"), Lit("content"), Lit("response")];
      || (exists i :: 0 <= i < 5 && Tells(args.members, keys[i], FinalText(py, Some(args)))
            && forall j, u :: 0 <= j < i ==> !Tells(args.members, keys[j], u))
      || ((forall i, u :: 0 <= i < 5 ==> !Tells(args.members, keys[i], u))
          && Places(args.members, 0, at)
          && FinalText(py, Some(args)) == Joined(Fields(py, args.members, at), Lit("; ")))
  {
    at := [];
    if args.Object? {
      var keys := [Lit("answer"), Lit("final"), Lit("text"), Lit("content"), Lit("response")];
      hide Lit, Tells, FirstAnswer, Places;
      assert ANSWER_KEYS == keys;
      FirstAnswerIs(args.members, keys);
      at := JoinFieldsIs(py, args.members, 0, {});
      assert args.members[0..] == args.members;
    }
  }

  // --- the parse ----------------------------------------------------------------------------

  /** "final", each letter in either case. */
  ghost predicate NamesFinal(name: Text) {
    var word := Lit("final");
    |name| == 5 && forall i :: 0 <= i < 5 ==> name[i] == word[i] || name[i] == word[i] - 0x20
  }

  lemma NamesFinalIs(name: Text)
    ensures LowersToFinal(name) <==> NamesFinal(name)
  {
    var word := Lit("final");
    assert forall i :: 0 <= i < 5 ==> 0x61 <= word[i] <= 0x7A;
  }

  /** Arguments that Python's `or {}` throws away. */
  ghost predicate Empty(py: Python, v: Value) {
    || v in [Null, Bool(false), Str([]), Array([]), Object([])]
    || (v.Number? && py.zero(v.lexeme))
  }

  ghost predicate Has(v: Option<Value>, key: string) {
    v.Some? && v.value.Object? && Get(v.value.members, Lit(key)).Some?
  }

  ghost function At(v: Option<Value>, key: string): Value
    requires Has(v, key)
  {
    Get(v.value.members, Lit(key)).value
  }

  ghost function Written(py: Python, v: Value): Text { if v.Str? then v.text else py.str(v) }

  /** The whole parse by cases: a response that is no object with a `tool` or a
      `final` is malformed, and is its own answer; a tool called final, however
      spelled, is an answer; any other is one call of it, with no arguments when they
      are missing or empty, and refused when they are no object; and `final` without
      `tool` is an answer. */
  lemma ParseIs(py: Python, raw: Text)
    ensures var v, p := Loads(Clean(raw)), Parse(py, raw);
      && (p.Parsed? ==> p.response.raw == raw && !p.response.streamed)
      && (p.Parsed? && p.response.malformed <==> !Has(v, "tool") && !Has(v, "final"))
      && (p.Parsed? && p.response.malformed ==>
        p.response.text == raw && p.response.isFinal && p.response.toolCalls == [])
      && (Has(v, "tool") && NamesFinal(Written(py, At(v, "tool"))) ==>
        p.Parsed? && p.response.isFinal && p.response.toolCalls == []
        && p.response.text == FinalText(py, Get(v.value.members, Lit("args"))))
      && (Has(v, "tool") && !NamesFinal(Written(py, At(v, "tool"))) ==>
        var none := !Has(v, "args") || Empty(py, At(v, "args"));
        && (p.Raised? <==> !none && !At(v, "args").Object?)
        && (p.Parsed? ==> !p.response.isFinal && p.response.text == [])
        && (p.Parsed? ==>
          p.response.toolCalls ==
            [ParsedToolCall(Written(py, At(v, "tool")), if none then [] else At(v, "args").members)]))
      && (!Has(v, "tool") && Has(v, "final") ==>
        p.Parsed? && p.response.isFinal && p.response.toolCalls == []
        && p.response.text == Written(py, At(v, "final")))
  {
    var v := Loads(Clean(raw));
    if Has(v, "tool") {
      NamesFinalIs(Written(py, At(v, "tool")));
      if Has(v, "args") { EmptyIs(py, At(v, "args")); }
    }
    hide Lit, Loads, Clean, LowersToFinal, NamesFinal, Falsy, Empty, FinalText;
  }

  lemma EmptyIs(py: Python, v: Value)
    ensures Falsy(py, v) <==> Empty(py, v)
  {
  }
}
