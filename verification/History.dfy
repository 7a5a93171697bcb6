/** What the agent loop keeps in its variables, told as functions of the history of
    tool calls: backend/agent/loop.py keeps running summaries, and the loop is
    proved to keep them equal to these. */
module History {
  import opened Codes

  /** A tool's name and its arguments in canonical form. */
  datatype Signature = Signature(name: Text, args: Text)

  /** One answered request that asked for a tool. `offered` is what the grammar of
      that request allowed; None when the grammar was off. */
  datatype Act =
    | Executed(sig: Signature, offered: Option<seq<Text>>, ok: bool, down: bool)
    | Nudged(sig: Signature)

  const MAX_TOOL_RETRIES := 3
  const MAX_LOOP_NUDGES := 1

  function Init(h: seq<Act>): seq<Act>
    requires h != []
  {
    h[..|h| - 1]
  }

  function Last(h: seq<Act>): Act
    requires h != []
  {
    h[|h| - 1]
  }

  /** The signatures executed, in order. */
  function Signatures(h: seq<Act>): seq<Signature> {
    if h == [] then []
    else Signatures(Init(h)) + (if Last(h).Executed? then [Last(h).sig] else [])
  }

  /** Whether the latest execution of `sig` failed. */
  predicate LatestFailed(h: seq<Act>, sig: Signature) {
    if h == [] then false
    else if Last(h).Executed? && Last(h).sig == sig then !Last(h).ok
    else LatestFailed(Init(h), sig)
  }

  /** Failures of `name` since its last success, not counting those in which its
      service was down. */
  function Streak(h: seq<Act>, name: Text): nat {
    if h == [] then 0
    else if Last(h).Executed? && Last(h).sig.name == name then
      if Last(h).ok then 0 else if Last(h).down then Streak(Init(h), name) else Streak(Init(h), name) + 1
    else Streak(Init(h), name)
  }

  /** Nudges since the last execution. */
  function NudgesSince(h: seq<Act>): nat {
    if h == [] || Last(h).Executed? then 0 else NudgesSince(Init(h)) + 1
  }

  /** Tools that reported themselves down. */
  function Down(h: seq<Act>): set<Text> {
    if h == [] then {}
    else Down(Init(h)) + (if Last(h).Executed? && Last(h).down then {Last(h).sig.name} else {})
  }

  function LastTwo<T>(s: seq<T>): seq<T> { if |s| <= 2 then s else s[|s| - 2..] }

  /** An execution with at most one more behind it. */
  predicate Recent(h: seq<Act>, i: int) {
    && 0 <= i < |h| && h[i].Executed?
    && forall a, b :: i < a < |h| && i < b < |h| && h[a].Executed? && h[b].Executed? ==> a == b
  }

  /** The latest execution of `sig`. */
  predicate LatestOf(h: seq<Act>, k: int, sig: Signature) {
    && 0 <= k < |h| && h[k].Executed? && h[k].sig == sig
    && forall m :: k < m < |h| && h[m].Executed? ==> h[m].sig != sig
  }

  /** A call that is one of the two most recent executions again, and did not fail
      when it was last executed. */
  ghost predicate IsRepeat(h: seq<Act>, sig: Signature) {
    (exists i :: Recent(h, i) && h[i].sig == sig) && forall k :: LatestOf(h, k, sig) ==> h[k].ok
  }

  /** No tool has failed too often in a row. */
  ghost predicate BelowCap(h: seq<Act>) {
    forall name :: Streak(h, name) < MAX_TOOL_RETRIES
  }

  /** Every act is one the rules allow after the ones before it: nothing happens
      once a tool is at its cap, a call that repeats one of the last two executed
      is executed only if it last failed, otherwise nudged, and nudges in a row
      are few. */
  ghost predicate Disciplined(h: seq<Act>) {
    h == [] ||
    (Disciplined(Init(h)) && BelowCap(Init(h)) &&
     match Last(h)
     case Executed(sig, _, ok, down) => !IsRepeat(Init(h), sig) && (down ==> !ok)
     case Nudged(sig) => IsRepeat(Init(h), sig) && NudgesSince(Init(h)) < MAX_LOOP_NUDGES)
  }

  /** What Disciplined says about any place in the history. */
  lemma {:induction false} DisciplinedAt(h: seq<Act>, i: nat)
    requires Disciplined(h) && i < |h|
    ensures Disciplined(h[..i]) && BelowCap(h[..i])
    ensures h[i].Executed? ==> !IsRepeat(h[..i], h[i].sig)
    ensures h[i].Nudged? ==> IsRepeat(h[..i], h[i].sig)
  {
    hide IsRepeat;
    if i < |h| - 1 {
      DisciplinedAt(Init(h), i);
      assert Init(h)[..i] == h[..i];
    }
  }

  // --- the same, told by places in the history -----------------------------------------------------

  lemma {:induction false} LatestFailedIs(h: seq<Act>, sig: Signature)
    ensures LatestFailed(h, sig) <==> exists k :: LatestOf(h, k, sig) && !h[k].ok
  {
    if h != [] {
      var n := |h| - 1;
      if Last(h).Executed? && Last(h).sig == sig {
        assert LatestOf(h, n, sig);
      } else {
        LatestFailedIs(Init(h), sig);
        forall k ensures LatestOf(h, k, sig) <==> LatestOf(Init(h), k, sig) { SameLatest(h, k, sig); }
      }
    }
  }

  lemma SameLatest(h: seq<Act>, k: int, sig: Signature)
    requires h != [] && !(Last(h).Executed? && Last(h).sig == sig)
    ensures LatestOf(h, k, sig) <==> LatestOf(Init(h), k, sig)
  {
    assert forall m :: 0 <= m < |h| - 1 ==> Init(h)[m] == h[m];
  }

  /** Where the last execution is, if there is one. */
  predicate Final(h: seq<Act>, i: int) {
    0 <= i < |h| && h[i].Executed? && forall m :: i < m < |h| ==> h[m].Nudged?
  }

  lemma {:induction false} FinalExecuted(h: seq<Act>)
    ensures (Signatures(h) == [] <==> forall i :: 0 <= i < |h| ==> h[i].Nudged?)
    ensures Signatures(h) != [] ==> exists i :: Final(h, i) && Signatures(h) == Signatures(h[..i]) + [h[i].sig]
  {
    if h != [] {
      var n := |h| - 1;
      if Last(h).Executed? {
        assert Final(h, n) && h[..n] == Init(h);
      } else {
        FinalExecuted(Init(h));
        assert Signatures(Init(h)) + [] == Signatures(Init(h));
        if Signatures(h) != [] {
          var i :| Final(Init(h), i) && Signatures(Init(h)) == Signatures(Init(h)[..i]) + [Init(h)[i].sig];
          assert Init(h)[..i] == h[..i] && Final(h, i);
        }
        assert forall i :: 0 <= i < n ==> Init(h)[i] == h[i];
      }
    }
  }

  lemma TwoLast<T>(s: seq<T>, a: T, b: T, x: T)
    ensures x in LastTwo(s + [a] + [b]) <==> x == a || x == b
    ensures x in LastTwo([a]) <==> x == a
  {
    assert LastTwo(s + [a] + [b]) == [a, b];
  }

  /** The last two signatures are those of the two most recent executions. */
  lemma LastTwoAre(h: seq<Act>, sig: Signature)
    ensures sig in LastTwo(Signatures(h)) <==> exists i :: Recent(h, i) && h[i].sig == sig
  {
    FinalExecuted(h);
    if Signatures(h) == [] {
      assert forall i :: !Recent(h, i);
    } else {
      var i :| Final(h, i) && Signatures(h) == Signatures(h[..i]) + [h[i].sig];
      FinalExecuted(h[..i]);
      if Signatures(h[..i]) == [] {
        OnlyOne(h, i);
        hide Recent, LastTwo, Signatures, Final;
        TwoLast([], h[i].sig, h[i].sig, sig);
        assert [] + [h[i].sig] == [h[i].sig];
      } else {
        var j :| Final(h[..i], j) && Signatures(h[..i]) == Signatures(h[..i][..j]) + [h[..i][j].sig];
        OnlyTwo(h, i, j);
        hide Recent, LastTwo, Signatures, Final;
        TwoLast(Signatures(h[..i][..j]), h[j].sig, h[i].sig, sig);
      }
    }
  }

  lemma OnlyOne(h: seq<Act>, i: int)
    requires Final(h, i) && forall m :: 0 <= m < i ==> h[..i][m].Nudged?
    ensures forall k :: Recent(h, k) <==> k == i
  {
    assert forall m :: 0 <= m < i ==> h[..i][m] == h[m];
  }

  lemma OnlyTwo(h: seq<Act>, i: int, j: int)
    requires Final(h, i) && Final(h[..i], j)
    ensures forall k :: Recent(h, k) <==> k == i || k == j
  {
    assert forall m :: 0 <= m < i ==> h[..i][m] == h[m];
    forall k ensures Recent(h, k) <==> k == i || k == j {
      if Recent(h, k) && k < j { assert h[j].Executed? && h[i].Executed?; }
    }
  }

  /** The loop's test for a repeat is just that. */
  lemma RepeatIs(h: seq<Act>, sig: Signature)
    ensures IsRepeat(h, sig) <==> sig in LastTwo(Signatures(h)) && !LatestFailed(h, sig)
  {
    LastTwoAre(h, sig);
    LatestFailedIs(h, sig);
    forall k, m | LatestOf(h, k, sig) && LatestOf(h, m, sig) ensures k == m { LatestOnce(h, k, m, sig); }
    if i :| Recent(h, i) && h[i].sig == sig { HasLatest(h, i); }
    hide LatestOf, Recent, LastTwo, Signatures, LatestFailed;
  }

  lemma LatestOnce(h: seq<Act>, k: int, m: int, sig: Signature)
    requires LatestOf(h, k, sig) && LatestOf(h, m, sig)
    ensures k == m
  {
  }

  /** Whatever happens in a run: a call executed again with at most one other
      execution in between had failed when it was last executed. */
  lemma SoonAgainFailed(h: seq<Act>, i: nat, j: nat)
    requires Disciplined(h) && i < j < |h| && h[i].Executed? && h[j].Executed? && h[i].sig == h[j].sig
    requires forall a, b :: i < a < j && i < b < j && h[a].Executed? && h[b].Executed? ==> a == b
    ensures exists k :: (i <= k < j && h[k].Executed? && h[k].sig == h[j].sig && !h[k].ok
      && forall m :: k < m < j && h[m].Executed? ==> h[m].sig != h[j].sig)
  {
    DisciplinedAt(h, j);
    hide Disciplined, BelowCap;
    RecentFront(h, i, j);
    var k :| LatestOf(h[..j], k, h[j].sig) && !h[..j][k].ok;
    LatestFront(h, i, j, k);
  }

  lemma RecentFront(h: seq<Act>, i: nat, j: nat)
    requires i < j < |h| && h[i].Executed?
    requires forall a, b :: i < a < j && i < b < j && h[a].Executed? && h[b].Executed? ==> a == b
    ensures Recent(h[..j], i) && h[..j][i].sig == h[i].sig
  {
  }

  lemma LatestFront(h: seq<Act>, i: nat, j: nat, k: int)
    requires i < j < |h| && h[i].Executed? && h[i].sig == h[j].sig && LatestOf(h[..j], k, h[j].sig)
    ensures i <= k < j && h[k] == h[..j][k] && h[k].Executed? && h[k].sig == h[j].sig
    ensures forall m :: k < m < j && h[m].Executed? ==> h[m].sig != h[j].sig
  {
    assert forall m :: 0 <= m < j ==> h[..j][m] == h[m];
  }

  /** Every nudge in a run answers a call that is one of the two most recent
      executions, and whose latest execution succeeded. */
  lemma NudgeAnswersRepeat(h: seq<Act>, j: nat)
    requires Disciplined(h) && j < |h| && h[j].Nudged?
    ensures exists i :: Recent(h[..j], i) && h[i].sig == h[j].sig
    ensures exists k :: LatestOf(h[..j], k, h[j].sig) && h[k].ok
  {
    DisciplinedAt(h, j);
    hide Disciplined, BelowCap;
    var i :| Recent(h[..j], i) && h[..j][i].sig == h[j].sig;
    assert h[i].sig == h[j].sig;
    HasLatest(h[..j], i);
    var k :| LatestOf(h[..j], k, h[j].sig);
    assert h[k] == h[..j][k];
  }

  lemma {:induction false} HasLatest(h: seq<Act>, i: int)
    requires 0 <= i < |h| && h[i].Executed?
    ensures exists k :: LatestOf(h, k, h[i].sig)
    decreases |h| - i
  {
    if m :| i < m < |h| && h[m].Executed? && h[m].sig == h[i].sig { HasLatest(h, m); } else {
      assert LatestOf(h, i, h[i].sig);
    }
  }

  /** A failure of `name` that still counts: no success of it since. */
  predicate Counts(h: seq<Act>, k: int, name: Text) {
    && 0 <= k < |h| && h[k].Executed? && h[k].sig.name == name && !h[k].ok && !h[k].down
    && forall m :: k < m < |h| && h[m].Executed? && h[m].sig.name == name ==> !h[m].ok
  }

  function Counted(h: seq<Act>, name: Text): set<int> { set k | 0 <= k < |h| && Counts(h, k, name) }

  lemma CountedAfterSuccess(h: seq<Act>, name: Text)
    requires h != [] && Last(h).Executed? && Last(h).sig.name == name && Last(h).ok
    ensures Counted(h, name) == {}
  {
    forall k | 0 <= k < |h| ensures !Counts(h, k, name) {
      if k < |h| - 1 { assert h[|h| - 1].ok; }
    }
  }

  lemma CountedSnoc(h: seq<Act>, name: Text)
    requires h != [] && !(Last(h).Executed? && Last(h).sig.name == name && Last(h).ok)
    ensures |h| - 1 !in Counted(Init(h), name)
    ensures Counted(h, name) == if Last(h).Executed? && Last(h).sig.name == name && !Last(h).down
      then Counted(Init(h), name) + {|h| - 1} else Counted(Init(h), name)
  {
    assert forall m :: 0 <= m < |h| - 1 ==> Init(h)[m] == h[m];
    forall k | 0 <= k < |h| - 1 ensures Counts(h, k, name) <==> Counts(Init(h), k, name) {}
  }

  /** The streak is the number of those. */
  lemma {:induction false} StreakIs(h: seq<Act>, name: Text)
    ensures Streak(h, name) == |Counted(h, name)|
  {
    if h != [] {
      hide Counted;
      StreakIs(Init(h), name);
      if Last(h).Executed? && Last(h).sig.name == name && Last(h).ok {
        CountedAfterSuccess(h, name);
      } else {
        CountedSnoc(h, name);
      }
    }
  }

  lemma {:induction false} DownAre(h: seq<Act>, name: Text)
    ensures name in Down(h) <==> exists i :: 0 <= i < |h| && h[i].Executed? && h[i].down && h[i].sig.name == name
  {
    if h != [] {
      DownAre(Init(h), name);
      assert forall m :: 0 <= m < |h| - 1 ==> Init(h)[m] == h[m];
      if Last(h).Executed? && Last(h).down { assert h[|h| - 1].down; }
    }
  }

  // --- the loop's running summaries ----------------------------------------------------------

  ghost predicate TracksFailures(lastFailed: map<Signature, bool>, h: seq<Act>) {
    forall sig :: (sig in lastFailed && lastFailed[sig]) <==> LatestFailed(h, sig)
  }

  lemma FailureKnown(lastFailed: map<Signature, bool>, h: seq<Act>, sig: Signature)
    requires TracksFailures(lastFailed, h)
    ensures (sig in lastFailed && lastFailed[sig]) <==> LatestFailed(h, sig)
  {
  }

  function StreakIn(failStreak: map<Text, nat>, name: Text): nat {
    if name in failStreak then failStreak[name] else 0
  }

  ghost predicate TracksStreaks(failStreak: map<Text, nat>, h: seq<Act>) {
    forall name :: StreakIn(failStreak, name) == Streak(h, name)
  }

  /** What one more act does to every summary. */
  lemma Snoc(h: seq<Act>, act: Act)
    ensures Init(h + [act]) == h && Last(h + [act]) == act
  {
  }

  lemma FailuresSnoc(lastFailed: map<Signature, bool>, h: seq<Act>, act: Act)
    requires TracksFailures(lastFailed, h) && act.Executed?
    ensures TracksFailures(lastFailed[act.sig := !act.ok], h + [act])
  {
    Snoc(h, act);
    forall sig
      ensures (sig in lastFailed[act.sig := !act.ok] && lastFailed[act.sig := !act.ok][sig]) <==>
        LatestFailed(h + [act], sig)
    {
      assert (sig in lastFailed && lastFailed[sig]) <==> LatestFailed(h, sig);
    }
  }

  lemma StreaksSnoc(failStreak: map<Text, nat>, h: seq<Act>, act: Act)
    requires TracksStreaks(failStreak, h) && act.Executed?
    ensures act.ok ==> TracksStreaks(failStreak[act.sig.name := 0], h + [act])
    ensures !act.ok && !act.down ==>
      TracksStreaks(failStreak[act.sig.name := StreakIn(failStreak, act.sig.name) + 1], h + [act])
    ensures !act.ok && act.down ==> TracksStreaks(failStreak, h + [act])
  {
    Snoc(h, act);
    forall name
      ensures Streak(h + [act], name) ==
        if act.sig.name != name || (act.down && !act.ok) then StreakIn(failStreak, name)
        else if act.ok then 0 else StreakIn(failStreak, name) + 1
    {
      assert StreakIn(failStreak, name) == Streak(h, name);
    }
  }

  lemma CapSnoc(h: seq<Act>, act: Act)
    requires BelowCap(h)
    requires act.Executed? ==> Streak(h + [act], act.sig.name) < MAX_TOOL_RETRIES
    ensures BelowCap(h + [act])
  {
    Snoc(h, act);
    forall name ensures Streak(h + [act], name) < MAX_TOOL_RETRIES {
      assert Streak(h, name) < MAX_TOOL_RETRIES;
    }
  }

  lemma NudgeSnoc(lastFailed: map<Signature, bool>, failStreak: map<Text, nat>, h: seq<Act>, act: Act)
    requires TracksFailures(lastFailed, h) && TracksStreaks(failStreak, h) && act.Nudged?
    ensures TracksFailures(lastFailed, h + [act]) && TracksStreaks(failStreak, h + [act])
    ensures Signatures(h + [act]) == Signatures(h) && Down(h + [act]) == Down(h)
    ensures NudgesSince(h + [act]) == NudgesSince(h) + 1
  {
    Snoc(h, act);
    assert Signatures(h) + [] == Signatures(h);
    forall sig ensures LatestFailed(h + [act], sig) == LatestFailed(h, sig) {}
    forall name ensures Streak(h + [act], name) == Streak(h, name) {}
  }

  lemma {:induction false} FewNudges(h: seq<Act>)
    requires Disciplined(h)
    ensures NudgesSince(h) <= MAX_LOOP_NUDGES
  {
    if h != [] && Last(h).Nudged? { FewNudges(Init(h)); }
  }

  /** Between two executions there is room for no more than the allowed nudges. */
  lemma NudgesBetween(h: seq<Act>, i: nat, j: nat)
    requires Disciplined(h) && i <= j <= |h|
    requires forall k :: i <= k < j ==> h[k].Nudged?
    ensures j - i <= MAX_LOOP_NUDGES
  {
    DisciplinedPrefix(h, j);
    FewNudges(h[..j]);
    CountNudges(h[..j], i);
  }

  lemma DisciplinedPrefix(h: seq<Act>, j: nat)
    requires Disciplined(h) && j <= |h|
    ensures Disciplined(h[..j])
  {
    if j < |h| { DisciplinedAt(h, j); } else { assert h[..j] == h; }
  }

  lemma {:induction false} CountNudges(h: seq<Act>, i: nat)
    requires i <= |h| && forall k :: i <= k < |h| ==> h[k].Nudged?
    ensures NudgesSince(h) >= |h| - i
  {
    if i < |h| { CountNudges(Init(h), i); }
  }

  // --- tools that are down -----------------------------------------------------------------

  function Without(names: seq<Text>, gone: set<Text>): seq<Text> {
    if names == [] then []
    else (if names[0] in gone then [] else [names[0]]) + Without(names[1..], gone)
  }

  lemma {:induction false} WithoutMembers(names: seq<Text>, gone: set<Text>, n: Text)
    ensures n in Without(names, gone) <==> n in names && n !in gone
  {
    if names != [] { WithoutMembers(names[1..], gone, n); }
  }

  /** Every call was asked for under the grammar the loop builds: the registered
      tools without those known to be down. */
  predicate AskedUnderGrammar(h: seq<Act>, registry: seq<Text>) {
    forall i :: 0 <= i < |h| && h[i].Executed? ==> h[i].offered == Some(Without(registry, Down(h[..i])))
  }

  lemma AskedSnoc(h: seq<Act>, act: Act, registry: seq<Text>)
    requires AskedUnderGrammar(h, registry)
    requires act.Executed? ==> act.offered == Some(Without(registry, Down(h)))
    ensures AskedUnderGrammar(h + [act], registry)
  {
    forall i | 0 <= i < |h + [act]| && (h + [act])[i].Executed?
      ensures (h + [act])[i].offered == Some(Without(registry, Down((h + [act])[..i])))
    {
      if i < |h| { assert (h + [act])[..i] == h[..i]; } else { assert (h + [act])[..i] == h; }
    }
  }

  /** The sampler obeyed the grammar it was given. */
  predicate Obeyed(h: seq<Act>) {
    forall i :: 0 <= i < |h| && h[i].Executed? && h[i].offered.Some? ==> h[i].sig.name in h[i].offered.value
  }

  lemma {:induction false} DownStays(h: seq<Act>, i: nat, j: nat)
    requires i < j <= |h| && h[i].Executed? && h[i].down
    ensures h[i].sig.name in Down(h[..j])
    decreases j
  {
    assert Init(h[..j]) == h[..j - 1] && Last(h[..j]) == h[j - 1];
    if i < j - 1 { DownStays(h, i, j - 1); }
  }

  /** If responses obey the grammar they were asked under, a tool that reported
      itself down is never executed again, and no unknown tool ever is. */
  lemma NeverAgain(h: seq<Act>, registry: seq<Text>)
    requires AskedUnderGrammar(h, registry) && Obeyed(h)
    ensures forall i, j :: 0 <= i < j < |h| && h[i].Executed? && h[i].down && h[j].Executed? ==>
      h[j].sig.name != h[i].sig.name
    ensures forall j :: 0 <= j < |h| && h[j].Executed? ==> h[j].sig.name in registry
  {
    forall j | 0 <= j < |h| && h[j].Executed? ensures h[j].sig.name in registry && h[j].sig.name !in Down(h[..j]) {
      WithoutMembers(registry, Down(h[..j]), h[j].sig.name);
    }
    forall i, j | 0 <= i < j < |h| && h[i].Executed? && h[i].down && h[j].Executed?
      ensures h[j].sig.name != h[i].sig.name
    {
      DownStays(h, i, j);
    }
  }
}
