/** Whole passes: any calls, and edits of the brain between calls. */
module ConsolidationRuns {
  // With budget cuts, time cuts, refusals and lost writes.

  import opened Options
  import opened Paths
  import opened ConsolidationPlan
  import opened ConsolidationPass

  /** How the pass in progress dealt with a pair, and the print the pair then had. */
  datatype Fate = ByCheck | ByMemory | BySkip
  datatype Deed = Deed(fate: Fate, seen: Option<Print>)

  /** The rows, and beside them what they stand for: every check ever recorded, for each pair the
      print of its last one, for each item of the memory the pair that wrote it last, and
      what the current pass did with each pair. */
  datatype State = State(x: Index, row: Option<Run>, items: Memory, log: Log, now: map<Pair, Deed>)

  datatype Log = Log(checked: set<Check>, last: map<Pair, Print>, writer: map<string, Pair>)

  const NoLog := Log({}, map[], map[])

  datatype Step =
    | Edit(x: Index)
    | Call(full: bool, id: nat, env: Env)
    | LostCall(full: bool, id: nat, env: Env, saved: nat)

  // ---------- items ----------

  predicate NoBar(pair: Pair) {
    '|' !in pair.a && '|' !in pair.b
  }

  lemma BarSplits(a: string, b: string, c: string, d: string)
    requires '|' !in a && '|' !in b && a + "|" + b == c + "|" + d
    ensures a == c && b == d
  {
    var s := a + "|" + b;
    assert s[|c|] == (c + "|" + d)[|c|] == '|';
    forall k | 0 <= k < |s| && k != |a| ensures s[k] != '|' {
      assert s[k] == (if k < |a| then a[k] else b[k - |a| - 1]);
    }
    assert s[..|a|] == a && s[|a| + 1..] == b;
    assert s == c + "|" + d;
    assert (c + "|" + d)[..|c|] == c && (c + "|" + d)[|c| + 1..] == d;
  }

  /** A pair of paths without a bar shares its item with no other pair. */
  lemma ItemInjective(p: Pair, q: Pair)
    requires NoBar(p) && ItemOf(p) == ItemOf(q)
    ensures p == q
  {
    BarSplits(p.a, p.b, q.a, q.b);
  }

  /** With a bar in a path two pairs can: the memory then answers for the wrong one. */
  lemma ItemsCollide()
    ensures Pair("a", "b|c") != Pair("a|b", "c") && ItemOf(Pair("a", "b|c")) == ItemOf(Pair("a|b", "c"))
  {
  }

  // ---------- the steps ----------

  function Recorded(log: Log, cs: seq<Check>): Log {
    if cs == [] then log
    else
      var before, c := Recorded(log, cs[..|cs| - 1]), cs[|cs| - 1];
      Log(before.checked + {c}, before.last[c.pair := c.seen], before.writer[ItemOf(c.pair) := c.pair])
  }

  function FateOf(r: Result): Fate
    requires !r.Cut?
  {
    match r
    case Kept => ByMemory
    case Skipped => BySkip
    case Cleared => ByCheck
    case Read(_) => ByCheck
  }

  /** What a call that reaches a pair does with it. */
  function DeedOf(x: Index, known: Memory, env: Env, pair: Pair): Deed
    requires !ResultOf(x, known, env, pair).Cut?
  {
    Deed(FateOf(ResultOf(x, known, env, pair)), PrintOf(x, pair))
  }

  function Fates(x: Index, known: Memory, env: Env, ps: seq<Owned>, now: map<Pair, Deed>): map<Pair, Deed> {
    if ps == [] then now
    else
      var pair := ps[|ps| - 1].pair;
      var before := Fates(x, known, env, ps[..|ps| - 1], now);
      if ResultOf(x, known, env, pair).Cut? then before else before[pair := DeedOf(x, known, env, pair)]
  }

  predicate Begins(row: Option<Run>, full: bool) {
    full || row.None? || row.value.status.Done?
  }

  /** The checks a call makes that are worth remembering. */
  function ChecksIn(s: State, full: bool, id: nat, env: Env): seq<Check> {
    var run := Continue(s.row, full, id);
    ChecksOf(s.x, Known(run, s.items), env, StartedPairs(s.x, run, Known(run, s.items), env))
  }

  predicate Enabled(s: State, step: Step) {
    step.LostCall? ==> step.saved <= |ChecksIn(s, step.full, step.id, step.env)|
  }

  function Apply(s: State, step: Step): State
    requires Enabled(s, step)
  {
    match step
    case Edit(x) => s.(x := x)
    case LostCall(full, id, env, saved) =>
      var cs := ChecksIn(s, full, id, env)[..saved];
      s.(items := Saved(s.items, cs), log := Recorded(s.log, cs))
    case Call(full, id, env) =>
      var run := Continue(s.row, full, id);
      var known := Known(run, s.items);
      var now := if Begins(s.row, full) then map[] else s.now;
      var (row, items) := Advanced(s.x, s.row, s.items, full, id, env);
      if |s.x.brain.pages| > MAX_DUP_PAGES then s.(row := Some(row), items := items, now := now)
      else
        s.(row := Some(row), items := items,
           log := Recorded(s.log, ChecksIn(s, full, id, env)),
           now := Fates(s.x, known, env, StartedPairs(s.x, run, known, env), now))
  }

  ghost predicate RunOf(ss: seq<State>, steps: seq<Step>) {
    && |ss| == |steps| + 1
    && ss[0].row == None && ss[0].items == map[] && ss[0].log == NoLog
    && forall i :: 0 <= i < |steps| ==> StepAt(ss, steps, i)
  }

  ghost predicate StepAt(ss: seq<State>, steps: seq<Step>, i: nat)
    requires i < |steps| && |ss| == |steps| + 1
  {
    Enabled(ss[i], steps[i]) && ss[i + 1] == Apply(ss[i], steps[i])
  }

  /** A call whose memory write fails is a lost call that saved its first checks, forty a transaction. */
  lemma FailedCallIsLost(s: State, full: bool, id: nat, env: Env, n: nat, after: Memory)
    requires HalfSaved(s.x, s.row, s.items, full, id, env, n, after)
    ensures var step := LostCall(full, id, env, 40 * n);
      Enabled(s, step) && Apply(s, step).items == after && Apply(s, step).row == s.row
  {
    hide ChecksOf, StartedPairs, Saved, Recorded, Known;
  }

  // ---------- what every state keeps ----------

  /** The memory says under each item exactly what the last check recorded there saw. */
  ghost predicate Remembers(items: Memory, log: Log) {
    && items.Keys == log.writer.Keys
    && (forall k :: k in log.writer ==> ItemOf(log.writer[k]) == k && log.writer[k] in log.last && items[k] == log.last[log.writer[k]])
    && (forall pair :: pair in log.last ==> ItemOf(pair) in log.writer && Check(pair, log.last[pair]) in log.checked)
  }

  /** What the pass says it did with a pair is true: the pair was checked at the print it had,
      or the memory held a check under its item of the very same print. */
  ghost predicate Honest(full: bool, log: Log, pair: Pair, d: Deed) {
    match d.fate
    case ByCheck => d.seen.Some? ==> Check(pair, d.seen.value) in log.checked
    case ByMemory => !full && d.seen.Some? && RecordedUnder(log, ItemOf(pair), d.seen.value)
    case BySkip => true
  }

  ghost predicate RecordedUnder(log: Log, item: string, seen: Print) {
    exists q :: ItemOf(q) == item && Check(q, seen) in log.checked
  }

  ghost predicate AllHonest(full: bool, log: Log, now: map<Pair, Deed>) {
    forall pair :: pair in now ==> Honest(full, log, pair, now[pair])
  }

  predicate SourceDone(run: Run, p: Path) {
    run.status.Done? || !Passed(run.cursor, p)
  }

  /** The pass has dealt with the pair at the texts it has now. */
  predicate Dealt(s: State, pair: Pair) {
    pair in s.now && s.now[pair].seen == PrintOf(s.x, pair)
  }

  /** The pass has gone by the pair: a page that owns it is at or behind the cursor, and the pair
      has not been dealt with at the texts it has now. */
  ghost predicate Lost(s: State, pair: Pair) {
    && s.row.Some? && !Dealt(s, pair)
    && exists o :: OwnedBehind(s, o) && o.pair == pair
  }

  predicate OwnedBehind(s: State, o: Owned)
    requires s.row.Some?
  {
    o.source in s.x.brain.pages && o in Own(s.x.brain, o.source) && SourceDone(s.row.value, o.source)
  }

  ghost predicate Inv(s: State) {
    Remembers(s.items, s.log) && (s.row.Some? ==> AllHonest(s.row.value.full, s.log, s.now))
  }

  // ---------- memory ----------

  lemma {:induction false} SavedIsRecorded(items: Memory, log: Log, cs: seq<Check>)
    requires Remembers(items, log)
    ensures Remembers(Saved(items, cs), Recorded(log, cs))
    decreases |cs|
  {
    hide ItemOf;
    if cs != [] { SavedIsRecorded(items, log, cs[..|cs| - 1]); }
  }

  /** The log only grows. */
  lemma {:induction false} RecordedAt(log: Log, cs: seq<Check>)
    ensures Recorded(log, cs).checked == log.checked + set c | c in cs
    decreases |cs|
  {
    if cs != [] {
      var init, c := cs[..|cs| - 1], cs[|cs| - 1];
      RecordedAt(log, init);
      assert forall d :: d in cs <==> d in init || d == c by { assert cs == init + [c]; }
    }
  }

  lemma StillHonest(full: bool, log: Log, cs: seq<Check>, pair: Pair, d: Deed)
    requires Honest(full, log, pair, d)
    ensures Honest(full, Recorded(log, cs), pair, d)
  {
    hide Recorded, ItemOf;
    RecordedAt(log, cs);
    if d.fate.ByMemory? {
      var q :| ItemOf(q) == ItemOf(pair) && Check(q, d.seen.value) in log.checked;
      assert Check(q, d.seen.value) in Recorded(log, cs).checked;
    }
  }

  /** Which checks a call remembers. */
  lemma {:induction false} ChecksMembers(x: Index, known: Memory, env: Env, ps: seq<Owned>, c: Check)
    ensures c in ChecksOf(x, known, env, ps) <==>
      && PrintOf(x, c.pair) == Some(c.seen)
      && (ResultOf(x, known, env, c.pair).Cleared? || ResultOf(x, known, env, c.pair).Read?)
      && exists o :: o in ps && o.pair == c.pair
    decreases |ps|
  {
    hide PrintOf, ResultOf;
    if ps != [] {
      var init, o := ps[..|ps| - 1], ps[|ps| - 1];
      ChecksMembers(x, known, env, init, c);
      assert forall d :: d in ps <==> d in init || d == o by { assert ps == init + [o]; }
    }
  }

  /** The started pairs have this one among them. */
  predicate Among(ps: seq<Owned>, pair: Pair) {
    exists o :: o in ps && o.pair == pair
  }

  lemma {:induction false} FatesAt(x: Index, known: Memory, env: Env, ps: seq<Owned>, now: map<Pair, Deed>, pair: Pair)
    ensures var after, r := Fates(x, known, env, ps, now), ResultOf(x, known, env, pair);
      if Among(ps, pair) && !r.Cut? then pair in after && after[pair] == DeedOf(x, known, env, pair)
      else (pair in after <==> pair in now) && (pair in now ==> after[pair] == now[pair])
    decreases |ps|
  {
    hide ResultOf, DeedOf;
    if ps != [] {
      var init, o := ps[..|ps| - 1], ps[|ps| - 1];
      FatesAt(x, known, env, init, now, pair);
      assert forall d :: d in ps <==> d in init || d == o by { assert ps == init + [o]; }
    }
  }

  // ---------- where a cut call leaves the cursor ----------

  predicate SourcesIn(os: seq<Owned>, ps: seq<Path>) {
    forall i :: 0 <= i < |os| ==> os[i].source in ps
  }

  predicate InOrder(os: seq<Owned>) {
    forall i, j :: 0 <= i < j < |os| ==> os[i].source == os[j].source || Less(os[i].source, os[j].source)
  }

  lemma OwnSource(b: Brain, p: Path)
    ensures forall i :: 0 <= i < |Own(b, p)| ==> Own(b, p)[i].source == p
  {
    hide Less;
  }

  lemma JoinInOrder(a: seq<Owned>, c: seq<Owned>, p: Path)
    requires InOrder(a) && forall i :: 0 <= i < |a| ==> Less(a[i].source, p)
    requires forall i :: 0 <= i < |c| ==> c[i].source == p
    ensures InOrder(a + c)
  {
    hide Less;
  }

  /** Sources come in path order. */
  lemma {:induction false} SourcesAscend(b: Brain, ps: seq<Path>)
    requires Increasing(ps)
    ensures SourcesIn(PairsOf(b, ps), ps) && InOrder(PairsOf(b, ps))
    decreases |ps|
  {
    hide Less, Own;
    if ps != [] {
      var init, p := ps[..|ps| - 1], ps[|ps| - 1];
      SourcesAscend(b, init);
      assert ps == init + [p];
      forall q | q in init ensures Less(q, p) {
        var i :| 0 <= i < |init| && init[i] == q;
        assert ps[i] == q;
      }
      OwnSource(b, p);
      JoinInOrder(PairsOf(b, init), Own(b, p), p);
    }
  }

  lemma {:induction false} CursorBeforeAt(ps: seq<Owned>, n: nat, open: Path, cursor: Option<Path>)
    requires n <= |ps|
    ensures var c := CursorBefore(ps, n, open, cursor);
      || (c == cursor && forall i :: 0 <= i < n ==> ps[i].source == open)
      || (exists m :: 0 <= m < n && c == Some(ps[m].source) && ps[m].source != open)
  {
    if n > 0 && ps[n - 1].source == open { CursorBeforeAt(ps, n - 1, open, cursor); }
  }

  /** In an ordered walk, what lies at or before a source that was left behind lies before
      the open pair. */
  lemma BeforeOpen(os: seq<Owned>, m: nat, open: nat, j: nat)
    requires InOrder(os) && m < open < |os| && j < |os|
    requires os[m].source != os[open].source && !Less(os[m].source, os[j].source)
    ensures j < open
  {
    if open < j { LessTransitive(os[m].source, os[open].source, os[j].source); }
  }

  lemma InPrefix(ps: seq<Path>, k: nat, p: Path, q: Path)
    requires Increasing(ps) && k <= |ps| && p in ps && q in ps[..k] && !Less(q, p)
    ensures p in ps[..k]
  {
    hide Less;
    var i :| 0 <= i < |ps| && ps[i] == p;
    var j :| 0 <= j < |ps[..k]| && ps[..k][j] == q;
    if i < k { assert ps[..k][i] == p; }
  }

  /** The source a cut call's cursor stopped at, when it moved past p. */
  lemma StoppedAt(os: seq<Owned>, open: nat, cursor: Option<Path>, p: Path) returns (m: nat)
    requires open < |os| && Passed(cursor, p) && !Passed(CursorBefore(os, open, os[open].source, cursor), p)
    ensures m < open && !Less(os[m].source, p) && os[m].source != os[open].source
  {
    CursorBeforeAt(os, open, os[open].source, cursor);
    m :| 0 <= m < open && CursorBefore(os, open, os[open].source, cursor) == Some(os[m].source)
      && os[m].source != os[open].source;
  }

  /** What a cut call's cursor passes ended before the first open pair. */
  lemma CutPassed(b: Brain, ps: seq<Path>, k: nat, open: nat, cursor: Option<Path>, p: Path, o: Owned)
    requires Increasing(ps) && k <= |ps| && p in ps && Passed(cursor, p) && o in Own(b, p)
    requires open < |PairsOf(b, ps[..k])|
    requires var os := PairsOf(b, ps[..k]); !Passed(CursorBefore(os, open, os[open].source, cursor), p)
    ensures exists j :: 0 <= j < open && PairsOf(b, ps[..k])[j] == o
  {
    hide Less, PairsOf, Passed, CursorBefore, InOrder;
    var os := PairsOf(b, ps[..k]);
    var m := StoppedAt(os, open, cursor, p);
    SourcesAscend(b, ps[..k]);
    OwnMembers(b, p, o);
    hide Own;
    assert os[m].source in ps[..k];
    InPrefix(ps, k, p, os[m].source);
    PairsOfMembers(b, ps[..k], o);
    var j :| 0 <= j < |os| && os[j] == o;
    BeforeOpen(os, m, open, j);
  }

  lemma WindowHolds(b: Brain, cursor: Option<Path>, budget: nat, costs: Pair -> bool, p: Path)
    requires p in Remaining(b, cursor)
    requires var plan := PlanAt(b, cursor, budget, costs); plan.done || !Passed(plan.last, p)
    ensures p in Remaining(b, cursor)[..Window(b, Remaining(b, cursor), budget, costs, 0)]
  {
    hide Less, Stops, PairsOf, Increasing;
    var ps := Remaining(b, cursor);
    var k := Window(b, ps, budget, costs, 0);
    WindowMoves(b, cursor, budget, costs);
    hide Remaining;
    if k == |ps| {
      assert ps[..k] == ps;
    } else {
      assert ps[..k][k - 1] == ps[k - 1];
      InPrefix(ps, k, p, ps[k - 1]);
    }
  }

  /** What a window's last source passes is in the window. */
  lemma WindowPassed(b: Brain, cursor: Option<Path>, budget: nat, costs: Pair -> bool, p: Path, o: Owned)
    requires p in Remaining(b, cursor) && o in Own(b, p)
    requires var plan := PlanAt(b, cursor, budget, costs); plan.done || !Passed(plan.last, p)
    ensures o in PlanAt(b, cursor, budget, costs).pairs
  {
    WindowHolds(b, cursor, budget, costs, p);
    OwnMembers(b, p, o);
    hide Less, Stops, Own, PairsOf, Remaining, Passed;
    PairsOfMembers(b, Remaining(b, cursor)[..Window(b, Remaining(b, cursor), budget, costs, 0)], o);
  }

  /** A source the call's new cursor passes had all its pairs started and none cut. */
  lemma PassedSources(x: Index, run: Run, known: Memory, env: Env, p: Path, o: Owned)
    requires p in x.brain.pages && o in Own(x.brain, p)
    requires Passed(run.cursor, p) && run.status.Running? && SourceDone(Stepped(x, run, known, env), p)
    ensures Among(StartedPairs(x, run, known, env), o.pair) && !ResultOf(x, known, env, o.pair).Cut?
  {
    hide ResultOf, Less, Own, Costs, Counted, CursorBefore, PlanAt, Increasing, PairsOf;
    var plan := PlanFor(x, run, known);
    var e := Started(x, known, env, plan.pairs, 0);
    var open := FirstCut(x, known, env, plan.pairs, 0, e);
    var j: nat;
    assert p in Remaining(x.brain, run.cursor);
    if open < |plan.pairs| {
      j := PlanCutPassed(x, run, known, open, p, o);
    } else {
      WindowPassed(x.brain, run.cursor, PAIRS_PER_STEP, Costs(x, known), p, o);
      j :| 0 <= j < |plan.pairs| && plan.pairs[j] == o;
    }
    assert StartedPairs(x, run, known, env)[j] == o;
  }

  lemma PlanCutPassed(x: Index, run: Run, known: Memory, open: nat, p: Path, o: Owned) returns (j: nat)
    requires p in Remaining(x.brain, run.cursor) && o in Own(x.brain, p) && open < |PlanFor(x, run, known).pairs|
    requires var os := PlanFor(x, run, known).pairs;
      !Passed(CursorBefore(os, open, os[open].source, run.cursor), p)
    ensures j < open && PlanFor(x, run, known).pairs[j] == o
  {
    hide Less, Own, Costs, CursorBefore, PairsOf, Stops;
    var ps := Remaining(x.brain, run.cursor);
    var k := Window(x.brain, ps, PAIRS_PER_STEP, Costs(x, known), 0);
    CutPassed(x.brain, ps, k, open, run.cursor, p, o);
    j :| 0 <= j < open && PairsOf(x.brain, ps[..k])[j] == o;
  }

  // ---------- each step keeps the invariant ----------

  lemma PlannedOwn(x: Index, run: Run, known: Memory, o: Owned)
    requires o in PlanFor(x, run, known).pairs
    ensures o.source in x.brain.pages && Passed(run.cursor, o.source) && o in Own(x.brain, o.source)
  {
    hide Less, Own, Costs, Stops, PairsOf;
    var ps := Remaining(x.brain, run.cursor);
    var k := Window(x.brain, ps, PAIRS_PER_STEP, Costs(x, known), 0);
    PairsOfMembers(x.brain, ps[..k], o);
    assert o.source in ps;
  }

  lemma LostCallKeeps(s: State, step: Step)
    requires Inv(s) && step.LostCall? && Enabled(s, step)
    ensures Inv(Apply(s, step))
  {
    hide ChecksIn, Honest, Saved, Recorded, Remembers;
    var cs := ChecksIn(s, step.full, step.id, step.env)[..step.saved];
    SavedIsRecorded(s.items, s.log, cs);
    if s.row.Some? {
      forall pair | pair in s.now ensures Honest(s.row.value.full, Recorded(s.log, cs), pair, s.now[pair]) {
        StillHonest(s.row.value.full, s.log, cs, pair, s.now[pair]);
      }
    }
  }

  /** What a call itself says of a pair is true. */
  lemma DeedIsHonest(s: State, full: bool, id: nat, env: Env, pair: Pair)
    requires Remembers(s.items, s.log)
    requires var run := Continue(s.row, full, id);
      var known := Known(run, s.items);
      Among(StartedPairs(s.x, run, known, env), pair) && !ResultOf(s.x, known, env, pair).Cut?
    ensures var run := Continue(s.row, full, id);
      Honest(run.full, Recorded(s.log, ChecksIn(s, full, id, env)), pair, DeedOf(s.x, Known(run, s.items), env, pair))
  {
    hide PrintOf, Recorded, ItemOf, PlanFor, ChecksOf, StartedPairs;
    var run, cs := Continue(s.row, full, id), ChecksIn(s, full, id, env);
    var known := Known(run, s.items);
    var ps := StartedPairs(s.x, run, known, env);
    RecordedAt(s.log, cs);
    if PrintOf(s.x, pair).Some? {
      var v := PrintOf(s.x, pair).value;
      ChecksMembers(s.x, known, env, ps, Check(pair, v));
      if ResultOf(s.x, known, env, pair).Kept? {
        var q := s.log.writer[ItemOf(pair)];
        assert ItemOf(q) == ItemOf(pair) && Check(q, v) in Recorded(s.log, cs).checked;
      }
    }
  }

  lemma StepKeepsFull(x: Index, run: Run, known: Memory, env: Env)
    ensures Stepped(x, run, known, env).full == run.full
  {
    hide PlanFor, Counted, FirstCut, Started, CursorBefore;
  }

  lemma CallIsHonest(s: State, full: bool, id: nat, env: Env, pair: Pair)
    requires Inv(s) && |s.x.brain.pages| <= MAX_DUP_PAGES
    requires pair in Apply(s, Call(full, id, env)).now
    ensures var t := Apply(s, Call(full, id, env));
      Honest(t.row.value.full, t.log, pair, t.now[pair])
  {
    hide PrintOf, Recorded, Saved, ItemOf, Remembers, Stepped, Fates, StartedPairs, ResultOf, Own, DeedOf,
      Less, Honest, ChecksOf;
    var run := Continue(s.row, full, id);
    var known := Known(run, s.items);
    var now := if Begins(s.row, full) then map[] else s.now;
    var ps := StartedPairs(s.x, run, known, env);
    FatesAt(s.x, known, env, ps, now, pair);
    StepKeepsFull(s.x, run, known, env);
    if Among(ps, pair) && !ResultOf(s.x, known, env, pair).Cut? {
      DeedIsHonest(s, full, id, env, pair);
    } else {
      StillHonest(s.row.value.full, s.log, ChecksIn(s, full, id, env), pair, s.now[pair]);
    }
  }

  lemma CallKeeps(s: State, full: bool, id: nat, env: Env)
    requires Inv(s)
    ensures Inv(Apply(s, Call(full, id, env)))
  {
    hide PrintOf, Recorded, Saved, ItemOf, Remembers, Honest, Less, Fates, Stepped, StartedPairs, ChecksOf,
      ChecksIn, Known;
    var t := Apply(s, Call(full, id, env));
    if |s.x.brain.pages| <= MAX_DUP_PAGES {
      SavedIsRecorded(s.items, s.log, ChecksIn(s, full, id, env));
      CallSaves(s, full, id, env);
      forall pair | pair in t.now ensures Honest(t.row.value.full, t.log, pair, t.now[pair]) {
        CallIsHonest(s, full, id, env, pair);
      }
    }
  }

  lemma CallSaves(s: State, full: bool, id: nat, env: Env)
    requires |s.x.brain.pages| <= MAX_DUP_PAGES
    ensures var t := Apply(s, Call(full, id, env));
      t.items == Saved(s.items, ChecksIn(s, full, id, env)) && t.log == Recorded(s.log, ChecksIn(s, full, id, env))
  {
    hide Recorded, Saved, Fates, Stepped, StartedPairs, ChecksOf, Known;
  }

  lemma StepKeepsInv(s: State, step: Step)
    requires Inv(s) && Enabled(s, step)
    ensures Inv(Apply(s, step))
  {
    hide Remembers, AllHonest;
    match step
    case Edit(_) =>
    case Call(full, id, env) => CallKeeps(s, full, id, env);
    case LostCall(_, _, _, _) => LostCallKeeps(s, step);
  }

  lemma {:induction false} RunKeepsInv(ss: seq<State>, steps: seq<Step>, i: nat)
    requires RunOf(ss, steps) && i < |ss|
    ensures Inv(ss[i])
  {
    hide Enabled, Apply, ItemOf;
    if i > 0 {
      RunKeepsInv(ss, steps, i - 1);
      assert StepAt(ss, steps, i - 1);
      StepKeepsInv(ss[i - 1], steps[i - 1]);
    }
  }

  // ---------- no call loses a pair ----------

  /** A call deals with what its cursor goes by, so it loses no pair; and when it begins a pass
      none is lost yet. */
  lemma CallLosesNone(s: State, full: bool, id: nat, env: Env, pair: Pair)
    requires Begins(s.row, full) || !Lost(s, pair)
    ensures !Lost(Apply(s, Call(full, id, env)), pair)
  {
    hide PrintOf, Fates, StartedPairs, ResultOf, Own, Less, SourceDone, ChecksIn, Recorded, Known;
    var t := Apply(s, Call(full, id, env));
    if o :| OwnedBehind(t, o) && o.pair == pair {
      if |s.x.brain.pages| > MAX_DUP_PAGES {
        TooManyPages(s, full, id, env, o);
      } else {
        CallDeals(s, full, id, env, o);
      }
    }
  }

  lemma TooManyPages(s: State, full: bool, id: nat, env: Env, o: Owned)
    requires |s.x.brain.pages| > MAX_DUP_PAGES
    ensures var t := Apply(s, Call(full, id, env));
      OwnedBehind(t, o) ==> !Begins(s.row, full) && OwnedBehind(s, o) && t.now == s.now
  {
    hide Less, Own;
  }

  lemma CallDeals(s: State, full: bool, id: nat, env: Env, o: Owned)
    requires |s.x.brain.pages| <= MAX_DUP_PAGES && OwnedBehind(Apply(s, Call(full, id, env)), o)
    requires Begins(s.row, full) || !Lost(s, o.pair)
    ensures Dealt(Apply(s, Call(full, id, env)), o.pair)
  {
    hide PrintOf, Recorded, Saved, ItemOf, ChecksIn, Stepped, Fates, StartedPairs, ResultOf, Own, Less, FateOf;
    var run := Continue(s.row, full, id);
    var known := Known(run, s.items);
    var now := if Begins(s.row, full) then map[] else s.now;
    FatesAt(s.x, known, env, StartedPairs(s.x, run, known, env), now, o.pair);
    if Passed(run.cursor, o.source) {
      PassedSources(s.x, run, known, env, o.source, o);
    } else {
      assert OwnedBehind(s, o);
    }
  }

  /** What an edit has to leave of a pair for the pass not to lose it: its two texts, and who
      of its pages there is and names the other. */
  predicate LeavesPair(x: Index, x': Index, pair: Pair) {
    && PrintOf(x, pair) == PrintOf(x', pair)
    && (pair.a in x.brain.pages <==> pair.a in x'.brain.pages)
    && (pair.b in x.brain.pages <==> pair.b in x'.brain.pages)
    && (pair.b in NamedBy(x.brain, pair.a) <==> pair.b in NamedBy(x'.brain, pair.a))
    && (pair.a in NamedBy(x.brain, pair.b) <==> pair.a in NamedBy(x'.brain, pair.b))
  }

  lemma SameOwners(x: Index, x': Index, o: Owned)
    requires LeavesPair(x, x', o.pair) && Less(o.pair.a, o.pair.b)
    ensures o in Own(x.brain, o.source) <==> o in Own(x'.brain, o.source)
  {
    hide Own, Less, PrintOf;
    OneOwner(x.brain, o.pair.a, o.pair.b, o.source);
    OneOwner(x'.brain, o.pair.a, o.pair.b, o.source);
  }

  /** Owned pairs are in path order, and the owner is one of the two. */
  lemma OwnedInOrder(b: Brain, o: Owned)
    requires o in Own(b, o.source)
    ensures Less(o.pair.a, o.pair.b) && (o.source == o.pair.a || o.source == o.pair.b)
  {
    OwnMembers(b, o.source, o);
    hide Own;
    var q :| q in OwnPartners(b, o.source) && o.pair == Sorted(o.source, q);
    LessTotal(o.source, q);
  }

  lemma LeavingEditLosesNone(s: State, x: Index, pair: Pair)
    requires LeavesPair(s.x, x, pair)
    ensures Lost(s.(x := x), pair) <==> Lost(s, pair)
  {
    hide Own, Less, PrintOf, SourceDone;
    if s.row.Some? {
      forall o: Owned | o.pair == pair ensures OwnedBehind(s, o) <==> OwnedBehind(s.(x := x), o) {
        if o in Own(s.x.brain, o.source) { OwnedInOrder(s.x.brain, o); SameOwners(s.x, x, o); }
        if o in Own(x.brain, o.source) { OwnedInOrder(x.brain, o); SameOwners(s.x, x, o); }
      }
    }
  }

  /** The pass in progress at i began with step b, and no edit since lost it the pair. */
  ghost predicate PassKept(ss: seq<State>, steps: seq<Step>, b: nat, i: nat, pair: Pair)
    requires |ss| == |steps| + 1 && b < i < |ss|
  {
    && steps[b].Call? && Begins(ss[b].row, steps[b].full)
    && forall k :: b < k < i && steps[k].Edit? ==> LeavesPair(ss[k].x, ss[k + 1].x, pair) || !Lost(ss[k + 1], pair)
  }

  lemma {:induction false} NotLost(ss: seq<State>, steps: seq<Step>, b: nat, i: nat, pair: Pair)
    requires RunOf(ss, steps) && b < i < |ss| && PassKept(ss, steps, b, i, pair)
    ensures ss[i].row.Some? && !Lost(ss[i], pair)
    decreases i
  {
    hide Lost, LeavesPair, ChecksIn, Recorded, Saved, Begins, Advanced, Fates;
    assert StepAt(ss, steps, i - 1);
    if i > b + 1 { NotLost(ss, steps, b, i - 1, pair); }
    match steps[i - 1]
    case Call(full, id, env) =>
      CallLosesNone(ss[i - 1], full, id, env, pair);
    case LostCall(full, id, env, saved) =>
      LostCallLosesNone(ss[i - 1], steps[i - 1], pair);
    case Edit(x) =>
      if LeavesPair(ss[i - 1].x, x, pair) { LeavingEditLosesNone(ss[i - 1], x, pair); }
  }

  lemma LostCallLosesNone(s: State, step: Step, pair: Pair)
    requires step.LostCall? && Enabled(s, step)
    ensures Lost(Apply(s, step), pair) <==> Lost(s, pair)
  {
    hide PrintOf, Own, SourceDone, ChecksIn, Saved, Recorded;
    var t := Apply(s, step);
    assert t.x == s.x && t.row == s.row && t.now == s.now;
    if s.row.Some? {
      assert forall o: Owned :: OwnedBehind(t, o) <==> OwnedBehind(s, o);
    }
  }

  // ---------- the main results ----------

  /** A DONE PASS COVERED EVERY PAIR. However a pass was cut by budgets, clocks, refusals, lost
      writes and edits: two pages of which one names the other were checked at the texts they
      have now, in this pass or, unless the pass is a full one, by a check the memory held
      of the same texts; or were skipped with these texts. No edit since the pass began
      need have left this pair alone, as long as none lost it. */
  lemma DonePassCovers(ss: seq<State>, steps: seq<Step>, b: nat, i: nat, a: Path, c: Path)
    requires RunOf(ss, steps) && b < i < |ss| && PassKept(ss, steps, b, i, Sorted(a, c))
    requires ss[i].row.Some? ==> ss[i].row.value.status.Done?
    requires a in ss[i].x.brain.pages && c in ss[i].x.brain.pages && a != c
    requires c in NamedBy(ss[i].x.brain, a) || a in NamedBy(ss[i].x.brain, c)
    ensures var s, pair := ss[i], Sorted(a, c);
      Dealt(s, pair) && s.row.Some? && Honest(s.row.value.full, s.log, pair, s.now[pair])
  {
    hide Remembers, Apply, Enabled, Own, RunOf, PassKept, PrintOf, Honest;
    RunKeepsInv(ss, steps, i);
    NotLost(ss, steps, b, i, Sorted(a, c));
    var s := ss[i];
    LessTotal(a, c);
    var x, y := if Less(a, c) then a else c, if Less(a, c) then c else a;
    if Less(c, a) { LessAsymmetric(c, a); }
    OneOwner(s.x.brain, x, y, x);
    OneOwner(s.x.brain, x, y, y);
    assert Sorted(a, c) == Pair(x, y);
    var o := Owned(if y in NamedBy(s.x.brain, x) then x else y, Pair(x, y));
    assert OwnedBehind(s, o);
  }

  /** The check hands the pair to the models. */
  predicate Asked(x: Index, known: Memory, pair: Pair) {
    !Unchanged(x, known, pair) && pair !in x.held
  }

  /** The last check recorded under the pair's item saw the texts the pair has now. */
  predicate LastSaw(s: State, pair: Pair)
    requires Inv(s)
  {
    ItemOf(pair) in s.log.writer && PrintOf(s.x, pair) == Some(s.log.last[s.log.writer[ItemOf(pair)]])
  }

  /** ASKED EXACTLY WHEN CHANGED. In a pass that is not a full one, a call hands a pair it
      reaches to the models if and only if it may be sent and no check was ever recorded
      under its item, or the last one saw another text of a page, or was another check.
      Unless a path holds a bar that last check was of this very pair. */
  lemma AskedExactlyWhenChanged(ss: seq<State>, steps: seq<Step>, i: nat, id: nat, env: Env, o: Owned)
    requires RunOf(ss, steps) && i < |ss|
    requires var s := ss[i];
      var run := Continue(s.row, false, id);
      !run.full && o in StartedPairs(s.x, run, Known(run, s.items), env)
    ensures Inv(ss[i])
    ensures var s := ss[i];
      var known := Known(Continue(s.row, false, id), s.items);
      && (Asked(s.x, known, o.pair) <==> o.pair !in s.x.held && !LastSaw(s, o.pair))
      && (ResultOf(s.x, known, env, o.pair).Kept? <==> LastSaw(s, o.pair))
      && (NoBar(o.pair) ==> (LastSaw(s, o.pair) <==> o.pair in s.log.last && PrintOf(s.x, o.pair) == Some(s.log.last[o.pair])))
  {
    hide Apply, Enabled, PlanFor, RunOf, PrintOf, ItemOf, NoBar, AllHonest;
    RunKeepsInv(ss, steps, i);
    var s := ss[i];
    if NoBar(o.pair) && ItemOf(o.pair) in s.log.writer { ItemInjective(o.pair, s.log.writer[ItemOf(o.pair)]); }
  }
}
