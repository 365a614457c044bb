/** When repeated calls bring a pass to its end, for a pass started fresh and for one that
    remembers. */
module ConsolidationProgress {
  import opened Options
  import opened Paths
  import opened ConsolidationPlan
  import opened ConsolidationPass
  import opened ConsolidationRuns

  // ---------- a full pass against a clock ----------

  /** Every model answers, and the clock lets each call start m batches. */
  ghost predicate Timed(env: Env, m: nat) {
    && (forall pair :: !env.answers(pair).Refused?)
    && (forall i: nat :: env.timeUp(i) <==> i >= CONCURRENCY * m)
  }

  /** The row and the memory after n more calls, or when the pass is done. */
  function Calls(x: Index, row: Option<Run>, items: Memory, id: nat, env: Env, n: nat): (Run, Memory) {
    if n == 0 then Advanced(x, row, items, true, id, env)
    else
      var (r, its) := Calls(x, row, items, id, env, n - 1);
      if r.status.Done? then (r, its) else Advanced(x, Some(r), its, false, id, env)
  }

  lemma {:induction false} StartedTimed(x: Index, known: Memory, env: Env, ps: seq<Owned>, i: nat, m: nat)
    requires Timed(env, m) && m > 0 && i <= |ps|
    requires i % CONCURRENCY == 0 && i <= CONCURRENCY * m
    ensures Started(x, known, env, ps, i) == if CONCURRENCY * m < |ps| then CONCURRENCY * m else |ps|
    decreases |ps| - i
  {
    hide Unchanged;
    if i < |ps| && i < CONCURRENCY * m {
      var j := BatchEnd(i, |ps|);
      if j < |ps| { StartedTimed(x, known, env, ps, j, m); }
    }
  }

  lemma NothingCut(x: Index, known: Memory, env: Env, ps: seq<Owned>, m: nat)
    requires Timed(env, m)
    ensures forall n :: 0 <= n <= |ps| ==> FirstCut(x, known, env, ps, 0, n) == n
  {
    hide Unchanged, ItemOf;
    forall n | 0 <= n <= |ps| ensures FirstCut(x, known, env, ps, 0, n) == n {
      var c := FirstCut(x, known, env, ps, 0, n);
      assert c < n ==> !env.answers(ps[c].pair).Refused?;
    }
  }

  lemma OwnDistinct(b: Brain, p: Path)
    ensures forall i, j :: 0 <= i < j < |Own(b, p)| ==> Own(b, p)[i] != Own(b, p)[j]
  {
    hide Less;
    var os := Ascending(OwnPartners(b, p));
    forall i, j | 0 <= i < j < |os| ensures Own(b, p)[i] != Own(b, p)[j] {
      LessIrreflexive(os[i]);
      assert os[i] in os && os[j] in os;
      if Sorted(p, os[i]) == Sorted(p, os[j]) { SortedSame(p, os[i], p, os[j]); }
    }
  }

  lemma {:induction false} DistinctCount(s: seq<Owned>)
    requires forall i, j :: 0 <= i < j < |s| ==> s[i] != s[j]
    ensures |set o | o in s| == |s|
  {
    if s != [] {
      var init, last := s[..|s| - 1], s[|s| - 1];
      DistinctCount(init);
      assert (set o | o in s) == (set o | o in init) + {last} by { assert s == init + [last]; }
    }
  }

  lemma {:induction false} CountAtMost(s: seq<Owned>)
    ensures |set o | o in s| <= |s|
  {
    if s != [] {
      var init, last := s[..|s| - 1], s[|s| - 1];
      CountAtMost(init);
      assert (set o | o in s) == (set o | o in init) + {last} by { assert s == init + [last]; }
    }
  }

  lemma SubsetCount(a: set<Owned>, c: set<Owned>)
    requires a <= c
    ensures |a| <= |c|
  {
    assert c == a + (c - a);
  }

  lemma Pigeonhole(s: seq<Owned>, t: seq<Owned>)
    requires forall i, j :: 0 <= i < j < |s| ==> s[i] != s[j]
    requires forall o :: o in s ==> o in t
    ensures |s| <= |t|
  {
    DistinctCount(s);
    CountAtMost(t);
    SubsetCount(set o | o in s, set o | o in t);
  }

  /** A source with more pairs than a call has time for is never passed. */
  lemma LongSourceStays(x: Index, run: Run, env: Env, m: nat, p: Path)
    requires run.full && run.status.Running? && Timed(env, m) && m > 0
    requires p in x.brain.pages && Passed(run.cursor, p) && |Own(x.brain, p)| > CONCURRENCY * m
    ensures !SourceDone(Stepped(x, run, map[], env), p)
    ensures Stepped(x, run, map[], env).status.Running?
  {
    hide Own, Less, ResultOf, PlanFor, Counted, CursorBefore;
    var ps := PlanFor(x, run, map[]).pairs;
    StartedTimed(x, map[], env, ps, 0, m);
    NothingCut(x, map[], env, ps, m);
    if SourceDone(Stepped(x, run, map[], env), p) {
      var started := StartedPairs(x, run, map[], env);
      forall o | o in Own(x.brain, p) ensures o in started {
        PassedSources(x, run, map[], env, p, o);
        var o' :| o' in started && o'.pair == o.pair;
        PlannedOwn(x, run, map[], o');
        OwnMembers(x.brain, p, o);
        NoPairTwice(x.brain, o, o');
      }
      OwnDistinct(x.brain, p);
      Pigeonhole(Own(x.brain, p), started);
    }
  }

  /** A walk that starts with n pairs of one source has a source owning n pairs. */
  lemma {:induction false} OneSourcePrefix(b: Brain, ps: seq<Path>, n: nat, p: Path)
    requires Increasing(ps) && 0 < n <= |PairsOf(b, ps)|
    requires forall i :: 0 <= i < n ==> PairsOf(b, ps)[i].source == p
    ensures n <= |Own(b, p)|
    decreases |ps|
  {
    hide Own, Less;
    var init, last := ps[..|ps| - 1], ps[|ps| - 1];
    var os := PairsOf(b, init);
    OwnSource(b, last);
    SourcesAscend(b, init);
    LessIrreflexive(last);
    assert PairsOf(b, ps) == os + Own(b, last);
    hide PairsOf, InOrder;
    if n <= |os| {
      assert forall i :: 0 <= i < n ==> os[i] == PairsOf(b, ps)[i];
      OneSourcePrefix(b, init, n, p);
    } else {
      assert PairsOf(b, ps)[|os|].source == last == p;
      LastOnce(ps);
      assert PairsOf(b, ps)[0] in os || os == [];
    }
  }

  lemma LastOnce(ps: seq<Path>)
    requires Increasing(ps) && ps != []
    ensures ps[|ps| - 1] !in ps[..|ps| - 1]
  {
    LessIrreflexive(ps[|ps| - 1]);
    hide Less;
  }

  /** When no source is too long for a call, each call that is not the last passes one. */
  lemma CallPassesASource(x: Index, run: Run, env: Env, m: nat)
    requires run.full && run.status.Running? && Timed(env, m) && m > 0
    requires forall p :: p in x.brain.pages ==> |Own(x.brain, p)| <= CONCURRENCY * m
    ensures var next := Stepped(x, run, map[], env);
      next.status.Done? || (next.status.Running? && |Remaining(x.brain, next.cursor)| < |Remaining(x.brain, run.cursor)|)
  {
    hide Own, Less, Counted, PairsOf, Costs, Stops, Increasing, CursorBefore;
    var b, plan := x.brain, PlanFor(x, run, map[]);
    var ps := Remaining(b, run.cursor);
    var k := Window(b, ps, PAIRS_PER_STEP, Costs(x, map[]), 0);
    StartedTimed(x, map[], env, plan.pairs, 0, m);
    NothingCut(x, map[], env, plan.pairs, m);
    var e := Started(x, map[], env, plan.pairs, 0);
    WindowMoves(b, run.cursor, PAIRS_PER_STEP, Costs(x, map[]));
    if e < |plan.pairs| {
      CutMoves(b, ps, k, e, run.cursor);
    }
  }

  /** The place of a planned pair's source in the walk. */
  lemma SourceAt(b: Brain, cursor: Option<Path>, w: nat, m: nat) returns (j: nat)
    requires w <= |Remaining(b, cursor)| && m < |PairsOf(b, Remaining(b, cursor)[..w])|
    ensures j < w && Remaining(b, cursor)[j] == PairsOf(b, Remaining(b, cursor)[..w])[m].source
    ensures Remaining(b, cursor)[j] in b.pages
  {
    var ps := Remaining(b, cursor);
    assert forall p :: p in ps ==> p in b.pages;
    hide Remaining, Less, PairsOf, Own, InOrder;
    SourcesAscend(b, ps[..w]);
    assert PairsOf(b, ps[..w])[m].source in ps[..w];
    j :| 0 <= j < |ps[..w]| && ps[..w][j] == PairsOf(b, ps[..w])[m].source;
  }

  lemma CutMoves(b: Brain, ps: seq<Path>, k: nat, e: nat, cursor: Option<Path>)
    requires ps == Remaining(b, cursor) && k <= |ps| && 0 < e < |PairsOf(b, ps[..k])|
    requires forall p :: p in b.pages ==> |Own(b, p)| <= e
    ensures var os := PairsOf(b, ps[..k]);
      |Remaining(b, CursorBefore(os, e, os[e].source, cursor))| < |ps|
  {
    hide Own, Less, PairsOf, CursorBefore, Remaining;
    var os := PairsOf(b, ps[..k]);
    CursorBeforeAt(os, e, os[e].source, cursor);
    if forall i :: 0 <= i < e ==> os[i].source == os[e].source {
      var j := SourceAt(b, cursor, k, e);
      IncreasingWalk(b, cursor, k);
      OneSourcePrefix(b, ps[..k], e + 1, os[e].source);
    } else {
      var m :| 0 <= m < e && CursorBefore(os, e, os[e].source, cursor) == Some(os[m].source);
      var j := SourceAt(b, cursor, k, m);
      ResumeAfter(b, cursor, j + 1);
    }
  }

  lemma IncreasingWalk(b: Brain, cursor: Option<Path>, k: nat)
    requires k <= |Remaining(b, cursor)|
    ensures Increasing(Remaining(b, cursor)[..k])
  {
    hide Less;
  }

  lemma {:induction false} LongSourceNeverPassed(x: Index, row: Option<Run>, items: Memory, id: nat, env: Env, m: nat, p: Path, n: nat)
    requires |x.brain.pages| <= MAX_DUP_PAGES && Timed(env, m) && m > 0
    requires p in x.brain.pages && |Own(x.brain, p)| > CONCURRENCY * m
    ensures var r := Calls(x, row, items, id, env, n).0;
      r.full && r.status.Running? && Passed(r.cursor, p)
  {
    hide Own, Less, Stepped, ChecksOf, Saved, StartedPairs;
    if n == 0 {
      var run := Continue(row, true, id);
      LongSourceStays(x, run, env, m, p);
      StepKeepsFull(x, run, map[], env);
    } else {
      LongSourceNeverPassed(x, row, items, id, env, m, p, n - 1);
      var run := Calls(x, row, items, id, env, n - 1).0;
      LongSourceStays(x, run, env, m, p);
      StepKeepsFull(x, run, map[], env);
    }
  }

  lemma {:induction false} CallsFinish(x: Index, row: Option<Run>, items: Memory, id: nat, env: Env, m: nat, n: nat)
    requires |x.brain.pages| <= MAX_DUP_PAGES && Timed(env, m) && m > 0
    requires forall p :: p in x.brain.pages ==> |Own(x.brain, p)| <= CONCURRENCY * m
    ensures var r := Calls(x, row, items, id, env, n).0;
      || r.status.Done?
      || (r.full && r.status.Running? && |Remaining(x.brain, r.cursor)| + n + 1 <= |x.brain.pages|)
  {
    hide Own, Less, Stepped, ChecksOf, Saved, StartedPairs, Remaining;
    if n == 0 {
      var run := Continue(row, true, id);
      CallPassesASource(x, run, env, m);
      StepKeepsFull(x, run, map[], env);
      WholePass(x.brain);
    } else {
      CallsFinish(x, row, items, id, env, m, n - 1);
      var run := Calls(x, row, items, id, env, n - 1).0;
      if !run.status.Done? {
        CallPassesASource(x, run, env, m);
        StepKeepsFull(x, run, map[], env);
      }
    }
  }

  lemma WholePass(b: Brain)
    ensures |Remaining(b, None)| == |b.pages|
  {
    assert (set p | p in b.pages && Passed(None, p)) == b.pages;
  }

  /** A FULL PASS MAY NEVER END. A full pass whose calls each have time for m batches comes to
      an end if and only if no page owns more pairs than m batches hold; and then within one
      call a page. Nothing is remembered between its calls, so the pairs of a longer page
      are checked again from the first, call after call. */
  lemma FullPassEndsIff(x: Index, row: Option<Run>, items: Memory, id: nat, env: Env, m: nat)
    requires |x.brain.pages| <= MAX_DUP_PAGES && Timed(env, m) && m > 0
    ensures (exists n: nat :: Calls(x, row, items, id, env, n).0.status.Done?)
       <==> (forall p :: p in x.brain.pages ==> |Own(x.brain, p)| <= CONCURRENCY * m)
    ensures (forall p :: p in x.brain.pages ==> |Own(x.brain, p)| <= CONCURRENCY * m)
       ==> Calls(x, row, items, id, env, |x.brain.pages|).0.status.Done?
  {
    hide Own, Calls;
    if forall p :: p in x.brain.pages ==> |Own(x.brain, p)| <= CONCURRENCY * m {
      CallsFinish(x, row, items, id, env, m, |x.brain.pages|);
    } else {
      var p :| p in x.brain.pages && |Own(x.brain, p)| > CONCURRENCY * m;
      forall n: nat ensures !Calls(x, row, items, id, env, n).0.status.Done? {
        LongSourceNeverPassed(x, row, items, id, env, m, p, n);
      }
    }
  }

  // ---------- a pass that remembers ----------

  /** Every model answers something worth remembering. */
  ghost predicate Answering(env: Env) {
    forall pair :: env.answers(pair).Screened? || env.answers(pair).Triaged?
  }

  predicate Clean(x: Index) {
    && (forall p :: p in x.brain.pages ==> '|' !in p)
    && (forall p, o :: p in x.brain.names && o in x.brain.names[p] ==> '|' !in o)
  }

  /** Every planned pair may be sent, has both blobs, and has an item of its own. */
  ghost predicate Rememberable(x: Index) {
    Clean(x) && forall p, o :: p in x.brain.pages && o in Own(x.brain, p) ==> o.pair !in x.held && PrintOf(x, o.pair).Some?
  }

  /** The clock lets a call start at least one pair that is not remembered, if it cuts it. */
  predicate Fair(x: Index, run: Run, known: Memory, env: Env) {
    var ps := PlanFor(x, run, known).pairs;
    Started(x, known, env, ps, 0) < |ps| ==> Cost(StartedPairs(x, run, known, env), Costs(x, known)) > 0
  }

  /** The pairs still to be paid for. */
  function Open(x: Index, run: Run, items: Memory): nat {
    Cost(PairsOf(x.brain, Remaining(x.brain, run.cursor)), Costs(x, items))
  }

  lemma {:induction false} CostLess(os: seq<Owned>, f: Pair -> bool, g: Pair -> bool)
    requires forall o :: o in os && f(o.pair) ==> g(o.pair)
    ensures Cost(os, f) <= Cost(os, g)
    ensures (exists o :: o in os && g(o.pair) && !f(o.pair)) ==> Cost(os, f) < Cost(os, g)
  {
    if os != [] {
      var init, last := os[..|os| - 1], os[|os| - 1];
      assert forall o :: o in os <==> o in init || o == last by { assert os == init + [last]; }
      CostLess(init, f, g);
    }
  }

  lemma {:induction false} SomeCosts(os: seq<Owned>, f: Pair -> bool) returns (o: Owned)
    requires Cost(os, f) > 0
    ensures o in os && f(o.pair)
  {
    var last := os[|os| - 1];
    if f(last.pair) { o := last; } else { o := SomeCosts(os[..|os| - 1], f); }
  }

  /** Resuming later leaves no more to pay for. */
  lemma LaterCostsLess(b: Brain, cursor: Option<Path>, k: nat, costs: Pair -> bool)
    requires k <= |Remaining(b, cursor)|
    ensures Cost(PairsOf(b, Remaining(b, cursor)[k..]), costs) <= Cost(PairsOf(b, Remaining(b, cursor)), costs)
  {
    hide Own, Less, Remaining;
    var ps := Remaining(b, cursor);
    assert ps[..k] + ps[k..] == ps;
    PairsOfAppend(b, ps[..k], ps[k..]);
    CostAppend(PairsOf(b, ps[..k]), PairsOf(b, ps[k..]), costs);
  }

  /** The memory a call leaves, pair by pair: it knows the pairs it checked, and forgets none. */
  lemma RemembersMore(x: Index, run: Run, items: Memory, env: Env, o: Owned)
    requires Rememberable(x) && Answering(env) && !run.full
    requires o.source in x.brain.pages && o in Own(x.brain, o.source)
    ensures var after := Saved(items, ChecksOf(x, items, env, StartedPairs(x, run, items, env)));
      Unchanged(x, after, o.pair) <==> Unchanged(x, items, o.pair) || Among(StartedPairs(x, run, items, env), o.pair)
  {
    hide PlanFor, PrintOf, ItemOf, NoBar, Saved, Own, Started;
    var ps := StartedPairs(x, run, items, env);
    var cs := ChecksOf(x, items, env, ps);
    forall c | c in cs ensures NoBar(c.pair) && PrintOf(x, c.pair) == Some(c.seen) {
      ChecksMembers(x, items, env, ps, c);
      var o' :| o' in ps && o'.pair == c.pair;
      PlannedOwn(x, run, items, o');
      OwnClean(x, o');
    }
    OwnClean(x, o);
    SavedAt(items, cs, o.pair);
    ChecksMembers(x, items, env, ps, Check(o.pair, PrintOf(x, o.pair).value));
    if ItemOf(o.pair) in Saved(items, cs) && Saved(items, cs) != items {
      var v := Saved(items, cs)[ItemOf(o.pair)];
      ChecksMembers(x, items, env, ps, Check(o.pair, v));
    }
  }

  lemma OwnClean(x: Index, o: Owned)
    requires Clean(x) && o.source in x.brain.pages && o in Own(x.brain, o.source)
    ensures NoBar(o.pair)
  {
    OwnMembers(x.brain, o.source, o);
    hide Own, Less;
  }

  lemma {:induction false} SavedAt(items: Memory, cs: seq<Check>, pair: Pair)
    requires NoBar(pair) && forall c :: c in cs ==> NoBar(c.pair)
    ensures var k, after := ItemOf(pair), Saved(items, cs);
      if exists v :: Check(pair, v) in cs then k in after && Check(pair, after[k]) in cs
      else (k in after <==> k in items) && (k in items ==> after[k] == items[k])
    decreases |cs|
  {
    hide ItemOf, NoBar;
    if cs != [] {
      var init, c := cs[..|cs| - 1], cs[|cs| - 1];
      assert forall d :: d in cs <==> d in init || d == c by { assert cs == init + [c]; }
      SavedAt(items, init, pair);
      if ItemOf(pair) == ItemOf(c.pair) { ItemInjective(pair, c.pair); }
    }
  }

  lemma AnsweringNeverCuts(x: Index, known: Memory, env: Env, ps: seq<Owned>, n: nat)
    requires Answering(env) && n <= |ps|
    ensures FirstCut(x, known, env, ps, 0, n) == n
  {
    hide Unchanged;
    var c := FirstCut(x, known, env, ps, 0, n);
    assert c < n ==> !env.answers(ps[c].pair).Refused?;
  }

  /** The cursor a call leaves resumes at a later point of the same walk. */
  lemma NextCursor(x: Index, run: Run, known: Memory, env: Env) returns (k: nat)
    ensures k <= |Remaining(x.brain, run.cursor)|
    ensures Remaining(x.brain, Stepped(x, run, known, env).cursor) == Remaining(x.brain, run.cursor)[k..]
  {
    hide Own, Less, Counted, PairsOf, Costs, Stops, Increasing, CursorBefore, Started, FirstCut;
    var b, plan := x.brain, PlanFor(x, run, known);
    var ps := Remaining(b, run.cursor);
    var w := Window(b, ps, PAIRS_PER_STEP, Costs(x, known), 0);
    var e := Started(x, known, env, plan.pairs, 0);
    var open := FirstCut(x, known, env, plan.pairs, 0, e);
    if open < |plan.pairs| {
      k := CutResumes(b, ps, w, open, run.cursor);
    } else {
      WindowMoves(b, run.cursor, PAIRS_PER_STEP, Costs(x, known));
      k := w;
      if w == 0 { assert ps == []; }
    }
  }

  lemma CutResumes(b: Brain, ps: seq<Path>, w: nat, open: nat, cursor: Option<Path>) returns (k: nat)
    requires ps == Remaining(b, cursor) && w <= |ps| && open < |PairsOf(b, ps[..w])|
    ensures k <= |ps|
    ensures var os := PairsOf(b, ps[..w]); Remaining(b, CursorBefore(os, open, os[open].source, cursor)) == ps[k..]
  {
    hide Own, Less, PairsOf, CursorBefore, Remaining;
    var os := PairsOf(b, ps[..w]);
    CursorBeforeAt(os, open, os[open].source, cursor);
    if CursorBefore(os, open, os[open].source, cursor) == cursor {
      k := 0;
    } else {
      var m :| 0 <= m < open && CursorBefore(os, open, os[open].source, cursor) == Some(os[m].source);
      var j := SourceAt(b, cursor, w, m);
      ResumeAfter(b, cursor, j + 1);
      k := j + 1;
    }
  }

  /** A call that does not finish the pass started a pair that had to be paid for. */
  lemma SomethingPaid(x: Index, run: Run, items: Memory, env: Env) returns (o: Owned)
    requires Answering(env) && Fair(x, run, items, env) && run.status.Running?
    requires !Stepped(x, run, items, env).status.Done?
    ensures o in StartedPairs(x, run, items, env) && !Unchanged(x, items, o.pair)
    ensures Stepped(x, run, items, env).status.Running?
  {
    hide Own, Less, PairsOf, Unchanged, CursorBefore, Counted;
    var plan := PlanFor(x, run, items);
    var e := Started(x, items, env, plan.pairs, 0);
    AnsweringNeverCuts(x, items, env, plan.pairs, e);
    if e == |plan.pairs| {
      assert plan.pairs[..e] == plan.pairs;
      assert Cost(plan.pairs, Costs(x, items)) > 0;
    }
    o := SomeCosts(StartedPairs(x, run, items, env), Costs(x, items));
  }

  lemma StartedInWalk(x: Index, run: Run, items: Memory, env: Env, o: Owned)
    requires o in StartedPairs(x, run, items, env)
    ensures o in PairsOf(x.brain, Remaining(x.brain, run.cursor))
  {
    hide Own, Less, PairsOf, Costs, Stops, Remaining;
    var ps := Remaining(x.brain, run.cursor);
    var k := Window(x.brain, ps, PAIRS_PER_STEP, Costs(x, items), 0);
    PairsOfMembers(x.brain, ps[..k], o);
    PairsOfMembers(x.brain, ps, o);
  }

  function MemoryAfter(x: Index, run: Run, items: Memory, env: Env): Memory {
    Saved(items, ChecksOf(x, items, env, StartedPairs(x, run, items, env)))
  }

  /** Each call of a remembering pass leaves less to pay for, or is the last. */
  lemma CallShrinks(x: Index, run: Run, items: Memory, env: Env)
    requires Rememberable(x) && Answering(env) && !run.full && run.status.Running? && Fair(x, run, items, env)
    ensures var next := Stepped(x, run, items, env);
      next.status.Done? || (next.status.Running? && Open(x, next, MemoryAfter(x, run, items, env)) < Open(x, run, items))
  {
    hide Own, Less, PairsOf, Stepped, StartedPairs, Rememberable, Fair, Answering, Unchanged, MemoryAfter,
      Remaining, Cost;
    var next, after := Stepped(x, run, items, env), MemoryAfter(x, run, items, env);
    if !next.status.Done? {
      var paid := SomethingPaid(x, run, items, env);
      StartedInWalk(x, run, items, env, paid);
      var k := NextCursor(x, run, items, env);
      LaterCostsLess(x.brain, run.cursor, k, Costs(x, after));
      WalkCostsLess(x, run, items, env, paid);
    }
  }

  lemma WalkCostsLess(x: Index, run: Run, items: Memory, env: Env, paid: Owned)
    requires Rememberable(x) && Answering(env) && !run.full
    requires paid in PairsOf(x.brain, Remaining(x.brain, run.cursor))
    requires paid in StartedPairs(x, run, items, env) && !Unchanged(x, items, paid.pair)
    ensures Cost(PairsOf(x.brain, Remaining(x.brain, run.cursor)), Costs(x, MemoryAfter(x, run, items, env))) < Open(x, run, items)
  {
    hide Own, Less, PairsOf, StartedPairs, Rememberable, Answering, Unchanged, Cost, Saved, ChecksOf;
    var after := MemoryAfter(x, run, items, env);
    var os := PairsOf(x.brain, Remaining(x.brain, run.cursor));
    forall o | o in os ensures Unchanged(x, after, o.pair) <==> Unchanged(x, items, o.pair) || Among(StartedPairs(x, run, items, env), o.pair) {
      PairsOfMembers(x.brain, Remaining(x.brain, run.cursor), o);
      RemembersMore(x, run, items, env, o);
    }
    assert Among(StartedPairs(x, run, items, env), paid.pair);
    CostLess(os, Costs(x, after), Costs(x, items));
  }

  /** The row and the memory after one call in each environment, or when the pass is done. */
  function CallsIn(x: Index, run: Run, items: Memory, id: nat, envs: seq<Env>): (Run, Memory) {
    if envs == [] then (run, items)
    else
      var (r, its) := CallsIn(x, run, items, id, envs[..|envs| - 1]);
      if r.status.Done? then (r, its) else Advanced(x, Some(r), its, false, id, envs[|envs| - 1])
  }

  ghost predicate FairAt(x: Index, run: Run, items: Memory, id: nat, envs: seq<Env>, i: nat)
    requires i < |envs|
  {
    var (r, its) := CallsIn(x, run, items, id, envs[..i]);
    Answering(envs[i]) && Fair(x, r, its, envs[i])
  }

  lemma {:induction false} CallsShrink(x: Index, run: Run, items: Memory, id: nat, envs: seq<Env>)
    requires Rememberable(x) && |x.brain.pages| <= MAX_DUP_PAGES && !run.full && run.status.Running?
    requires forall i :: 0 <= i < |envs| ==> FairAt(x, run, items, id, envs, i)
    ensures var (r, its) := CallsIn(x, run, items, id, envs);
      r.status.Done? || (!r.full && r.status.Running? && Open(x, r, its) + |envs| <= Open(x, run, items))
    decreases |envs|
  {
    hide Open, Stepped, StartedPairs, Rememberable, Fair, Answering, Saved, ChecksOf;
    if envs != [] {
      var init, env := envs[..|envs| - 1], envs[|envs| - 1];
      forall i | 0 <= i < |init| ensures FairAt(x, run, items, id, init, i) {
        assert FairAt(x, run, items, id, envs, i) && init[..i] == envs[..i];
      }
      CallsShrink(x, run, items, id, init);
      var (r, its) := CallsIn(x, run, items, id, init);
      assert FairAt(x, run, items, id, envs, |init|);
      if !r.status.Done? {
        CallShrinks(x, r, its, env);
        StepKeepsFull(x, r, its, env);
      }
    }
  }

  /** A REMEMBERING PASS ENDS. However the clock cuts its calls, as long as each starts one pair
      that is not yet remembered, a pass that is not a full one is done within one call more
      than it has pairs to pay for. */
  lemma RememberingPassEnds(x: Index, run: Run, items: Memory, id: nat, envs: seq<Env>)
    requires Rememberable(x) && |x.brain.pages| <= MAX_DUP_PAGES && !run.full && run.status.Running?
    requires forall i :: 0 <= i < |envs| ==> FairAt(x, run, items, id, envs, i)
    requires |envs| > Open(x, run, items)
    ensures CallsIn(x, run, items, id, envs).0.status.Done?
  {
    hide Open, CallsIn, FairAt;
    CallsShrink(x, run, items, id, envs);
  }

  // ---------- pairs the models do not answer ----------

  /** The planned pairs of this list that a call hands to the models. */
  function AskedOf(x: Index, known: Memory): Pair -> bool {
    (pair: Pair) => Asked(x, known, pair)
  }

  function Picked(os: seq<Owned>, f: Pair -> bool): (r: seq<Owned>)
    ensures |r| == Cost(os, f)
    ensures forall o :: o in r <==> o in os && f(o.pair)
  {
    if os == [] then []
    else
      assert forall o :: o in os <==> o in os[..|os| - 1] || o == os[|os| - 1] by {
        assert os == os[..|os| - 1] + [os[|os| - 1]];
      }
      Picked(os[..|os| - 1], f) + (if f(os[|os| - 1].pair) then [os[|os| - 1]] else [])
  }

  lemma {:induction false} PickedDistinct(os: seq<Owned>, f: Pair -> bool)
    requires forall i, j :: 0 <= i < j < |os| ==> os[i] != os[j]
    ensures forall i, j :: 0 <= i < j < |Picked(os, f)| ==> Picked(os, f)[i] != Picked(os, f)[j]
  {
    if os != [] {
      var init, last := os[..|os| - 1], os[|os| - 1];
      PickedDistinct(init, f);
      assert last !in init;
    }
  }

  /** The clock runs out once a call has asked about t pairs. */
  ghost predicate AsksAtMost(x: Index, known: Memory, env: Env, ps: seq<Owned>, t: nat) {
    forall i :: 0 <= i <= |ps| && Cost(ps[..i], AskedOf(x, known)) >= t ==> env.timeUp(i)
  }

  lemma {:induction false} StartedAsks(x: Index, known: Memory, env: Env, ps: seq<Owned>, i: nat, t: nat)
    requires AsksAtMost(x, known, env, ps, t) && t > 0 && i <= |ps|
    requires Cost(ps[..i], AskedOf(x, known)) < t + CONCURRENCY
    ensures Cost(ps[..Started(x, known, env, ps, i)], AskedOf(x, known)) < t + CONCURRENCY
    decreases |ps| - i
  {
    hide Unchanged, Cost;
    if i < |ps| && !(i > 0 && env.timeUp(i)) {
      var j, f := BatchEnd(i, |ps|), AskedOf(x, known);
      assert ps[..0] == [] && Cost([], f) == 0 by { NoCost(f); }
      assert ps[..j] == ps[..i] + ps[i..j];
      CostAppend(ps[..i], ps[i..j], f);
      CostAtMostLength(ps[i..j], f);
      if !(FirstCut(x, known, env, ps, i, j) < j) { StartedAsks(x, known, env, ps, j, t); }
    }
  }

  lemma NoCost(f: Pair -> bool)
    ensures Cost([], f) == 0
  {
  }

  lemma {:induction false} CostAtMostLength(os: seq<Owned>, f: Pair -> bool)
    ensures Cost(os, f) <= |os|
  {
    if os != [] { CostAtMostLength(os[..|os| - 1], f); }
  }

  /** The memory does not vouch for these pairs of the page, and no call is told anything to
      remember about them. */
  ghost predicate Unanswered(x: Index, items: Memory, envs: seq<Env>, p: Path, f: Pair -> bool) {
    forall o :: o in Own(x.brain, p) && f(o.pair) ==>
      && NoBar(o.pair) && o.pair !in x.held && !Unchanged(x, items, o.pair)
      && forall i :: 0 <= i < |envs| ==> envs[i].answers(o.pair).Unavailable?
  }

  /** A call that asks about so few pairs does not pass a page that owns more of these. */
  lemma UnansweredSourceStays(x: Index, run: Run, items: Memory, env: Env, t: nat, p: Path, f: Pair -> bool)
    requires !run.full && run.status.Running? && t > 0
    requires p in x.brain.pages && Passed(run.cursor, p)
    requires Unanswered(x, items, [env], p, f) && Cost(Own(x.brain, p), f) >= t + CONCURRENCY
    requires AsksAtMost(x, items, env, PlanFor(x, run, items).pairs, t)
    ensures !SourceDone(Stepped(x, run, items, env), p)
  {
    hide Own, Less, ResultOf, PlanFor, Stepped, Unchanged, Cost, SourceDone, NoBar;
    if SourceDone(Stepped(x, run, items, env), p) {
      var ps := PlanFor(x, run, items).pairs;
      var started, g := StartedPairs(x, run, items, env), AskedOf(x, items);
      assert ps[..0] == [];
      NoCost(g);
      StartedAsks(x, items, env, ps, 0, t);
      var mine, asked := Picked(Own(x.brain, p), f), Picked(started, g);
      forall o | o in mine ensures o in asked {
        PassedSources(x, run, items, env, p, o);
        var o' :| o' in started && o'.pair == o.pair;
        PlannedOwn(x, run, items, o');
        OwnMembers(x.brain, p, o);
        NoPairTwice(x.brain, o, o');
      }
      OwnDistinct(x.brain, p);
      PickedDistinct(Own(x.brain, p), f);
      Pigeonhole(mine, asked);
    }
  }

  /** What a call remembers is nothing about a pair no model answers for. */
  lemma StillUnanswered(x: Index, run: Run, items: Memory, env: Env, pair: Pair)
    requires NoBar(pair) && !Unchanged(x, items, pair) && pair !in x.held && env.answers(pair).Unavailable?
    ensures !Unchanged(x, MemoryAfter(x, run, items, env), pair)
  {
    hide PrintOf, NoBar, StartedPairs, ItemOf, Saved;
    var ps := StartedPairs(x, run, items, env);
    var cs := ChecksOf(x, items, env, ps);
    forall c | c in cs ensures c.pair != pair { ChecksMembers(x, items, env, ps, c); }
    NotSaved(items, cs, pair);
  }

  lemma {:induction false} NotSaved(items: Memory, cs: seq<Check>, pair: Pair)
    requires NoBar(pair) && forall c :: c in cs ==> c.pair != pair
    ensures var k, after := ItemOf(pair), Saved(items, cs);
      (k in after <==> k in items) && (k in items ==> after[k] == items[k])
    decreases |cs|
  {
    hide ItemOf, NoBar;
    if cs != [] {
      var init, c := cs[..|cs| - 1], cs[|cs| - 1];
      assert forall d :: d in init ==> d in cs;
      NotSaved(items, init, pair);
      assert c in cs;
      if ItemOf(pair) == ItemOf(c.pair) { ItemInjective(pair, c.pair); }
    }
  }

  ghost predicate SlowAt(x: Index, run: Run, items: Memory, id: nat, envs: seq<Env>, i: nat, t: nat)
    requires i < |envs|
  {
    var (r, its) := CallsIn(x, run, items, id, envs[..i]);
    AsksAtMost(x, its, envs[i], PlanFor(x, Continue(Some(r), false, id), its).pairs, t)
  }

  /** A REMEMBERING PASS NEED NOT END EITHER. However many calls are made: when each has time to
      ask about t pairs, a page that owns t + 6 pairs for which the models keep being
      unavailable is never passed, since nothing is remembered of them and each call asks
      about them again. */
  lemma {:induction false} UnansweredPassNeverEnds(x: Index, run: Run, items: Memory, id: nat, envs: seq<Env>, t: nat, p: Path, f: Pair -> bool)
    requires !run.full && run.status.Running? && t > 0 && |x.brain.pages| <= MAX_DUP_PAGES
    requires p in x.brain.pages && Passed(run.cursor, p)
    requires Unanswered(x, items, envs, p, f) && Cost(Own(x.brain, p), f) >= t + CONCURRENCY
    requires forall i :: 0 <= i < |envs| ==> SlowAt(x, run, items, id, envs, i, t)
    ensures var (r, its) := CallsIn(x, run, items, id, envs);
      && !r.status.Done? && !r.full && Passed(r.cursor, p)
      && forall o :: o in Own(x.brain, p) && f(o.pair) ==> !Unchanged(x, its, o.pair)
    decreases |envs|
  {
    hide Own, Less, Stepped, ChecksOf, Saved, StartedPairs, Unchanged, Cost, AsksAtMost, NoBar, Passed, PlanFor;
    if envs != [] {
      var init, env := envs[..|envs| - 1], envs[|envs| - 1];
      forall i | 0 <= i < |init| ensures SlowAt(x, run, items, id, init, i, t) {
        assert SlowAt(x, run, items, id, envs, i, t) && init[..i] == envs[..i];
      }
      UnansweredPassNeverEnds(x, run, items, id, init, t, p, f);
      var (r, its) := CallsIn(x, run, items, id, init);
      assert SlowAt(x, run, items, id, envs, |init|, t);
      var on := Continue(Some(r), false, id);
      UnansweredSourceStays(x, on, its, env, t, p, f);
      StepKeepsFull(x, on, its, env);
      forall o | o in Own(x.brain, p) && f(o.pair) ensures !Unchanged(x, MemoryAfter(x, on, its, env), o.pair) {
        StillUnanswered(x, on, its, env, o.pair);
      }
    }
  }
}
