/** What the counts and the status of a pass's run row say. */
module ConsolidationCounts {
  // The row counts what its calls did, by outcome (ee/review/consolidation.ts). A call that is cut
  // leaves the cursor before the first source it did not finish, so the pairs of that source it had
  // dealt with are dealt with, and counted, again: the counts number the pairs of the brain exactly
  // when no call was cut past the first pair of a source.

  import opened Options
  import opened Paths
  import opened ConsolidationPlan
  import opened ConsolidationPass
  import opened ConsolidationRuns
  import opened ConsolidationProgress

  // ---------- by outcome ----------

  datatype Kind = AsBefore | LeftOut | ScreenedOut | Studied | Denied

  function KindOf(r: Result): Kind {
    match r
    case Kept => AsBefore
    case Skipped => LeftOut
    case Cleared => ScreenedOut
    case Read(_) => Studied
    case Cut => Denied
  }

  function Results(x: Index, known: Memory, env: Env, ps: seq<Owned>): (rs: seq<Result>)
    ensures |rs| == |ps| && forall i :: 0 <= i < |ps| ==> rs[i] == ResultOf(x, known, env, ps[i].pair)
  {
    seq(|ps|, i requires 0 <= i < |ps| => ResultOf(x, known, env, ps[i].pair))
  }

  /** How many of the outcomes are of this kind. */
  function Number(rs: seq<Result>, k: Kind): nat {
    |OfKind(rs, k)|
  }

  function OfKind(rs: seq<Result>, k: Kind): set<int> {
    set i | 0 <= i < |rs| && KindOf(rs[i]) == k
  }

  function Found(rs: seq<Result>): nat {
    if rs == [] then 0 else Found(rs[..|rs| - 1]) + if rs[|rs| - 1].Read? then rs[|rs| - 1].findings else 0
  }

  /** The counts of some outcomes. */
  function CountsOf(rs: seq<Result>): Counts {
    Counts(Number(rs, ScreenedOut) + Number(rs, Studied), Number(rs, LeftOut), Number(rs, ScreenedOut), Number(rs, AsBefore), Found(rs))
  }

  function Plus(c: Counts, d: Counts): Counts {
    Counts(c.checked + d.checked, c.skipped + d.skipped, c.screened + d.screened, c.same + d.same, c.findings + d.findings)
  }

  lemma NumberLast(rs: seq<Result>, r: Result, k: Kind)
    ensures Number(rs + [r], k) == Number(rs, k) + if KindOf(r) == k then 1 else 0
  {
    OfKindLast(rs, r, k);
    hide OfKind, KindOf;
  }

  lemma OfKindLast(rs: seq<Result>, r: Result, k: Kind)
    ensures OfKind(rs + [r], k) == OfKind(rs, k) + (if KindOf(r) == k then {|rs|} else {}) && |rs| !in OfKind(rs, k)
  {
    hide KindOf;
    var qs := rs + [r];
    assert qs[|rs|] == r && forall i :: 0 <= i < |rs| ==> qs[i] == rs[i];
  }

  lemma {:induction false} NumberSum(rs: seq<Result>, qs: seq<Result>, k: Kind)
    ensures Number(rs + qs, k) == Number(rs, k) + Number(qs, k)
    decreases |qs|
  {
    hide Number;
    if qs == [] {
      assert rs + qs == rs;
      NoneNumbered(k);
    } else {
      var init, r := qs[..|qs| - 1], qs[|qs| - 1];
      NumberSum(rs, init, k);
      assert rs + qs == rs + init + [r] && qs == init + [r];
      NumberLast(rs + init, r, k);
      NumberLast(init, r, k);
    }
  }

  lemma NoneNumbered(k: Kind)
    ensures Number([], k) == 0
  {
    assert OfKind([], k) == {};
  }

  lemma {:induction false} FoundSum(rs: seq<Result>, qs: seq<Result>)
    ensures Found(rs + qs) == Found(rs) + Found(qs)
    decreases |qs|
  {
    if qs == [] {
      assert rs + qs == rs;
    } else {
      FoundSum(rs, qs[..|qs| - 1]);
      assert (rs + qs)[..|rs + qs| - 1] == rs + qs[..|qs| - 1];
    }
  }

  lemma CountsSum(rs: seq<Result>, qs: seq<Result>)
    ensures CountsOf(rs + qs) == Plus(CountsOf(rs), CountsOf(qs))
  {
    hide Number, Found;
    NumberSum(rs, qs, AsBefore);
    NumberSum(rs, qs, LeftOut);
    NumberSum(rs, qs, ScreenedOut);
    NumberSum(rs, qs, Studied);
    FoundSum(rs, qs);
  }

  lemma CountsNone()
    ensures CountsOf([]) == Counts(0, 0, 0, 0, 0)
  {
    hide Number;
    NoneNumbered(AsBefore);
    NoneNumbered(LeftOut);
    NoneNumbered(ScreenedOut);
    NoneNumbered(Studied);
  }

  lemma CountsOne(r: Result)
    ensures CountsOf([r]) == Count1(Counts(0, 0, 0, 0, 0), r)
  {
    hide Number;
    assert [r] == [] + [r];
    NumberLast([], r, AsBefore);
    NumberLast([], r, LeftOut);
    NumberLast([], r, ScreenedOut);
    NumberLast([], r, Studied);
    NoneNumbered(AsBefore);
    NoneNumbered(LeftOut);
    NoneNumbered(ScreenedOut);
    NoneNumbered(Studied);
    assert [r][..0] == [] && Found([]) == 0;
  }

  lemma PlusOne(c: Counts, r: Result)
    ensures Count1(c, r) == Plus(c, Count1(Counts(0, 0, 0, 0, 0), r))
  {
  }

  lemma {:induction false} CountedIs(x: Index, known: Memory, env: Env, ps: seq<Owned>, c: Counts)
    ensures Counted(x, known, env, ps, c) == Plus(c, CountsOf(Results(x, known, env, ps)))
    decreases |ps|
  {
    hide CountsOf, Count1, ResultOf;
    if ps == [] {
      CountsNone();
      assert Results(x, known, env, ps) == [];
    } else {
      var init, r := ps[..|ps| - 1], ResultOf(x, known, env, ps[|ps| - 1].pair);
      CountedIs(x, known, env, init, c);
      assert Results(x, known, env, ps) == Results(x, known, env, init) + [r];
      CountsSum(Results(x, known, env, init), [r]);
      CountsOne(r);
      PlusOne(Counted(x, known, env, init, c), r);
    }
  }

  /** WHAT IS REMEMBERED. A call records a check of exactly the pairs it started, may send and had to ask
      about, whose two texts it knows, and that a model cleared or studied; and of each as it is. */
  lemma RememberedIff(x: Index, known: Memory, env: Env, ps: seq<Owned>, c: Check)
    ensures c in ChecksOf(x, known, env, ps) <==>
      && Among(ps, c.pair) && PrintOf(x, c.pair) == Some(c.seen) && Asked(x, known, c.pair)
      && (env.answers(c.pair).Screened? || env.answers(c.pair).Triaged?)
  {
    ChecksMembers(x, known, env, ps, c);
    hide ChecksOf, Unchanged, PrintOf;
  }

  /** The end of the batch of six that the pair i is in. */
  function SixEnd(i: nat, n: nat): nat {
    if i - i % 6 + 6 < n then i - i % 6 + 6 else n
  }

  /** WHICH PAIRS A CALL STARTS. Whole batches of six: all of them, or those before the first but one that the
      clock forbids, or those up to the end of the batch in which a model first refused. */
  lemma StartedIs(x: Index, known: Memory, env: Env, ps: seq<Owned>)
    ensures var e := Started(x, known, env, ps, 0);
      && (forall i :: 0 <= i < e && i % 6 == 0 ==> i == 0 || !env.timeUp(i))
      && (forall i :: 0 <= i < e && ResultOf(x, known, env, ps[i].pair).Cut? ==> e == SixEnd(i, |ps|))
      && (e == |ps| || (e > 0 && e % 6 == 0 && env.timeUp(e)) || exists i :: 0 <= i < e && ResultOf(x, known, env, ps[i].pair).Cut?)
      && (e == |ps| || e % 6 == 0)
  {
    StartedFrom(x, known, env, ps, 0);
  }

  lemma {:induction false} StartedFrom(x: Index, known: Memory, env: Env, ps: seq<Owned>, n: nat)
    requires n <= |ps| && n % 6 == 0
    ensures var e := Started(x, known, env, ps, n);
      && (forall i :: n <= i < e && i % 6 == 0 ==> i == 0 || !env.timeUp(i))
      && (forall i :: n <= i < e && ResultOf(x, known, env, ps[i].pair).Cut? ==> e == SixEnd(i, |ps|))
      && (e == |ps| || (e > 0 && e % 6 == 0 && env.timeUp(e)) || exists i :: n <= i < e && ResultOf(x, known, env, ps[i].pair).Cut?)
      && (e == |ps| || e % 6 == 0)
    decreases |ps| - n
  {
    hide ResultOf, FirstCut;
    if n < |ps| && !(n > 0 && env.timeUp(n)) {
      var j := BatchEnd(n, |ps|);
      InBatch(n, |ps|);
      if FirstCut(x, known, env, ps, n, j) == j && j < |ps| {
        StartedFrom(x, known, env, ps, j);
      }
    }
  }

  lemma InBatch(n: nat, m: nat)
    requires n % 6 == 0 && n < m
    ensures forall i :: n <= i < BatchEnd(n, m) ==> SixEnd(i, m) == BatchEnd(n, m) && (i % 6 == 0 ==> i == n)
    ensures BatchEnd(n, m) == m || BatchEnd(n, m) % 6 == 0
  {
  }

  // ---------- over a pass ----------

  /** What one step did with the pairs it started, when its row was written. */
  function StepResults(s: State, step: Step): seq<Result> {
    if step.Call? && |s.x.brain.pages| <= MAX_DUP_PAGES then
      var run := Continue(s.row, step.full, step.id);
      var known := Known(run, s.items);
      Results(s.x, known, step.env, StartedPairs(s.x, run, known, step.env))
    else []
  }

  /** The pass in progress at i began with step b. */
  ghost predicate InPass(ss: seq<State>, steps: seq<Step>, b: nat, i: nat)
    requires |ss| == |steps| + 1 && b < i < |ss|
  {
    && steps[b].Call? && Begins(ss[b].row, steps[b].full)
    && forall k :: b < k < i && steps[k].Call? ==> !Begins(ss[k].row, steps[k].full)
  }

  /** Everything the pass did with the pairs it started, in order. */
  function Trail(ss: seq<State>, steps: seq<Step>, b: nat, i: nat): seq<Result>
    requires |ss| == |steps| + 1 && b <= i < |ss|
  {
    if i == b then [] else Trail(ss, steps, b, i - 1) + StepResults(ss[i - 1], steps[i - 1])
  }

  lemma CallCounts(s: State, full: bool, id: nat, env: Env)
    ensures var t, run := Apply(s, Call(full, id, env)), Continue(s.row, full, id);
      t.row.Some? && t.row.value.counts == Plus(run.counts, CountsOf(StepResults(s, Call(full, id, env))))
  {
    var run := Continue(s.row, full, id);
    if |s.x.brain.pages| <= MAX_DUP_PAGES {
      var known := Known(run, s.items);
      CountedIs(s.x, known, env, StartedPairs(s.x, run, known, env), run.counts);
    } else {
      CountsNone();
    }
    hide Counted, CountsOf, Results, PlanFor, FirstCut, Started, CursorBefore, ChecksOf, Saved, Recorded, Fates, Known;
  }

  /** THE COUNTS NUMBER WHAT WAS DONE. At every point of every pass the row's counts are the numbers,
      by outcome, of the pairs its calls have started since it began. */
  lemma {:induction false} CountsNumberStarts(ss: seq<State>, steps: seq<Step>, b: nat, i: nat)
    requires RunOf(ss, steps) && b < i < |ss| && InPass(ss, steps, b, i)
    ensures ss[i].row.Some? && ss[i].row.value.counts == CountsOf(Trail(ss, steps, b, i))
    decreases i
  {
    hide CountsOf, StepResults, ChecksIn, Recorded, Saved, Fates, Advanced;
    assert StepAt(ss, steps, i - 1);
    var s, step, t := ss[i - 1], steps[i - 1], ss[i];
    if i == b + 1 {
      CountsNone();
      assert Trail(ss, steps, b, i) == [] + StepResults(s, step) == StepResults(s, step);
      CallCounts(s, step.full, step.id, step.env);
    } else {
      CountsNumberStarts(ss, steps, b, i - 1);
      var before := Trail(ss, steps, b, i - 1);
      if step.Call? {
        CallCounts(s, step.full, step.id, step.env);
        CountsSum(before, StepResults(s, step));
      } else {
        assert StepResults(s, step) == [] by { NoCallNoResults(s, step); }
        assert before + [] == before;
      }
    }
  }

  lemma NoCallNoResults(s: State, step: Step)
    requires !step.Call?
    ensures StepResults(s, step) == []
  {
  }

  // ---------- the status ----------

  /** WHAT A CALL'S STATUS SAYS. A call begins a pass when it asks for a full one, or there is none or the last is done,
      and otherwise goes on with it. It ends stopped when the brain has too many pages or a model refused a pair it
      started; done when it started every pair of every source that was left, and none was refused; and
      running otherwise. */
  lemma CallStatus(x: Index, row: Option<Run>, items: Memory, full: bool, id: nat, env: Env)
    ensures var run, after := Continue(row, full, id), Advanced(x, row, items, full, id, env).0;
      var known := Known(run, items);
      var ps, all := StartedPairs(x, run, known, env), PairsOf(x.brain, Remaining(x.brain, run.cursor));
      && run == (if Begins(row, full) then Run(id, Running, None, full, Counts(0, 0, 0, 0, 0)) else row.value.(status := Running))
      && after.id == run.id && after.full == run.full
      && (after.status.Stopped? <==> |x.brain.pages| > 2000 || exists o :: o in ps && ResultOf(x, known, env, o.pair).Cut?)
      && (after.status.Done? <==>
            && |x.brain.pages| <= 2000 && ps == all && WindowDone(x, run, known)
            && forall o :: o in ps ==> !ResultOf(x, known, env, o.pair).Cut?)
  {
    hide Own, Less, Counted, Costs, Stops, CursorBefore, ResultOf, ChecksOf, Saved, Remaining, PairsOf;
    var run := Continue(row, full, id);
    if |x.brain.pages| <= MAX_DUP_PAGES {
      var known := Known(run, items);
      var plan := PlanFor(x, run, known);
      var e := Started(x, known, env, plan.pairs, 0);
      var open := FirstCut(x, known, env, plan.pairs, 0, e);
      var ps, rem := StartedPairs(x, run, known, env), Remaining(x.brain, run.cursor);
      var w := Window(x.brain, rem, PAIRS_PER_STEP, Costs(x, known), 0);
      assert ps == plan.pairs[..e];
      if open < e {
        assert ps[open] in ps;
      } else {
        forall o | o in ps ensures !ResultOf(x, known, env, o.pair).Cut? {
          var j :| 0 <= j < |ps| && ps[j] == o;
        }
      }
      if w == |rem| {
        assert rem[..w] == rem;
        assert plan.pairs[..|plan.pairs|] == plan.pairs;
      }
      hide Window, Started, FirstCut, PlanAt;
    }
  }

  /** A call plans for forty-eight pairs to be paid for at most, unless its one paying page has more. */
  lemma CallPays(x: Index, run: Run, known: Memory)
    ensures var plan, costs := PlanFor(x, run, known), Costs(x, known);
      Cost(plan.pairs, costs) <= 48
      || (plan.last.Some? && Cost(Own(x.brain, plan.last.value), costs) == Cost(plan.pairs, costs))
  {
    StepWithinBudget(x.brain, run.cursor, PAIRS_PER_STEP, Costs(x, known));
    hide Cost, Own, PlanAt;
  }

  /** The call's window reaches the last source that is left. */
  predicate WindowDone(x: Index, run: Run, known: Memory) {
    var rem := Remaining(x.brain, run.cursor);
    Window(x.brain, rem, PAIRS_PER_STEP, Costs(x, known), 0) == |rem|
  }

  // ---------- when the counts number the pairs ----------

  /** The sources a row has still to take. */
  function LeftOf(b: Brain, run: Run): seq<Path> {
    if run.status.Done? then [] else Remaining(b, run.cursor)
  }

  /** The outcomes that count. */
  function Dealings(rs: seq<Result>): nat {
    Number(rs, AsBefore) + Number(rs, LeftOut) + Number(rs, ScreenedOut) + Number(rs, Studied)
  }

  /** The call dealt with no pair of a source it leaves to the next. */
  predicate CleanCall(s: State, step: Step) {
    step.Call? && |s.x.brain.pages| <= MAX_DUP_PAGES ==>
      var run := Continue(s.row, step.full, step.id);
      var known := Known(run, s.items);
      NoneLeft(s.x, known, step.env, StartedPairs(s.x, run, known, step.env), LeftOf(s.x.brain, Stepped(s.x, run, known, step.env)))
  }

  predicate NoneLeft(x: Index, known: Memory, env: Env, ps: seq<Owned>, left: seq<Path>) {
    forall o :: o in ps && !ResultOf(x, known, env, o.pair).Cut? ==> o.source !in left
  }

  lemma DealingsLast(rs: seq<Result>, r: Result)
    ensures Dealings(rs + [r]) == Dealings(rs) + if r.Cut? then 0 else 1
  {
    hide Number;
    NumberLast(rs, r, AsBefore);
    NumberLast(rs, r, LeftOut);
    NumberLast(rs, r, ScreenedOut);
    NumberLast(rs, r, Studied);
  }

  lemma DealingsSum(rs: seq<Result>, qs: seq<Result>)
    ensures Dealings(rs + qs) == Dealings(rs) + Dealings(qs)
  {
    hide Number;
    NumberSum(rs, qs, AsBefore);
    NumberSum(rs, qs, LeftOut);
    NumberSum(rs, qs, ScreenedOut);
    NumberSum(rs, qs, Studied);
  }

  /** None denied, all are dealt with; all denied, none is. */
  lemma {:induction false} DealingsEnds(rs: seq<Result>)
    ensures (forall i :: 0 <= i < |rs| ==> !rs[i].Cut?) ==> Dealings(rs) == |rs|
    ensures Dealings(rs) == 0 <==> forall i :: 0 <= i < |rs| ==> rs[i].Cut?
    decreases |rs|
  {
    hide Dealings;
    if rs == [] {
      NothingDealt();
    } else {
      var init, r := rs[..|rs| - 1], rs[|rs| - 1];
      DealingsEnds(init);
      assert rs == init + [r];
      DealingsLast(init, r);
      assert forall i :: 0 <= i < |init| ==> rs[i] == init[i];
    }
  }

  lemma NothingDealt()
    ensures Dealings([]) == 0
  {
    hide Number;
    NoneNumbered(AsBefore);
    NoneNumbered(LeftOut);
    NoneNumbered(ScreenedOut);
    NoneNumbered(Studied);
  }

  /** Where a call leaves the walk: the pairs of the sources it passes are the first it started, none of
      them denied; and its other starts are of sources it leaves. */
  lemma CallSplits(x: Index, run: Run, known: Memory, env: Env) returns (k: nat)
    requires run.status.Running?
    ensures var rem, after := Remaining(x.brain, run.cursor), Stepped(x, run, known, env);
      var ps := StartedPairs(x, run, known, env);
      && k <= |rem| && LeftOf(x.brain, after) == rem[k..]
      && var first := PairsOf(x.brain, rem[..k]);
         |first| <= |ps| && ps[..|first|] == first
         && (forall i :: 0 <= i < |first| ==> !ResultOf(x, known, env, ps[i].pair).Cut?)
         && (forall i :: |first| <= i < |ps| ==> ps[i].source in rem[k..])
  {
    hide Own, Less, Counted, PairsOf, Costs, Stops, CursorBefore, ResultOf, Remaining, Increasing;
    var b, plan := x.brain, PlanFor(x, run, known);
    var rem := Remaining(b, run.cursor);
    var w := Window(b, rem, PAIRS_PER_STEP, Costs(x, known), 0);
    var e := Started(x, known, env, plan.pairs, 0);
    var open := FirstCut(x, known, env, plan.pairs, 0, e);
    if open < |plan.pairs| {
      k := CutResumes(b, rem, w, open, run.cursor);
      OpenIsLeft(b, rem, w, open, run.cursor, k);
      RemainingInOrder(b, run.cursor);
      PrefixStops(b, rem, w, open, k);
    } else {
      WindowMoves(b, run.cursor, PAIRS_PER_STEP, Costs(x, known));
      k := w;
      if w == 0 { assert rem == []; }
      if w == |rem| { assert rem[w..] == []; }
      assert plan.pairs[..|plan.pairs|] == plan.pairs;
    }
  }

  /** A cut call leaves the source of its first open pair. */
  lemma OpenIsLeft(b: Brain, rem: seq<Path>, w: nat, open: nat, cursor: Option<Path>, k: nat)
    requires rem == Remaining(b, cursor) && w <= |rem| && open < |PairsOf(b, rem[..w])| && k <= |rem|
    requires var os := PairsOf(b, rem[..w]); Remaining(b, CursorBefore(os, open, os[open].source, cursor)) == rem[k..]
    ensures PairsOf(b, rem[..w])[open].source in rem[k..]
  {
    hide Own, Less, PairsOf, CursorBefore;
    var os := PairsOf(b, rem[..w]);
    var p := os[open].source;
    InWindow(rem, w);
    SourcesAscend(b, rem[..w]);
    CursorBeforeAt(os, open, p, cursor);
    assert p in rem[..w] && p in rem;
    assert p in Remaining(b, CursorBefore(os, open, p, cursor));
  }

  lemma RemainingInOrder(b: Brain, cursor: Option<Path>)
    ensures Increasing(Remaining(b, cursor))
  {
  }

  lemma InWindow(rem: seq<Path>, w: nat)
    requires Increasing(rem) && w <= |rem|
    ensures Increasing(rem[..w]) && Increasing(rem[w..]) && forall p :: p in rem[..w] ==> p in rem && p !in rem[w..]
  {
    hide Less;
    forall i, j | 0 <= i < w <= j < |rem| ensures rem[i] != rem[j] { LessIrreflexive(rem[i]); }
  }

  /** The pairs of the sources that are passed end before the first open one, and behind them the plan
      goes on with the sources that are left. */
  lemma PrefixStops(b: Brain, rem: seq<Path>, w: nat, open: nat, k: nat)
    requires Increasing(rem) && w <= |rem| && open < |PairsOf(b, rem[..w])| && k <= |rem|
    requires PairsOf(b, rem[..w])[open].source in rem[k..]
    ensures var os, first := PairsOf(b, rem[..w]), PairsOf(b, rem[..k]);
      |first| <= open && os[..|first|] == first && forall i :: |first| <= i < |os| ==> os[i].source in rem[k..]
  {
    hide Own, Less, PairsOf, Increasing;
    var os, first := PairsOf(b, rem[..w]), PairsOf(b, rem[..k]);
    InWindow(rem, w);
    InWindow(rem, k);
    SourcesAscend(b, rem[..w]);
    SourcesAscend(b, rem[..k]);
    assert os[open].source in rem[..w];
    if w < k {
      EarlierIn(rem, w, k);
    } else {
      assert rem[..w] == rem[..k] + rem[k..w];
      PairsOfAppend(b, rem[..k], rem[k..w]);
      Middle(rem, k, w);
      SourcesAscend(b, rem[k..w]);
      assert os == first + PairsOf(b, rem[k..w]);
      assert forall i :: 0 <= i < |first| ==> os[i] == first[i];
      forall i | |first| <= i < |os| ensures os[i].source in rem[k..] {
        assert os[i] == PairsOf(b, rem[k..w])[i - |first|];
      }
    }
  }

  lemma EarlierIn(rem: seq<Path>, w: nat, k: nat)
    requires w <= k <= |rem|
    ensures forall p :: p in rem[..w] ==> p in rem[..k]
  {
    assert rem[..k][..w] == rem[..w];
  }

  lemma Middle(rem: seq<Path>, k: nat, w: nat)
    requires Increasing(rem) && k <= w <= |rem|
    ensures Increasing(rem[k..w]) && forall p :: p in rem[k..w] ==> p in rem[k..]
  {
    hide Less;
    assert rem[k..w] == rem[k..][..w - k];
  }

  /** What a call deals with and what it leaves make up what it found left, or more when it dealt with
      pairs it leaves. */
  lemma CallAdds(s: State, step: Step)
    requires step.Call?
    ensures var run, t := Continue(s.row, step.full, step.id), Apply(s, step);
      var d, left := Dealings(StepResults(s, step)), |PairsOf(s.x.brain, Remaining(s.x.brain, run.cursor))|;
      t.row.Some? && d + |PairsOf(s.x.brain, LeftOf(s.x.brain, t.row.value))| >= left
      && (d + |PairsOf(s.x.brain, LeftOf(s.x.brain, t.row.value))| == left <==> CleanCall(s, step))
  {
    hide Own, Less, PairsOf, Remaining, ResultOf, Dealings, Stepped, StartedPairs, ChecksIn, Recorded, Fates, Saved, ChecksOf, Known,
      Increasing, LeftOf;
    var run := Continue(s.row, step.full, step.id);
    if |s.x.brain.pages| <= MAX_DUP_PAGES {
      var known := Known(run, s.items);
      var k := CallSplits(s.x, run, known, step.env);
      RemainingInOrder(s.x.brain, run.cursor);
      SplitCounts(s.x, known, step.env, Remaining(s.x.brain, run.cursor), k, StartedPairs(s.x, run, known, step.env));
    } else {
      NothingDealt();
      LeavesAll(s.x.brain, run.(status := Stopped));
    }
  }

  lemma LeavesAll(b: Brain, run: Run)
    requires !run.status.Done?
    ensures LeftOf(b, run) == Remaining(b, run.cursor)
  {
  }

  lemma SplitCounts(x: Index, known: Memory, env: Env, rem: seq<Path>, k: nat, ps: seq<Owned>)
    requires Increasing(rem) && k <= |rem|
    requires var first := PairsOf(x.brain, rem[..k]);
      && |first| <= |ps| && ps[..|first|] == first
      && (forall i :: 0 <= i < |first| ==> !ResultOf(x, known, env, ps[i].pair).Cut?)
      && (forall i :: |first| <= i < |ps| ==> ps[i].source in rem[k..])
    ensures var d, left := Dealings(Results(x, known, env, ps)), |PairsOf(x.brain, rem)|;
      d + |PairsOf(x.brain, rem[k..])| >= left
      && (d + |PairsOf(x.brain, rem[k..])| == left <==> NoneLeft(x, known, env, ps, rem[k..]))
  {
    hide *;
    var n := |PairsOf(x.brain, rem[..k])|;
    assert rem[..k] + rem[k..] == rem;
    PairsOfAppend(x.brain, rem[..k], rem[k..]);
    ResultsSplit(x, known, env, ps, n);
    var a, c := Results(x, known, env, ps[..n]), Results(x, known, env, ps[n..]);
    DealingsSum(a, c);
    DealingsEnds(a);
    DealingsEnds(c);
    InWindow(rem, k);
    SourcesAscend(x.brain, rem[..k]);
    SourcesAre(PairsOf(x.brain, rem[..k]), ps, rem[..k]);
    TailLeft(x, known, env, ps, n, rem, k);
  }

  lemma SourcesAre(first: seq<Owned>, ps: seq<Owned>, sources: seq<Path>)
    requires |first| <= |ps| && ps[..|first|] == first && SourcesIn(first, sources)
    ensures forall i :: 0 <= i < |first| ==> ps[i].source in sources
  {
    assert forall i :: 0 <= i < |first| ==> ps[i] == first[i];
  }

  lemma ResultsSplit(x: Index, known: Memory, env: Env, ps: seq<Owned>, n: nat)
    requires n <= |ps|
    ensures Results(x, known, env, ps) == Results(x, known, env, ps[..n]) + Results(x, known, env, ps[n..])
  {
    hide ResultOf;
  }

  lemma TailLeft(x: Index, known: Memory, env: Env, ps: seq<Owned>, n: nat, rem: seq<Path>, k: nat)
    requires n <= |ps| && k <= |rem|
    requires forall i :: 0 <= i < n ==> ps[i].source in rem[..k]
    requires forall p :: p in rem[..k] ==> p !in rem[k..]
    requires forall i :: n <= i < |ps| ==> ps[i].source in rem[k..]
    ensures (forall i :: 0 <= i < |ps[n..]| ==> Results(x, known, env, ps[n..])[i].Cut?) <==> NoneLeft(x, known, env, ps, rem[k..])
  {
    hide ResultOf;
    if NoneLeft(x, known, env, ps, rem[k..]) {
      forall i | 0 <= i < |ps[n..]| ensures Results(x, known, env, ps[n..])[i].Cut? {
        assert ps[n..][i] == ps[n + i] && ps[n + i] in ps;
      }
    } else {
      var o :| o in ps && !ResultOf(x, known, env, o.pair).Cut? && o.source in rem[k..];
      var i :| 0 <= i < |ps| && ps[i] == o;
      assert i >= n && ps[n..][i - n] == o;
      assert !Results(x, known, env, ps[n..])[i - n].Cut?;
    }
  }

  /** The pages and what they name stay as they are from step b to i. */
  ghost predicate SameBrain(ss: seq<State>, b: nat, i: nat)
    requires b <= i < |ss|
  {
    forall k :: b <= k <= i ==> ss[k].x.brain == ss[b].x.brain
  }

  ghost predicate CleanPass(ss: seq<State>, steps: seq<Step>, b: nat, i: nat)
    requires |ss| == |steps| + 1 && b <= i < |ss|
  {
    forall k :: b <= k < i ==> CleanCall(ss[k], steps[k])
  }

  lemma {:induction false} PassAdds(ss: seq<State>, steps: seq<Step>, b: nat, i: nat)
    requires RunOf(ss, steps) && b < i < |ss| && InPass(ss, steps, b, i) && SameBrain(ss, b, i)
    ensures ss[i].row.Some?
    ensures var brain := ss[b].x.brain;
      var d, left, all := Dealings(Trail(ss, steps, b, i)), |PairsOf(brain, LeftOf(brain, ss[i].row.value))|, |PairsOf(brain, Remaining(brain, None))|;
      d + left >= all && (d + left == all <==> CleanPass(ss, steps, b, i))
    decreases i
  {
    hide Dealings, StepResults, CleanCall, PairsOf, Remaining, Advanced, ChecksIn, Recorded, Saved, Fates, Known, StartedPairs, LeftOf;
    assert StepAt(ss, steps, i - 1);
    var s, step := ss[i - 1], steps[i - 1];
    if i == b + 1 {
      CallAdds(s, step);
      assert Trail(ss, steps, b, i) == [] + StepResults(s, step) == StepResults(s, step);
    } else {
      PassAdds(ss, steps, b, i - 1);
      assert ss[i].x.brain == ss[b].x.brain && s.x.brain == ss[b].x.brain;
      DealingsSum(Trail(ss, steps, b, i - 1), StepResults(s, step));
      if step.Call? {
        CallAdds(s, step);
        LeavesAll(s.x.brain, s.row.value);
      } else {
        NoCallNoResults(s, step);
        NothingDealt();
        NoCallIsClean(s, step);
      }
      assert CleanPass(ss, steps, b, i) <==> CleanPass(ss, steps, b, i - 1) && CleanCall(s, step);
    }
  }

  lemma NoCallIsClean(s: State, step: Step)
    requires !step.Call?
    ensures CleanCall(s, step)
  {
  }

  /** WHEN THE COUNTS NUMBER THE PAIRS. The checked, skipped and unchanged pairs a done pass reports, over
      pages that named the same pages throughout, are together no fewer than the pairs there are, each
      owned by one page; and exactly as many if and only if no call dealt with a pair of a page
      that it left to the next. */
  lemma DoneCountsIff(ss: seq<State>, steps: seq<Step>, b: nat, i: nat)
    requires RunOf(ss, steps) && b < i < |ss| && InPass(ss, steps, b, i) && SameBrain(ss, b, i)
    requires ss[i].row.Some? ==> ss[i].row.value.status.Done?
    ensures ss[i].row.Some?
    ensures var c, brain := ss[i].row.value.counts, ss[b].x.brain;
      var all := PairsOf(brain, Remaining(brain, None));
      && c.checked + c.skipped + c.same >= |all|
      && (c.checked + c.skipped + c.same == |all| <==> CleanPass(ss, steps, b, i))
  {
    hide Trail, StepResults, CleanPass, PairsOf, Remaining, Apply, Enabled, Number, Found, InPass, SameBrain;
    CountsNumberStarts(ss, steps, b, i);
    PassAdds(ss, steps, b, i);
    NoPairsOfNone(ss[b].x.brain);
  }

  lemma NoPairsOfNone(b: Brain)
    ensures PairsOf(b, []) == []
  {
  }

  /** There is no pair twice among those of a brain. */
  lemma {:induction false} PairsApart(b: Brain, ps: seq<Path>, i: nat, j: nat)
    requires Increasing(ps) && i < j < |PairsOf(b, ps)|
    ensures PairsOf(b, ps)[i].pair != PairsOf(b, ps)[j].pair
  {
    hide Own, Less, PairsOf;
    var os := PairsOf(b, ps);
    PairsOfMembers(b, ps, os[i]);
    PairsOfMembers(b, ps, os[j]);
    if os[i].pair == os[j].pair {
      NoPairTwice(b, os[i], os[j]);
      OwnedApart(b, ps, i, j);
    }
  }

  lemma {:induction false} OwnedApart(b: Brain, ps: seq<Path>, i: nat, j: nat)
    requires Increasing(ps) && i < j < |PairsOf(b, ps)|
    ensures PairsOf(b, ps)[i] != PairsOf(b, ps)[j]
    decreases |ps|
  {
    var init, p := ps[..|ps| - 1], ps[|ps| - 1];
    var os, n := PairsOf(b, ps), |PairsOf(b, init)|;
    assert os == PairsOf(b, init) + Own(b, p);
    InWindow(ps, |init|);
    assert ps[|init|..] == [p];
    hide Own, Less, PairsOf;
    if j < n {
      OwnedApart(b, init, i, j);
    } else if i < n {
      SourcesAscend(b, init);
      OwnSource(b, p);
      assert os[i] == PairsOf(b, init)[i] && os[j] == Own(b, p)[j - n];
    } else {
      OwnDistinct(b, p);
      assert os[i] == Own(b, p)[i - n] && os[j] == Own(b, p)[j - n];
    }
  }
}
