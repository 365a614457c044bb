/** A brain edited while a pass is under way: a pair can change hands behind the cursor. */
module ConsolidationLimits {
  import opened Options
  import opened Paths
  import opened ConsolidationPlan
  import opened ConsolidationPass
  import opened ConsolidationRuns
  import opened ConsolidationProgress

  /** A pair whose owner the cursor has passed is not planned again in this pass. */
  lemma BehindTheCursor(x: Index, run: Run, known: Memory, o: Owned)
    requires o in Own(x.brain, o.source) && !Passed(run.cursor, o.source)
    ensures forall o' :: o' in PlanFor(x, run, known).pairs ==> o'.pair != o.pair
  {
    hide Own, Less, Costs, Stops, PairsOf;
    var ps := Remaining(x.brain, run.cursor);
    var k := Window(x.brain, ps, PAIRS_PER_STEP, Costs(x, known), 0);
    forall o' | o' in PlanFor(x, run, known).pairs ensures o'.pair != o.pair {
      PairsOfMembers(x.brain, ps[..k], o');
      assert o'.source in ps;
      if o'.pair == o.pair { NoPairTwice(x.brain, o, o'); }
    }
  }

  // ---------- what an edit loses ----------

  /** The cursor only moves on. */
  lemma StaysBehind(x: Index, run: Run, known: Memory, env: Env, p: Path)
    requires p in x.brain.pages && SourceDone(run, p) && !run.status.Done?
    ensures SourceDone(Stepped(x, run, known, env), p)
  {
    hide Own, Less, Stepped, Passed;
    var k := NextCursor(x, run, known, env);
    assert p !in Remaining(x.brain, run.cursor);
    var next := Stepped(x, run, known, env);
    assert forall q :: q in Remaining(x.brain, run.cursor)[k..] ==> q in Remaining(x.brain, run.cursor);
    assert p !in Remaining(x.brain, next.cursor);
  }

  /** A call that goes on with the pass neither loses a pair nor finds a lost one again. */
  lemma CallKeepsLost(s: State, full: bool, id: nat, env: Env, pair: Pair)
    requires !Begins(s.row, full)
    ensures Lost(Apply(s, Call(full, id, env)), pair) <==> Lost(s, pair)
  {
    hide PrintOf, Own, Less, SourceDone, Stepped, StartedPairs, Fates, Saved, Recorded, Known;
    if Lost(s, pair) {
      var o :| OwnedBehind(s, o) && o.pair == pair;
      if |s.x.brain.pages| > MAX_DUP_PAGES {
        StopKeepsBehind(s, full, id, env, o);
      } else {
        BehindStays(s, full, id, env, o);
      }
    } else {
      CallLosesNone(s, full, id, env, pair);
    }
  }

  lemma StopKeepsBehind(s: State, full: bool, id: nat, env: Env, o: Owned)
    requires !Begins(s.row, full) && |s.x.brain.pages| > MAX_DUP_PAGES && OwnedBehind(s, o)
    ensures var t := Apply(s, Call(full, id, env));
      t.row.Some? && OwnedBehind(t, o) && t.now == s.now && t.x == s.x
  {
    hide Less, Own;
  }

  lemma BehindStays(s: State, full: bool, id: nat, env: Env, o: Owned)
    requires !Begins(s.row, full) && |s.x.brain.pages| <= MAX_DUP_PAGES && OwnedBehind(s, o) && !Dealt(s, o.pair)
    ensures var t := Apply(s, Call(full, id, env));
      t.row.Some? && OwnedBehind(t, o) && !Dealt(t, o.pair)
  {
    hide PrintOf, Own, Less, Stepped, Fates, Saved, Recorded, Started, PlanFor, ResultOf, ChecksOf;
    var run := Continue(s.row, full, id);
    var known := Known(run, s.items);
    StaysBehind(s.x, run, known, env, o.source);
    BehindTheCursor(s.x, run, known, o);
    var ps := StartedPairs(s.x, run, known, env);
    assert forall o' :: o' in ps ==> o' in PlanFor(s.x, run, known).pairs;
    assert !Among(ps, o.pair);
    FatesAt(s.x, known, env, ps, s.now, o.pair);
  }

  /** From step e on the pass goes on, with no further edit, and is done at n. */
  ghost predicate GoesOnToTheEnd(ss: seq<State>, steps: seq<Step>, e: nat, n: nat)
    requires |ss| == |steps| + 1 && e < n < |ss|
  {
    && (forall k :: e < k < n ==> !steps[k].Edit? && (steps[k].Call? ==> !Begins(ss[k].row, steps[k].full)))
    && ss[n].row.Some? && ss[n].row.value.status.Done?
  }

  lemma {:induction false} LostToTheEnd(ss: seq<State>, steps: seq<Step>, e: nat, n: nat, pair: Pair)
    requires RunOf(ss, steps) && e < n < |ss|
    requires forall k :: e < k < n ==> !steps[k].Edit? && (steps[k].Call? ==> !Begins(ss[k].row, steps[k].full))
    ensures Lost(ss[n], pair) <==> Lost(ss[e + 1], pair)
    ensures ss[n].x == ss[e + 1].x
    decreases n
  {
    hide Lost, ChecksIn, Recorded, Saved, Begins, Advanced, Fates;
    if n > e + 1 {
      LostToTheEnd(ss, steps, e, n - 1, pair);
      assert StepAt(ss, steps, n - 1);
      match steps[n - 1]
      case Call(full, id, env) => CallKeepsLost(ss[n - 1], full, id, env, pair);
      case LostCall(_, _, _, _) => LostCallLosesNone(ss[n - 1], steps[n - 1], pair);
    }
  }

  /** WHICH EDIT LOSES A PAIR. Of two pages of which one names the other once step e has run, say
      an edit: the pass that goes on from there is done without having dealt with the pair
      at the texts it has if and only if step e left the pair a page that owns it at or
      behind the cursor, and the pair not dealt with at these texts. */
  lemma EditLosesIff(ss: seq<State>, steps: seq<Step>, e: nat, n: nat, a: Path, c: Path)
    requires RunOf(ss, steps) && e < n < |ss| && GoesOnToTheEnd(ss, steps, e, n)
    requires var x := ss[e + 1].x;
      && a in x.brain.pages && c in x.brain.pages && a != c
      && (c in NamedBy(x.brain, a) || a in NamedBy(x.brain, c))
    ensures !Dealt(ss[n], Sorted(a, c)) <==> Lost(ss[e + 1], Sorted(a, c))
  {
    hide PrintOf, Own, Less, RunOf, Dealt, NamedBy;
    LostToTheEnd(ss, steps, e, n, Sorted(a, c));
    var o := TheOwner(ss[n].x.brain, a, c);
    assert OwnedBehind(ss[n], o);
  }

  lemma TheOwner(b: Brain, a: Path, c: Path) returns (o: Owned)
    requires a in b.pages && c in b.pages && a != c && (c in NamedBy(b, a) || a in NamedBy(b, c))
    ensures o.source in b.pages && o in Own(b, o.source) && o.pair == Sorted(a, c)
  {
    hide Own;
    LessTotal(a, c);
    if Less(c, a) { LessAsymmetric(c, a); }
    var x, y := if Less(a, c) then a else c, if Less(a, c) then c else a;
    o := Owned(if y in NamedBy(b, x) then x else y, Pair(x, y));
    OneOwner(b, x, y, o.source);
  }

  // ---------- a run that loses a pair ----------

  /** Three pages in order: b names a throughout; a names `named`, which is c before the edit
      and c and b after it. */
  function Three(a: Path, b: Path, c: Path, named: set<Path>): Index {
    Index(Brain({a, b, c}, map[a := named, b := {a}]), map[], "", {})
  }

  function RefuseOnly(refused: Pair): Pair -> Answer {
    (pair: Pair) => if pair == refused then Refused else Screened
  }

  function NoClock(): nat -> bool {
    (i: nat) => false
  }

  predicate InARow(a: Path, b: Path, c: Path) {
    Less(a, b) && Less(b, c)
  }

  lemma Apart(a: Path, b: Path, c: Path)
    requires InARow(a, b, c)
    ensures a != b && b != c && a != c && Less(a, c)
    ensures !Less(b, a) && !Less(c, b) && !Less(c, a) && !Less(a, a)
  {
    LessTransitive(a, b, c);
    LessAsymmetric(a, b);
    LessAsymmetric(b, c);
    LessAsymmetric(a, c);
    LessIrreflexive(a);
  }

  lemma WalkIs(s: set<Path>, ps: seq<Path>)
    requires Increasing(ps) && forall p :: p in ps <==> p in s
    ensures Ascending(s) == ps
  {
    hide Less;
    IncreasingUnique(Ascending(s), ps);
  }

  lemma OwnFirst(a: Path, b: Path, c: Path)
    requires InARow(a, b, c)
    ensures var w := Three(a, b, c, {c}).brain;
      Own(w, a) == [Owned(a, Pair(a, c))] && Own(w, b) == [Owned(b, Pair(a, b))] && Own(w, c) == []
  {
    Apart(a, b, c);
    hide Less;
    var w := Three(a, b, c, {c}).brain;
    assert OwnPartners(w, a) == {c} && OwnPartners(w, b) == {a} && OwnPartners(w, c) == {};
    WalkIs(OwnPartners(w, a), [c]);
    WalkIs(OwnPartners(w, b), [a]);
    WalkIs(OwnPartners(w, c), []);
  }

  lemma OwnAfterEdit(a: Path, b: Path, c: Path)
    requires InARow(a, b, c)
    ensures var w := Three(a, b, c, {b, c}).brain; Own(w, b) == [] && Own(w, c) == []
  {
    Apart(a, b, c);
    hide Less;
    var w := Three(a, b, c, {b, c}).brain;
    assert OwnPartners(w, b) == {} && OwnPartners(w, c) == {};
    WalkIs(OwnPartners(w, b), []);
    WalkIs(OwnPartners(w, c), []);
  }

  lemma Walks(w: Brain, a: Path, b: Path, c: Path)
    requires InARow(a, b, c) && w.pages == {a, b, c}
    ensures Remaining(w, None) == [a, b, c] && Remaining(w, Some(a)) == [b, c]
  {
    Apart(a, b, c);
    hide Less, Ascending, InARow;
    InOrderThree(a, b, c);
    assert (set p | p in w.pages && Passed(None, p)) == {a, b, c};
    assert (set p | p in w.pages && Passed(Some(a), p)) == {b, c};
  }

  lemma InOrderThree(a: Path, b: Path, c: Path)
    requires InARow(a, b, c)
    ensures Ascending({a, b, c}) == [a, b, c] && Ascending({b, c}) == [b, c]
  {
    Apart(a, b, c);
    hide Less, Ascending;
    WalkIs({a, b, c}, [a, b, c]);
    WalkIs({b, c}, [b, c]);
  }

  lemma PairsOfTwo(w: Brain, p: Path, q: Path)
    ensures PairsOf(w, [p, q]) == Own(w, p) + Own(w, q)
  {
    hide Own;
    assert [p, q][..1] == [p] && [p][..0] == [];
    assert PairsOf(w, [p]) == PairsOf(w, []) + Own(w, p);
  }

  lemma PairsOfThree(w: Brain, p: Path, q: Path, r: Path)
    ensures PairsOf(w, [p, q, r]) == Own(w, p) + Own(w, q) + Own(w, r)
  {
    hide Own;
    PairsOfTwo(w, p, q);
    assert [p, q, r][..2] == [p, q];
  }

  lemma {:induction false} CostAtMost(os: seq<Owned>, costs: Pair -> bool)
    ensures Cost(os, costs) <= |os|
  {
    if os != [] { CostAtMost(os[..|os| - 1], costs); }
  }

  lemma PrefixShorter(w: Brain, ps: seq<Path>, j: nat)
    requires j <= |ps|
    ensures |PairsOf(w, ps[..j])| <= |PairsOf(w, ps)|
  {
    hide Own;
    assert ps[..j] + ps[j..] == ps;
    PairsOfAppend(w, ps[..j], ps[j..]);
  }

  /** A brain with few pairs is planned in one go. */
  lemma SmallPlan(x: Index, run: Run, known: Memory)
    requires |PairsOf(x.brain, Remaining(x.brain, run.cursor))| <= PAIRS_PER_STEP
    ensures PlanFor(x, run, known).pairs == PairsOf(x.brain, Remaining(x.brain, run.cursor))
    ensures PlanFor(x, run, known).done
  {
    hide PairsOf, Remaining, Cost;
    var ps := Remaining(x.brain, run.cursor);
    var k := Window(x.brain, ps, PAIRS_PER_STEP, Costs(x, known), 0);
    if k < |ps| {
      PrefixShorter(x.brain, ps, k + 1);
      CostAtMost(PairsOf(x.brain, ps[..k + 1]), Costs(x, known));
    }
    assert ps[..|ps|] == ps;
  }

  /** The first call checks the pair of a and c, is refused on that of a and b, and leaves
      the cursor at a. */
  lemma FirstCall(a: Path, b: Path, c: Path, id: nat)
    requires InARow(a, b, c)
    ensures var x, run := Three(a, b, c, {c}), Continue(None, false, id);
      var env := Env(RefuseOnly(Pair(a, b)), NoClock());
      && Stepped(x, run, map[], env).status.Stopped?
      && Stepped(x, run, map[], env).cursor == Some(a)
      && StartedPairs(x, run, map[], env) == [Owned(a, Pair(a, c)), Owned(b, Pair(a, b))]
      && ResultOf(x, map[], env, Pair(a, b)).Cut?
  {
    var x, run := Three(a, b, c, {c}), Continue(None, false, id);
    var env := Env(RefuseOnly(Pair(a, b)), NoClock());
    Apart(a, b, c);
    Walks(x.brain, a, b, c);
    OwnFirst(a, b, c);
    PairsOfThree(x.brain, a, b, c);
    hide PairsOf, Remaining, Less, Own, Counted;
    SmallPlan(x, run, map[]);
    hide PlanFor;
    var os := PlanFor(x, run, map[]).pairs;
    assert os == [Owned(a, Pair(a, c)), Owned(b, Pair(a, b))];
    assert !ResultOf(x, map[], env, Pair(a, c)).Cut? && ResultOf(x, map[], env, Pair(a, b)).Cut?;
    hide ResultOf, Started, FirstCut, CursorBefore, InARow;
    TwoPairs(x, env, os, None);
  }

  lemma TwoPairs(x: Index, env: Env, os: seq<Owned>, cursor: Option<Path>)
    requires |os| == 2 && os[0].source != os[1].source
    requires !ResultOf(x, map[], env, os[0].pair).Cut? && ResultOf(x, map[], env, os[1].pair).Cut?
    ensures Started(x, map[], env, os, 0) == 2 && FirstCut(x, map[], env, os, 0, 2) == 1 && os[..2] == os
    ensures CursorBefore(os, 1, os[1].source, cursor) == Some(os[0].source)
  {
    hide ResultOf;
  }

  /** After the edit the next call finds nothing left to do. */
  lemma SecondCall(a: Path, b: Path, c: Path, run: Run, known: Memory, env: Env)
    requires InARow(a, b, c) && run.cursor == Some(a)
    ensures var x := Three(a, b, c, {b, c});
      Stepped(x, run, known, env).status.Done? && StartedPairs(x, run, known, env) == []
  {
    var x := Three(a, b, c, {b, c});
    Walks(x.brain, a, b, c);
    OwnAfterEdit(a, b, c);
    PairsOfTwo(x.brain, b, c);
    hide PairsOf, Remaining, Less, Own, Counted;
    SmallPlan(x, run, known);
    hide PlanFor;
  }

  /** A DONE PASS CAN MISS A PAIR. For any three pages in a row: when the brain is edited while
      a pass is stopped, the pass can be done with two pages of which one named the other all
      along, and which were never checked, skipped or remembered. */
  lemma EditedPassMissesAPair(a: Path, b: Path, c: Path, ss: seq<State>, steps: seq<Step>)
    requires InARow(a, b, c)
    requires |ss| == 4 && ss[0] == State(Three(a, b, c, {c}), None, map[], NoLog, map[])
    requires steps == [Call(false, 0, Env(RefuseOnly(Pair(a, b)), NoClock())), Edit(Three(a, b, c, {b, c})),
                       Call(false, 1, Env(RefuseOnly(Pair(a, a)), NoClock()))]
    requires forall i :: 0 <= i < 3 ==> StepAt(ss, steps, i)
    ensures RunOf(ss, steps)
    ensures ss[3].row.Some? && ss[3].row.value.status.Done?
    ensures forall i :: 0 <= i < 4 ==> a in NamedBy(ss[i].x.brain, b)
    ensures Pair(a, b) !in ss[3].now && NeverChecked(ss[3].log, Pair(a, b))
  {
    hide Advanced, Stepped, StartedPairs, Fates, Recorded, ChecksOf, Less, InARow, RefuseOnly, ChecksIn;
    var env1, env2 := Env(RefuseOnly(Pair(a, b)), NoClock()), Env(RefuseOnly(Pair(a, a)), NoClock());
    assert StepAt(ss, steps, 0) && StepAt(ss, steps, 1) && StepAt(ss, steps, 2);
    Apart(a, b, c);
    FirstCall(a, b, c, 0);
    MissedBy(ss[0], 0, env1, Pair(a, b));
    var run2 := Continue(ss[2].row, false, 1);
    AfterSmallCall(ss[0], false, 0, env1);
    SecondCall(a, b, c, run2, Known(run2, ss[2].items), env2);
    MissedBy(ss[2], 1, env2, Pair(a, b));
    AfterSmallCall(ss[2], false, 1, env2);
  }

  ghost predicate NeverChecked(log: Log, pair: Pair) {
    forall c :: c in log.checked ==> c.pair != pair
  }

  /** A call that does not start a pair, or is refused on it, leaves it out. */
  lemma MissedBy(s: State, id: nat, env: Env, pair: Pair)
    requires |s.x.brain.pages| <= MAX_DUP_PAGES && pair !in s.now && NeverChecked(s.log, pair)
    requires var run := Continue(s.row, false, id);
      var known := Known(run, s.items);
      !Among(StartedPairs(s.x, run, known, env), pair) || ResultOf(s.x, known, env, pair).Cut?
    ensures pair !in Apply(s, Call(false, id, env)).now && NeverChecked(Apply(s, Call(false, id, env)).log, pair)
  {
    hide Stepped, StartedPairs, Fates, Recorded, ChecksOf, Saved, ResultOf;
    var run := Continue(s.row, false, id);
    var known := Known(run, s.items);
    AfterSmallCall(s, false, id, env);
    FatesAt(s.x, known, env, StartedPairs(s.x, run, known, env), if Begins(s.row, false) then map[] else s.now, pair);
    NotRecorded(s.x, known, env, StartedPairs(s.x, run, known, env), s.log, pair);
  }

  lemma NotRecorded(x: Index, known: Memory, env: Env, ps: seq<Owned>, log: Log, pair: Pair)
    requires !Among(ps, pair) || ResultOf(x, known, env, pair).Cut?
    requires NeverChecked(log, pair)
    ensures NeverChecked(Recorded(log, ChecksOf(x, known, env, ps)), pair)
  {
    hide ResultOf, Recorded, ChecksOf;
    var cs := ChecksOf(x, known, env, ps);
    RecordedAt(log, cs);
    forall c | c in cs ensures c.pair != pair { ChecksMembers(x, known, env, ps, c); }
  }

  lemma AfterSmallCall(s: State, full: bool, id: nat, env: Env)
    requires |s.x.brain.pages| <= MAX_DUP_PAGES
    ensures var t, run := Apply(s, Call(full, id, env)), Continue(s.row, full, id);
      var known := Known(run, s.items);
      && t.row == Some(Stepped(s.x, run, known, env))
      && t.log == Recorded(s.log, ChecksOf(s.x, known, env, StartedPairs(s.x, run, known, env)))
      && t.now == Fates(s.x, known, env, StartedPairs(s.x, run, known, env), if Begins(s.row, full) then map[] else s.now)
  {
    hide Stepped, StartedPairs, Fates, Recorded, ChecksOf, Saved;
  }
}
