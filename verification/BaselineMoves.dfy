/** The baseline scan over a branch that moves between its calls: what the rows of each path are. */
module BaselineMoves {
  import opened Options
  import opened Paths
  import opened BaselineScan
  import opened BaselineRuns

  // ---------- the rows of one path ----------

  function RowsOn(rows: seq<Row>, p: Path): seq<Row> {
    if rows == [] then []
    else RowsOn(rows[..|rows| - 1], p) + (if rows[|rows| - 1].path == p then [rows[|rows| - 1]] else [])
  }

  /** What the scan should hold of a path. */
  function RowsWanted(tree: Tree, p: Path): seq<Row> {
    if p in tree then RowsAt(p, tree[p]) else []
  }

  lemma {:induction false} RowsOnAppend(a: seq<Row>, b: seq<Row>, p: Path)
    ensures RowsOn(a + b, p) == RowsOn(a, p) + RowsOn(b, p)
    decreases |b|
  {
    if b == [] {
      assert a + b == a;
    } else {
      assert (a + b)[..|a + b| - 1] == a + b[..|b| - 1];
      RowsOnAppend(a, b[..|b| - 1], p);
    }
  }

  lemma RowsOnOne(r: Row, p: Path)
    ensures RowsOn([r], p) == if r.path == p then [r] else []
  {
    assert [r][..0] == [] && RowsOn([], p) == [];
  }

  lemma {:induction false} NoneOn(rows: seq<Row>, p: Path)
    requires forall r :: r in rows ==> r.path != p
    ensures RowsOn(rows, p) == []
  {
    if rows != [] { NoneOn(rows[..|rows| - 1], p); }
  }

  lemma {:induction false} AllOn(rows: seq<Row>, p: Path)
    requires forall r :: r in rows ==> r.path == p
    ensures RowsOn(rows, p) == rows
  {
    if rows != [] { AllOn(rows[..|rows| - 1], p); }
  }

  lemma {:induction false} RowsOnKept(rows: seq<Row>, from: Option<Path>, to: Option<Path>, p: Path)
    ensures RowsOn(Kept(rows, from, to), p) == if InRange(p, from, to) then [] else RowsOn(rows, p)
  {
    hide InRange;
    if rows != [] {
      var init, last := rows[..|rows| - 1], rows[|rows| - 1];
      RowsOnKept(init, from, to, p);
      RowsOnAppend(Kept(init, from, to), [last], p);
      RowsOnOne(last, p);
      assert Kept(init, from, to) + [] == Kept(init, from, to);
    }
  }

  lemma {:induction false} RowsOnTree(tree: Tree, ps: seq<Path>, p: Path)
    requires (forall q :: q in ps ==> q in tree) && Increasing(ps)
    ensures RowsOn(RowsOf(tree, ps), p) == if p in ps then RowsWanted(tree, p) else []
    decreases |ps|
  {
    hide Less, RowsAt;
    if ps != [] {
      var n := |ps| - 1;
      var init, q := ps[..n], ps[n];
      PrefixIncreasing(ps, n);
      RowsOnTree(tree, init, p);
      RowsOnAppend(RowsOf(tree, init), RowsAt(q, tree[q]), p);
      assert ps == init + [q];
      OnePath(q, tree[q]);
      if p == q {
        AllOn(RowsAt(q, tree[q]), p);
        LastIsNew(ps);
      } else {
        NoneOn(RowsAt(q, tree[q]), p);
      }
    }
  }

  lemma OnePath(q: Path, f: File)
    ensures forall r :: r in RowsAt(q, f) ==> r.path == q
  {
  }

  lemma LastIsNew(ps: seq<Path>)
    requires Increasing(ps) && ps != []
    ensures ps[|ps| - 1] !in ps[..|ps| - 1]
  {
    hide Less;
    LessIrreflexive(ps[|ps| - 1]);
    assert forall i :: 0 <= i < |ps| - 1 ==> Less(ps[i], ps[|ps| - 1]);
  }

  // ---------- the window of a call ----------

  /** A call reads exactly the files of its tree in the range it clears. */
  lemma WindowIsRange(tree: Tree, cursor: Option<Path>, budget: nat, p: Path)
    requires "" !in tree && budget > 0 && p != ""
    ensures p in Covers(tree, cursor, budget) <==> p in tree && InRange(p, cursor, PlanAt(tree, cursor, budget).last)
  {
    var w, to := Covers(tree, cursor, budget), PlanAt(tree, cursor, budget).last;
    CoversSplits(tree, cursor, budget);
    if p in w {
      InWindow(tree, cursor, budget, p);
    } else if p in tree && InRange(p, cursor, to) {
      hide Less, Covers, PlanAt;
      assert p in Remaining(tree, cursor);
      assert p in Remaining(tree, to) || p in Remaining(tree, cursor);
      WindowEnd(tree, cursor, budget);
      LessIrreflexive(p);
    }
  }

  // ---------- runs of calls, each on its own tree ----------

  datatype Move = Move(tree: Tree, call: Call)

  function AfterMoves(ms: seq<Move>, budget: nat): State {
    if ms == [] then State(None, [])
    else Apply(ms[|ms| - 1].tree, budget, AfterMoves(ms[..|ms| - 1], budget), ms[|ms| - 1].call)
  }

  predicate Fresh(s: State) {
    s.scan.None? || s.scan.value.status.Done?
  }

  /** The range the next call on this tree clears. */
  predicate Clears(s: State, tree: Tree, budget: nat, p: Path) {
    var cursor := Begun(s.scan, s.rows).0.cursor;
    InRange(p, cursor, PlanAt(tree, cursor, budget).last)
  }

  /** The rows of a path, as the calls of the scan explain them: those in the tree of the call that last
      cleared the path, all of them if it landed, and else as far as it got. */
  function Explained(ms: seq<Move>, budget: nat, p: Path): seq<Row> {
    if ms == [] then []
    else
      var init, m := ms[..|ms| - 1], ms[|ms| - 1];
      var s := AfterMoves(init, budget);
      if Clears(s, m.tree, budget, p) then
        match m.call
        case Lands => RowsWanted(m.tree, p)
        case StopsAfter(n) =>
          var found := RowsOf(m.tree, Covers(m.tree, Begun(s.scan, s.rows).0.cursor, budget));
          RowsOn(found[..Least2(n, |found|)], p)
      else if Fresh(s) then []
      else Explained(init, budget, p)
  }

  predicate NoEmptyPath(ms: seq<Move>) {
    forall i :: 0 <= i < |ms| ==> "" !in ms[i].tree
  }

  lemma {:induction false} FoundOn(tree: Tree, cursor: Option<Path>, budget: nat, p: Path)
    requires "" !in tree && budget > 0 && p != ""
    ensures RowsOn(RowsOf(tree, Covers(tree, cursor, budget)), p)
      == if InRange(p, cursor, PlanAt(tree, cursor, budget).last) then RowsWanted(tree, p) else []
    ensures !InRange(p, cursor, PlanAt(tree, cursor, budget).last) ==>
      forall r :: r in RowsOf(tree, Covers(tree, cursor, budget)) ==> r.path != p
  {
    var w := Covers(tree, cursor, budget);
    PrefixIncreasing(Remaining(tree, cursor), |w|);
    hide InRange, PlanAt, Less, RowsOf;
    WindowIsRange(tree, cursor, budget, p);
    RowsOnTree(tree, w, p);
    RowPaths(tree, w);
  }

  /** One call: the range it clears holds what it wrote, and every other path what it held. */
  lemma {:induction false} CallOn(tree: Tree, budget: nat, s: State, c: Call, p: Path)
    requires "" !in tree && budget > 0 && p != ""
    ensures var (scan, before) := Begun(s.scan, s.rows);
      var found := RowsOf(tree, Covers(tree, scan.cursor, budget));
      RowsOn(Apply(tree, budget, s, c).rows, p) ==
        if !Clears(s, tree, budget, p) then RowsOn(before, p)
        else match c case Lands => RowsWanted(tree, p) case StopsAfter(n) => RowsOn(found[..Least2(n, |found|)], p)
  {
    hide Kept, RowsOf, Covers, PlanAt, InRange, Next, RowsOn, RowsWanted;
    var (scan, before) := Begun(s.scan, s.rows);
    var found, to := RowsOf(tree, Covers(tree, scan.cursor, budget)), PlanAt(tree, scan.cursor, budget).last;
    var kept := Kept(before, scan.cursor, to);
    FoundOn(tree, scan.cursor, budget, p);
    RowsOnKept(before, scan.cursor, to, p);
    match c
    case Lands => RowsOnAppend(kept, found, p);
    case StopsAfter(n) =>
      var part := found[..Least2(n, |found|)];
      RowsOnAppend(kept, part, p);
      if !Clears(s, tree, budget, p) {
        assert forall r :: r in part ==> r in found;
        NoneOn(part, p);
      }
  }

  lemma BegunRows(s: State, p: Path)
    ensures RowsOn(Begun(s.scan, s.rows).1, p) == if Fresh(s) then [] else RowsOn(s.rows, p)
  {
  }

  /** WHERE EVERY ROW COMES FROM. Through any calls, each on the branch as it then is, and whatever was lost,
      the rows of a path are those of the tree of the call that last cleared it. */
  lemma {:induction false} MovesExplained(ms: seq<Move>, budget: nat, p: Path)
    requires budget > 0 && p != "" && NoEmptyPath(ms)
    ensures RowsOn(AfterMoves(ms, budget).rows, p) == Explained(ms, budget, p)
    decreases |ms|
  {
    hide Apply, RowsWanted, RowsOn, RowsOf, Covers, Clears, Fresh, Begun;
    if ms == [] {
      NoRowsAtAll(p);
    } else {
      var init, m := ms[..|ms| - 1], ms[|ms| - 1];
      var s := AfterMoves(init, budget);
      MovesExplained(init, budget, p);
      CallOn(m.tree, budget, s, m.call, p);
      BegunRows(s, p);
    }
  }

  lemma NoRowsAtAll(p: Path)
    ensures RowsOn([], p) == []
  {
  }

  /** A SCAN OVER A MOVING BRANCH is the last call's tree's if and only if it holds, of every path that call
      did not clear, what the tree says: what the calls before it found there must not have changed since,
      and what they left of a file that is gone must have been nothing. */
  lemma MovedScanIff(ms: seq<Move>, budget: nat)
    requires budget > 0 && NoEmptyPath(ms) && ms != [] && ms[|ms| - 1].call.Lands?
    ensures var init, tree := ms[..|ms| - 1], ms[|ms| - 1].tree;
      var s := AfterMoves(init, budget);
      (forall p :: p != "" ==> RowsOn(AfterMoves(ms, budget).rows, p) == RowsWanted(tree, p)) <==>
        (forall p :: p != "" && !Clears(s, tree, budget, p) ==> RowsWanted(tree, p) == if Fresh(s) then [] else Explained(init, budget, p))
  {
    hide RowsWanted, RowsOn, Clears, Fresh, AfterMoves;
    var init, tree := ms[..|ms| - 1], ms[|ms| - 1].tree;
    var s := AfterMoves(init, budget);
    forall p | p != ""
      ensures RowsOn(AfterMoves(ms, budget).rows, p)
        == if Clears(s, tree, budget, p) then RowsWanted(tree, p) else if Fresh(s) then [] else Explained(init, budget, p)
    {
      MovesExplained(ms, budget, p);
    }
  }

  // ---------- what a finished scan holds, file by file ----------

  /** HOW FAR A CALL GETS. When all of it lands the scan goes on behind the next files within the budget, all of
      them read or passed over, and is done exactly when that was the rest; when it does not, a scan that was
      under way stays where it was, and a new one is at its start. */
  lemma CallProgress(tree: Tree, budget: nat, s: State, c: Call)
    requires budget > 0
    ensures var scan, after := Begun(s.scan, s.rows).0, Apply(tree, budget, s, c).scan;
      var left := Remaining(tree, scan.cursor);
      && after.Some?
      && (c.StopsAfter? ==> after == Some(scan))
      && (c.Lands? ==>
            && Remaining(tree, after.value.cursor) == left[Least2(budget, |left|)..]
            && (after.value.status.Done? <==> |left| <= budget)
            && after.value.scanned + after.value.skipped == scan.scanned + scan.skipped + Least2(budget, |left|))
    ensures Fresh(s) ==> Begun(s.scan, s.rows) == (Scan(Running, None, 0, 0, 0), [])
    ensures !Fresh(s) ==> Begun(s.scan, s.rows) == (s.scan.value, s.rows)
  {
    hide RowsOf, TextsIn, Kept, Less, Covers, PlanAt, Remaining, Least2;
    WindowCovers(tree, Begun(s.scan, s.rows).0.cursor, budget);
  }

  lemma WindowCovers(tree: Tree, cursor: Option<Path>, budget: nat)
    requires budget > 0
    ensures var left, plan := Remaining(tree, cursor), PlanAt(tree, cursor, budget);
      && Remaining(tree, plan.last) == left[Least2(budget, |left|)..]
      && (plan.done <==> |left| <= budget)
      && |Covers(tree, cursor, budget)| == Least2(budget, |left|)
  {
    CoversSplits(tree, cursor, budget);
    hide ToRead, Less, Remaining;
    var left := Remaining(tree, cursor);
    assert left[0..] == left;
  }

  /** A call deals with three hundred files, or with those that are left. */
  lemma CallCovers(tree: Tree, cursor: Option<Path>)
    ensures var left := Remaining(tree, cursor);
      Covers(tree, cursor, BASELINE_FILE_BUDGET) == left[..if |left| < 300 then |left| else 300]
  {
    hide Remaining;
  }

  /** The files that have a text. */
  function TextsOf(tree: Tree): set<Path> {
    set p | p in tree && tree[p].Text?
  }

  function TextsAmong(tree: Tree, ps: seq<Path>): set<Path> {
    set p | p in ps && p in tree && tree[p].Text?
  }

  lemma {:induction false} TextsCounted(tree: Tree, ps: seq<Path>)
    requires (forall p :: p in ps ==> p in tree) && Increasing(ps)
    ensures TextsIn(tree, ps) == |TextsAmong(tree, ps)|
    decreases |ps|
  {
    hide Less, TextsAmong, Increasing;
    if ps == [] {
      NoTexts(tree);
    } else {
      var init, q := ps[..|ps| - 1], ps[|ps| - 1];
      PrefixIncreasing(ps, |ps| - 1);
      TextsCounted(tree, init);
      LastIsNew(ps);
      assert ps == init + [q];
      OneMoreText(tree, init, q);
    }
  }

  lemma NoTexts(tree: Tree)
    ensures TextsAmong(tree, []) == {}
  {
  }

  lemma OneMoreText(tree: Tree, init: seq<Path>, q: Path)
    requires q in tree && q !in init
    ensures |TextsAmong(tree, init + [q])| == |TextsAmong(tree, init)| + if tree[q].Text? then 1 else 0
  {
    assert TextsAmong(tree, init + [q]) == TextsAmong(tree, init) + if tree[q].Text? then {q} else {};
    assert q !in TextsAmong(tree, init);
  }

  lemma RowsAtAre(p: Path, f: File)
    ensures |RowsAt(p, f)| == if f.Text? then |f.hits| else 0
    ensures f.Text? ==> forall i :: 0 <= i < |f.hits| ==> RowsAt(p, f)[i] == Row(p, f.hits[i])
  {
  }

  /** The rows come in the order of their paths. */
  predicate InPathOrder(rows: seq<Row>) {
    forall i, j :: 0 <= i < j < |rows| ==> rows[i].path == rows[j].path || Less(rows[i].path, rows[j].path)
  }

  lemma {:induction false} RowsInOrder(tree: Tree, ps: seq<Path>)
    requires (forall p :: p in ps ==> p in tree) && Increasing(ps)
    ensures InPathOrder(RowsOf(tree, ps))
    decreases |ps|
  {
    hide Less, RowsAt, InPathOrder;
    if ps == [] {
      NoRowsInOrder();
    } else {
      var n := |ps| - 1;
      var init, q := ps[..n], ps[n];
      PrefixIncreasing(ps, n);
      RowsInOrder(tree, init);
      RowPaths(tree, init);
      OnePath(q, tree[q]);
      forall p | p in init ensures Less(p, q) {
        var i :| 0 <= i < |init| && init[i] == p;
        assert ps[i] == p;
      }
      OrderGrows(RowsOf(tree, init), RowsAt(q, tree[q]), q);
    }
  }

  lemma NoRowsInOrder()
    ensures InPathOrder([])
  {
  }

  lemma OrderGrows(a: seq<Row>, b: seq<Row>, q: Path)
    requires InPathOrder(a) && (forall r :: r in a ==> Less(r.path, q)) && forall r :: r in b ==> r.path == q
    ensures InPathOrder(a + b)
  {
    hide Less;
    var rows := a + b;
    forall i, j | 0 <= i < j < |rows| ensures rows[i].path == rows[j].path || Less(rows[i].path, rows[j].path) {
      if i < |a| { assert rows[i] in a; } else { assert rows[i] in b; }
      if j < |a| { assert rows[j] == a[j] && rows[i] == a[i]; } else { assert rows[j] in b; }
    }
  }

  /** WHAT A FINISHED SCAN HOLDS. On one tree, whatever was lost on the way: of each file with a text its
      detections, each once and in their order; of any other path nothing; the files in path order; and it
      counts the files with a text. */
  lemma FinishedScanHolds(tree: Tree, budget: nat, cs: seq<Call>, p: Path)
    requires "" !in tree && budget > 0
    requires var s := After(tree, budget, cs); s.scan.Some? && s.scan.value.status.Done?
    ensures var s := After(tree, budget, cs);
      var mine := RowsOn(s.rows, p);
      && (if p in tree && tree[p].Text?
          then |mine| == |tree[p].hits| && forall i :: 0 <= i < |mine| ==> mine[i] == Row(p, tree[p].hits[i])
          else mine == [])
      && InPathOrder(s.rows)
      && s.scan.value.scanned == |TextsOf(tree)|
  {
    FinishedScanIsExact(tree, budget, cs);
    var all := Remaining(tree, None);
    RowsOnTree(tree, all, p);
    RowsInOrder(tree, all);
    TextsCounted(tree, all);
    if p in tree { RowsAtAre(p, tree[p]); }
    hide After, RowsOf, RowsAt, TextsIn, Less, RowsOn, InPathOrder;
    assert forall q :: q in all <==> q in tree;
    assert TextsAmong(tree, all) == TextsOf(tree);
  }
}
