/** Whole scans: what is read, in how many calls, and how their rows can go wrong. */
module BaselineRuns {
  // Lost replies, failed writes, racing calls and files that go.

  import opened Options
  import opened Paths
  import opened BaselineScan

  // ---------- the walk ----------

  lemma CoversSplits(tree: Tree, cursor: Option<Path>, budget: nat)
    requires budget > 0
    ensures var ps, w, plan := Remaining(tree, cursor), Covers(tree, cursor, budget), PlanAt(tree, cursor, budget);
      && w <= ps && (plan.done <==> w == ps)
      && Remaining(tree, plan.last) == (if w == [] then ps else ps[|w|..])
      && ps == w + (if w == [] then [] else Remaining(tree, plan.last))
      && (!plan.done ==> |w| == budget && |Remaining(tree, plan.last)| == |ps| - budget)
  {
    hide Less, ToRead, Passed, Increasing;
    var ps, w := Remaining(tree, cursor), Covers(tree, cursor, budget);
    if w != [] { ResumeBeyond(tree.Keys, cursor, |w|); }
    hide Remaining;
    assert ps == ps[..|w|] + ps[|w|..];
  }

  /** Every window of a scan, from a cursor to its end. */
  function Windows(tree: Tree, cursor: Option<Path>, budget: nat): seq<Window>
    requires budget > 0
    decreases |Remaining(tree, cursor)|
  {
    var plan := PlanAt(tree, cursor, budget);
    CoversSplits(tree, cursor, budget);
    if plan.done then [plan] else [plan] + Windows(tree, plan.last, budget)
  }

  function ReadIn(ws: seq<Window>): seq<Path> {
    if ws == [] then [] else ws[0].read + ReadIn(ws[1..])
  }

  function SkippedIn(ws: seq<Window>): nat {
    if ws == [] then 0 else ws[0].skipped + SkippedIn(ws[1..])
  }

  lemma {:induction false} ToReadAppend(tree: Tree, a: seq<Path>, b: seq<Path>)
    requires (forall p :: p in a ==> p in tree) && (forall p :: p in b ==> p in tree)
    ensures ToRead(tree, a + b) == ToRead(tree, a) + ToRead(tree, b)
    decreases |b|
  {
    if b == [] {
      assert a + b == a;
    } else {
      assert (a + b)[..|a + b| - 1] == a + b[..|b| - 1];
      ToReadAppend(tree, a, b[..|b| - 1]);
    }
  }

  /** EACH FILE ONCE. From any cursor, the windows read exactly the remaining files not named
      as binaries, in path order and once each, pass over the rest, and number the remaining
      files over the budget, rounded up; one when nothing remains. */
  lemma {:induction false} ScanReadsEachOnce(tree: Tree, cursor: Option<Path>, budget: nat)
    requires budget > 0
    ensures var ps, ws := Remaining(tree, cursor), Windows(tree, cursor, budget);
      && (forall p :: p in ps ==> p in tree)
      && ReadIn(ws) == ToRead(tree, ps)
      && SkippedIn(ws) + |ReadIn(ws)| == |ps|
      && |ws| == (if ps == [] then 1 else (|ps| + budget - 1) / budget)
    decreases |Remaining(tree, cursor)|
  {
    hide Less, ToRead, Remaining, Covers;
    var ps, w, plan := Remaining(tree, cursor), Covers(tree, cursor, budget), PlanAt(tree, cursor, budget);
    CoversSplits(tree, cursor, budget);
    InTree(tree, cursor);
    if plan.done {
      assert Windows(tree, cursor, budget)[1..] == [];
      OneWindow(|ps|, budget);
    } else {
      ScanReadsEachOnce(tree, plan.last, budget);
      var rest := Windows(tree, plan.last, budget);
      assert Windows(tree, cursor, budget)[1..] == rest;
      ToReadAppend(tree, w, Remaining(tree, plan.last));
      OneWindowLess(|ps|, budget);
    }
  }

  lemma InTree(tree: Tree, cursor: Option<Path>)
    ensures forall p :: p in Remaining(tree, cursor) ==> p in tree
  {
  }

  lemma OneWindow(n: nat, budget: nat)
    requires 0 < budget && n <= budget
    ensures n > 0 ==> (n + budget - 1) / budget == 1
  {
  }

  lemma Quotient(x: int, b: int, q: int, r: int)
    requires b > 0 && x == b * q + r && 0 <= r < b
    ensures x / b == q
  {
    var d := q - x / b;
    assert b * d == x % b - r by {
      assert x == b * (x / b) + x % b;
    }
    MultipleGrows(b, d);
  }

  lemma MultipleGrows(b: int, d: int)
    requires b > 0
    ensures (d > 0 ==> b * d >= b) && (d < 0 ==> b * d <= -b)
  {
  }

  lemma OneWindowLess(n: nat, budget: nat)
    requires 0 < budget < n
    ensures (n + budget - 1) / budget == 1 + (n - budget + budget - 1) / budget
  {
    var m := n - 1;
    Quotient(n + budget - 1, budget, m / budget + 1, m % budget);
  }

  // ---------- runs of calls on one tree ----------

  /** The two things a call changes. */
  datatype State = State(scan: Option<Scan>, rows: seq<Row>)

  /** A call either lands, or its writes stop after n of its rows, or after all of them. */
  datatype Call = Lands | StopsAfter(n: nat)

  function Apply(tree: Tree, budget: nat, s: State, c: Call): State {
    var (scan, before) := Begun(s.scan, s.rows);
    var found := RowsOf(tree, Covers(tree, scan.cursor, budget));
    var kept := Kept(before, scan.cursor, PlanAt(tree, scan.cursor, budget).last);
    match c
    case Lands => State(Some(Next(tree, scan, budget)), kept + found)
    case StopsAfter(n) => State(Some(scan), kept + found[..Least2(n, |found|)])
  }

  function After(tree: Tree, budget: nat, cs: seq<Call>): State {
    if cs == [] then State(None, []) else Apply(tree, budget, After(tree, budget, cs[..|cs| - 1]), cs[|cs| - 1])
  }

  /** The files a scan has dealt with: those at or before its cursor. */
  function Dealt(tree: Tree, s: Scan): seq<Path>
    ensures forall p :: p in Dealt(tree, s) ==> p in tree
  {
    var ps := Remaining(tree, None);
    ps[..|ps| - Left(tree, s)]
  }

  function Left(tree: Tree, s: Scan): (n: nat)
    ensures n <= |Remaining(tree, None)|
  {
    LeftAtMost(tree, s.cursor);
    |Remaining(tree, s.cursor)|
  }

  lemma LeftAtMost(tree: Tree, cursor: Option<Path>)
    ensures |Remaining(tree, cursor)| <= |Remaining(tree, None)|
  {
    SmallerSet(set p | p in tree.Keys && Passed(cursor, p), set p | p in tree.Keys && Passed(None, p));
    AscendingCount(set p | p in tree.Keys && Passed(cursor, p));
    AscendingCount(set p | p in tree.Keys && Passed(None, p));
  }

  lemma AscendingCount(s: set<Path>)
    ensures |Ascending(s)| == |s|
  {
  }

  lemma SmallerSet(a: set<Path>, b: set<Path>)
    requires a <= b
    ensures |a| <= |b|
  {
    assert b == a + (b - a);
  }

  /** What every state of a run on one tree keeps: the totals are those of the files dealt
      with, and the rows are theirs, followed by the first rows of the next window and
      nothing else. */
  ghost predicate Inv(tree: Tree, budget: nat, s: State) {
    s.scan.Some? ==>
      var scan := s.scan.value;
      var done := Dealt(tree, scan);
      && Remaining(tree, None) == done + Remaining(tree, scan.cursor)
      && (scan.cursor.None? ==> done == [])
      && (scan.cursor.Some? ==> done != [] && done[|done| - 1] == scan.cursor.value)
      && scan.scanned == TextsIn(tree, done) && scan.scanned + scan.skipped == |done|
      && scan.found == |RowsOf(tree, done)|
      && RowsOf(tree, done) <= s.rows <= RowsOf(tree, done) + RowsOf(tree, Covers(tree, scan.cursor, budget))
      && (scan.status.Done? ==> Remaining(tree, scan.cursor) == [])
  }

  lemma {:induction false} RowsAppend(tree: Tree, a: seq<Path>, b: seq<Path>)
    requires (forall p :: p in a ==> p in tree) && (forall p :: p in b ==> p in tree)
    ensures RowsOf(tree, a + b) == RowsOf(tree, a) + RowsOf(tree, b)
    ensures TextsIn(tree, a + b) == TextsIn(tree, a) + TextsIn(tree, b)
    decreases |b|
  {
    hide RowsAt;
    if b == [] {
      assert a + b == a;
    } else {
      assert (a + b)[..|a + b| - 1] == a + b[..|b| - 1];
      RowsAppend(tree, a, b[..|b| - 1]);
    }
  }

  lemma {:induction false} KeptAppend(a: seq<Row>, b: seq<Row>, from: Option<Path>, to: Option<Path>)
    ensures Kept(a + b, from, to) == Kept(a, from, to) + Kept(b, from, to)
    decreases |b|
  {
    hide InRange;
    if b == [] {
      assert a + b == a;
    } else {
      assert (a + b)[..|a + b| - 1] == a + b[..|b| - 1];
      KeptAppend(a, b[..|b| - 1], from, to);
    }
  }

  lemma {:induction false} KeptAll(a: seq<Row>, from: Option<Path>, to: Option<Path>)
    requires forall r :: r in a ==> !InRange(r.path, from, to)
    ensures Kept(a, from, to) == a
  {
    hide InRange;
    if a != [] { KeptAll(a[..|a| - 1], from, to); }
  }

  lemma {:induction false} KeptNone(a: seq<Row>, from: Option<Path>, to: Option<Path>)
    requires forall r :: r in a ==> InRange(r.path, from, to)
    ensures Kept(a, from, to) == []
  {
    hide InRange;
    if a != [] { KeptNone(a[..|a| - 1], from, to); }
  }

  lemma {:induction false} RowPaths(tree: Tree, ps: seq<Path>)
    requires forall p :: p in ps ==> p in tree
    ensures forall r :: r in RowsOf(tree, ps) ==> r.path in ps
  {
    if ps != [] {
      RowPaths(tree, ps[..|ps| - 1]);
      assert ps == ps[..|ps| - 1] + [ps[|ps| - 1]];
    }
  }

  // ---------- each call keeps the invariant ----------

  lemma BehindCursor(tree: Tree, scan: Scan, to: Option<Path>, p: Path)
    requires scan.cursor.Some? && p in Dealt(tree, scan)
    requires var done := Dealt(tree, scan); done != [] && done[|done| - 1] == scan.cursor.value
    ensures !InRange(p, scan.cursor, to)
  {
    hide Less, Increasing;
    var all := Remaining(tree, None);
    PrefixIncreasing(all, |all| - Left(tree, scan));
    NothingAfterLast(Dealt(tree, scan), p);
  }

  lemma InWindow(tree: Tree, cursor: Option<Path>, budget: nat, p: Path)
    requires "" !in tree && p in Covers(tree, cursor, budget)
    ensures InRange(p, cursor, PlanAt(tree, cursor, budget).last)
  {
    var w := Covers(tree, cursor, budget);
    hide Increasing, Ascending, ToRead;
    var ps := Remaining(tree, cursor);
    PrefixIncreasing(ps, |w|);
    NothingAfterLast(w, p);
    assert p in ps && p in tree;
  }

  /** The range delete clears what an earlier try of this window left, and nothing else. */
  lemma DeleteClearsTheTry(tree: Tree, budget: nat, scan: Scan, rows: seq<Row>)
    requires "" !in tree && Inv(tree, budget, State(Some(scan), rows))
    ensures Kept(rows, scan.cursor, PlanAt(tree, scan.cursor, budget).last) == RowsOf(tree, Dealt(tree, scan))
  {
    hide Kept, Less, Covers, PlanAt, Dealt, RowsOf, InRange, TextsIn;
    var done, w := Dealt(tree, scan), Covers(tree, scan.cursor, budget);
    var to := PlanAt(tree, scan.cursor, budget).last;
    var sure := RowsOf(tree, done);
    var tried := rows[|sure|..];
    assert rows == sure + tried;
    RowPaths(tree, done);
    RowPaths(tree, w);
    NothingDone(tree);
    forall r | r in sure ensures !InRange(r.path, scan.cursor, to) {
      if scan.cursor.Some? { BehindCursor(tree, scan, to, r.path); }
    }
    forall r | r in tried ensures InRange(r.path, scan.cursor, to) {
      assert r in RowsOf(tree, w) by { TailOfPrefix(sure, rows, RowsOf(tree, w), r); }
      InWindow(tree, scan.cursor, budget, r.path);
    }
    KeptAppend(sure, tried, scan.cursor, to);
    KeptAll(sure, scan.cursor, to);
    KeptNone(tried, scan.cursor, to);
  }

  lemma NothingDone(tree: Tree)
    ensures RowsOf(tree, []) == []
  {
  }

  lemma TailOfPrefix(a: seq<Row>, rows: seq<Row>, b: seq<Row>, r: Row)
    requires a <= rows <= a + b && r in rows[|a|..]
    ensures r in b
  {
    var i :| 0 <= i < |rows[|a|..]| && rows[|a|..][i] == r;
    assert (a + b)[|a| + i] == r;
    assert b[i] == r;
  }

  lemma BegunInv(tree: Tree, budget: nat, s: State)
    requires Inv(tree, budget, s)
    ensures var (scan, before) := Begun(s.scan, s.rows);
      scan.status.Running? && Inv(tree, budget, State(Some(scan), before))
  {
    hide Less, RowsAt, Covers;
    var all := Remaining(tree, None);
    assert all[..|all| - |all|] == [];
  }

  /** The files dealt with after a window are those before it and the window. */
  lemma DealtGrows(tree: Tree, budget: nat, scan: Scan, next: Scan)
    requires budget > 0 && next.cursor == PlanAt(tree, scan.cursor, budget).last
    requires Remaining(tree, None) == Dealt(tree, scan) + Remaining(tree, scan.cursor)
    ensures Dealt(tree, next) == Dealt(tree, scan) + Covers(tree, scan.cursor, budget)
    ensures Remaining(tree, None) == Dealt(tree, next) + Remaining(tree, next.cursor)
  {
    hide Less, Remaining, Covers, PlanAt;
    CoversSplits(tree, scan.cursor, budget);
    var w := Covers(tree, scan.cursor, budget);
    assert Dealt(tree, scan) + w + Remaining(tree, next.cursor) == Remaining(tree, None)
        || (w == [] && next.cursor == scan.cursor) by { if w == [] { EmptyWindow(tree, scan.cursor, budget); } }
    if w == [] { EmptyWindow(tree, scan.cursor, budget); }
  }

  lemma EmptyWindow(tree: Tree, cursor: Option<Path>, budget: nat)
    requires Covers(tree, cursor, budget) == []
    ensures PlanAt(tree, cursor, budget).last == cursor
  {
    hide Less;
  }

  lemma CallKeeps(tree: Tree, budget: nat, s: State, c: Call)
    requires "" !in tree && budget > 0 && Inv(tree, budget, s)
    ensures Inv(tree, budget, Apply(tree, budget, s, c))
  {
    hide Less, Kept, Covers, PlanAt, Dealt, RowsOf, TextsIn, Remaining;
    BegunInv(tree, budget, s);
    var (scan, before) := Begun(s.scan, s.rows);
    DeleteClearsTheTry(tree, budget, scan, before);
    if c.Lands? {
      LandKeeps(tree, budget, scan, before);
    }
  }

  lemma LandKeeps(tree: Tree, budget: nat, scan: Scan, before: seq<Row>)
    requires "" !in tree && budget > 0 && Inv(tree, budget, State(Some(scan), before)) && scan.status.Running?
    ensures Inv(tree, budget, State(Some(Next(tree, scan, budget)),
      RowsOf(tree, Dealt(tree, scan)) + RowsOf(tree, Covers(tree, scan.cursor, budget))))
  {
    hide Less, Kept, Covers, Dealt, RowsOf, TextsIn, Remaining, PlanAt;
    var next, w, done := Next(tree, scan, budget), Covers(tree, scan.cursor, budget), Dealt(tree, scan);
    WindowEnd(tree, scan.cursor, budget);
    DealtGrows(tree, budget, scan, next);
    RowsAppend(tree, done, w);
    assert w != [] ==> (done + w)[|done + w| - 1] == w[|w| - 1];
    assert w == [] ==> done + w == done;
    var rows := RowsOf(tree, done) + RowsOf(tree, w);
    assert rows <= rows + RowsOf(tree, Covers(tree, next.cursor, budget));
  }

  lemma WindowEnd(tree: Tree, cursor: Option<Path>, budget: nat)
    requires budget > 0
    ensures var w, plan := Covers(tree, cursor, budget), PlanAt(tree, cursor, budget);
      && plan.last == (if w == [] then cursor else Some(w[|w| - 1]))
      && (plan.done ==> Remaining(tree, plan.last) == [])
  {
    hide Less, ToRead;
    CoversSplits(tree, cursor, budget);
  }

  lemma {:induction false} RunKeepsInv(tree: Tree, budget: nat, cs: seq<Call>)
    requires "" !in tree && budget > 0
    ensures Inv(tree, budget, After(tree, budget, cs))
    decreases |cs|
  {
    hide Apply;
    if cs != [] {
      RunKeepsInv(tree, budget, cs[..|cs| - 1]);
      CallKeeps(tree, budget, After(tree, budget, cs[..|cs| - 1]), cs[|cs| - 1]);
    }
  }

  /** A FINISHED SCAN IS THE TREE'S. Through any sequence of calls on one tree, whether their
      replies, their last writes or part of their rows were lost, a scan that says it is done
      holds exactly the detections of every file, each once and in order, and its totals are
      the files with a text and the rest. */
  lemma FinishedScanIsExact(tree: Tree, budget: nat, cs: seq<Call>)
    requires "" !in tree && budget > 0
    requires var s := After(tree, budget, cs); s.scan.Some? && s.scan.value.status.Done?
    ensures var s, all := After(tree, budget, cs), Remaining(tree, None);
      && s.rows == RowsOf(tree, all)
      && s.scan.value.scanned == TextsIn(tree, all)
      && s.scan.value.scanned + s.scan.value.skipped == |tree|
      && s.scan.value.found == |s.rows|
  {
    hide After;
    RunKeepsInv(tree, budget, cs);
    DoneIsExact(tree, budget, After(tree, budget, cs));
  }

  lemma DoneIsExact(tree: Tree, budget: nat, s: State)
    requires Inv(tree, budget, s) && s.scan.Some? && s.scan.value.status.Done?
    ensures var scan, all := s.scan.value, Remaining(tree, None);
      s.rows == RowsOf(tree, all) && scan.scanned == TextsIn(tree, all)
      && scan.scanned + scan.skipped == |tree| && scan.found == |s.rows|
  {
    hide Less, RowsOf, TextsIn, Remaining, Dealt, Covers;
    var scan := s.scan.value;
    NothingDone(tree);
    NothingLeft(tree, scan.cursor, budget);
    WholeTree(tree);
    var done := Dealt(tree, scan);
    assert done + [] == done;
    assert s.rows == RowsOf(tree, done) by { assert RowsOf(tree, done) + [] == RowsOf(tree, done); }
  }

  lemma NothingLeft(tree: Tree, cursor: Option<Path>, budget: nat)
    requires Remaining(tree, cursor) == []
    ensures Covers(tree, cursor, budget) == []
  {
  }

  lemma WholeTree(tree: Tree)
    ensures |Remaining(tree, None)| == |tree|
  {
    assert (set p | p in tree.Keys && Passed(None, p)) == tree.Keys;
    AscendingCount(tree.Keys);
  }

  // ---------- where the rows can go wrong ----------

  lemma {:induction false} KeptMembers(rows: seq<Row>, from: Option<Path>, to: Option<Path>)
    ensures forall r :: r in Kept(rows, from, to) <==> r in rows && !InRange(r.path, from, to)
  {
    hide InRange;
    if rows != [] {
      var init, last := rows[..|rows| - 1], rows[|rows| - 1];
      KeptMembers(init, from, to);
      assert forall r :: r in rows <==> r in init || r == last by { assert rows == init + [last]; }
    }
  }

  /** Two calls on one state: the second's range delete comes after the first has inserted k of
      its rows. */
  function Raced(tree: Tree, budget: nat, scan: Scan, rows: seq<Row>, k: nat): seq<Row>
    requires k <= |RowsOf(tree, Covers(tree, scan.cursor, budget))|
  {
    var found, to := RowsOf(tree, Covers(tree, scan.cursor, budget)), PlanAt(tree, scan.cursor, budget).last;
    Kept(Kept(rows, scan.cursor, to) + found[..k], scan.cursor, to) + found[k..] + found
  }

  /** A RACE CAN COUNT TWICE. Two calls that work on the same state leave the rows one call
      would have left if and only if the second's delete comes after the first's last insert;
      otherwise the rows the first inserts later are there twice. */
  lemma RaceHarmlessIff(tree: Tree, budget: nat, scan: Scan, rows: seq<Row>, k: nat)
    requires "" !in tree && k <= |RowsOf(tree, Covers(tree, scan.cursor, budget))|
    ensures var found, to := RowsOf(tree, Covers(tree, scan.cursor, budget)), PlanAt(tree, scan.cursor, budget).last;
      && Raced(tree, budget, scan, rows, k) == Kept(rows, scan.cursor, to) + found[k..] + found
      && (Raced(tree, budget, scan, rows, k) == Kept(rows, scan.cursor, to) + found <==> k == |found|)
  {
    hide Less, Kept, Covers, PlanAt, RowsOf, InRange;
    var w := Covers(tree, scan.cursor, budget);
    var found, to := RowsOf(tree, w), PlanAt(tree, scan.cursor, budget).last;
    var kept := Kept(rows, scan.cursor, to);
    KeptMembers(rows, scan.cursor, to);
    KeptAll(kept, scan.cursor, to);
    RowPaths(tree, w);
    forall r | r in found[..k] ensures InRange(r.path, scan.cursor, to) {
      assert r in found;
      InWindow(tree, scan.cursor, budget, r.path);
    }
    KeptNone(found[..k], scan.cursor, to);
    KeptAppend(kept, found[..k], scan.cursor, to);
    assert kept + [] == kept;
    assert k == |found| ==> kept + found[k..] + found == kept + found;
  }

  /** A row of a file the branch no longer has outlives a call exactly when its path lies
      outside the range the call clears. */
  lemma GoneFileRow(tree: Tree, budget: nat, s: State, r: Row)
    requires r.path !in tree
    ensures var (scan, before) := Begun(s.scan, s.rows);
      r in Apply(tree, budget, s, Lands).rows <==>
        r in before && !InRange(r.path, scan.cursor, PlanAt(tree, scan.cursor, budget).last)
  {
    hide Less, Kept, PlanAt, RowsOf, InRange, Covers, Next;
    var (scan, before) := Begun(s.scan, s.rows);
    KeptMembers(before, scan.cursor, PlanAt(tree, scan.cursor, budget).last);
    RowPaths(tree, Covers(tree, scan.cursor, budget));
  }

  predicate IsLastFile(tree: Tree, q: Path) {
    q in tree && forall p :: p in tree && p != q ==> Less(p, q)
  }

  /** A FINISHED SCAN CAN KEEP A DELETED FILE. When the last write of a call is lost, and the
      last file of the branch is then deleted, the next call finishes the scan and the rows
      of that file stay. */
  lemma DeletedFileKeepsItsRows(tree: Tree, budget: nat, q: Path, i: nat)
    requires |tree| <= budget && "" !in tree && IsLastFile(tree, q) && |tree| > 1
    requires tree[q].Text? && i < |tree[q].hits|
    ensures var s1 := Apply(tree, budget, State(None, []), StopsAfter(|RowsOf(tree, Covers(tree, None, budget))|));
      var s2 := Apply(tree - {q}, budget, s1, Lands);
      && s2.scan.Some? && s2.scan.value.status.Done? && q !in tree - {q}
      && Row(q, tree[q].hits[i]) in s2.rows
  {
    hide Less, Kept, RowsOf, Covers, PlanAt;
    var found := RowsOf(tree, Covers(tree, None, budget));
    var s1 := Apply(tree, budget, State(None, []), StopsAfter(|found|));
    var rest := tree - {q};
    OnlyWindow(tree, budget);
    OnlyWindow(rest, budget) by { SmallerSet(rest.Keys, tree.Keys); }
    assert q in Remaining(tree, None);
    RowsThere(tree, Remaining(tree, None), q, i);
    NoRowsKept(None, PlanAt(tree, None, budget).last);
    assert found[..|found|] == found && s1 == State(Some(FRESH), [] + found);
    GoneFileRow(rest, budget, s1, Row(q, tree[q].hits[i]));
    LastOfRest(tree, q, budget);
  }

  lemma NoRowsKept(from: Option<Path>, to: Option<Path>)
    ensures Kept([], from, to) == []
  {
  }

  lemma OnlyWindow(tree: Tree, budget: nat)
    requires |tree| <= budget
    ensures Covers(tree, None, budget) == Remaining(tree, None) && PlanAt(tree, None, budget).done
  {
    hide ToRead;
    WholeTree(tree);
    assert Remaining(tree, None)[..|tree|] == Remaining(tree, None);
  }

  lemma {:induction false} RowsThere(tree: Tree, ps: seq<Path>, q: Path, i: nat)
    requires (forall p :: p in ps ==> p in tree) && q in ps && tree[q].Text? && i < |tree[q].hits|
    ensures Row(q, tree[q].hits[i]) in RowsOf(tree, ps)
  {
    var init, last := ps[..|ps| - 1], ps[|ps| - 1];
    if last == q {
      assert RowsAt(q, tree[q])[i] == Row(q, tree[q].hits[i]);
    } else {
      assert q in init by { assert ps == init + [last]; }
      RowsThere(tree, init, q, i);
    }
  }

  lemma LastOfRest(tree: Tree, q: Path, budget: nat)
    requires IsLastFile(tree, q) && "" !in tree && 1 < |tree| <= budget
    ensures !InRange(q, None, PlanAt(tree - {q}, None, budget).last)
  {
    hide ToRead, Covers;
    var rest := tree - {q};
    OnlyWindow(rest, budget) by { SmallerSet(rest.Keys, tree.Keys); }
    WholeTree(rest);
    assert rest.Keys == tree.Keys - {q};
    var ps := Remaining(rest, None);
    assert ps[|ps| - 1] in ps;
  }
}
