/** The baseline scan (src/lib/policy-baseline.ts, src/lib/policy-store.ts). */
module BaselineScan {
  // A budgeted walk of every file of the branch that records what the detectors find.

  import opened Options
  import opened Paths

  const BASELINE_FILE_BUDGET: nat := 300
  const BASELINE_BATCH: nat := 40

  /** What the detectors say of a text. */
  datatype Hit = Hit(kind: string, severity: string, from: nat, to: nat)

  /** A file is a text with its hits, or is passed over: by its name, or because it comes back
      with no text. */
  datatype File = Text(hits: seq<Hit>) | Named | NoText

  type Tree = map<Path, File>

  datatype Row = Row(path: Path, hit: Hit)

  datatype Status = Running | Done

  datatype Scan = Scan(status: Status, cursor: Option<Path>, scanned: nat, skipped: nat, found: nat)

  const FRESH: Scan := Scan(Running, None, 0, 0, 0)

  // ---------- one window ----------

  datatype Window = Window(read: seq<Path>, skipped: nat, last: Option<Path>, done: bool)

  function Remaining(tree: Tree, cursor: Option<Path>): seq<Path> {
    Beyond(tree.Keys, cursor)
  }

  function Least2(a: nat, b: nat): nat {
    if a < b then a else b
  }

  /** The paths a call covers. */
  function Covers(tree: Tree, cursor: Option<Path>, budget: nat): (w: seq<Path>)
    ensures forall p :: p in w ==> p in tree
  {
    var ps := Remaining(tree, cursor);
    ps[..Least2(budget, |ps|)]
  }

  function ToRead(tree: Tree, ps: seq<Path>): seq<Path>
    requires forall p :: p in ps ==> p in tree
  {
    if ps == [] then []
    else ToRead(tree, ps[..|ps| - 1]) + (if tree[ps[|ps| - 1]].Named? then [] else [ps[|ps| - 1]])
  }

  /** planBaselineStep. */
  function PlanAt(tree: Tree, cursor: Option<Path>, budget: nat): Window {
    var ps, w := Remaining(tree, cursor), Covers(tree, cursor, budget);
    var read := ToRead(tree, w);
    ReadsNoMore(tree, w);
    Window(read, |w| - |read|, if w == [] then cursor else Some(w[|w| - 1]), |ps| <= budget)
  }

  lemma {:induction false} ReadsNoMore(tree: Tree, ps: seq<Path>)
    requires forall p :: p in ps ==> p in tree
    ensures |ToRead(tree, ps)| <= |ps|
    ensures forall p :: p in ToRead(tree, ps) ==> p in tree
  {
    if ps != [] { ReadsNoMore(tree, ps[..|ps| - 1]); }
  }

  // ---------- rows ----------

  function RowsAt(p: Path, f: File): seq<Row> {
    if f.Text? then seq(|f.hits|, i requires 0 <= i < |f.hits| => Row(p, f.hits[i])) else []
  }

  /** Every detection in the files at these paths, in order. */
  function RowsOf(tree: Tree, ps: seq<Path>): seq<Row>
    requires forall p :: p in ps ==> p in tree
  {
    if ps == [] then [] else RowsOf(tree, ps[..|ps| - 1]) + RowsAt(ps[|ps| - 1], tree[ps[|ps| - 1]])
  }

  function TextsIn(tree: Tree, ps: seq<Path>): (n: nat)
    requires forall p :: p in ps ==> p in tree
    ensures n <= |ps|
  {
    if ps == [] then 0 else TextsIn(tree, ps[..|ps| - 1]) + (if tree[ps[|ps| - 1]].Text? then 1 else 0)
  }

  /** The rows the range delete clears: past `from`, up to `to`. An absent bound is the empty
      text. */
  predicate InRange(p: Path, from: Option<Path>, to: Option<Path>) {
    Less(if from.Some? then from.value else "", p) && !Less(if to.Some? then to.value else "", p)
  }

  function Kept(rows: seq<Row>, from: Option<Path>, to: Option<Path>): seq<Row> {
    if rows == [] then []
    else Kept(rows[..|rows| - 1], from, to) + (if InRange(rows[|rows| - 1].path, from, to) then [] else [rows[|rows| - 1]])
  }

  /** The scan and the rows a call works on: a finished scan, or none, is replaced. */
  function Begun(scan: Option<Scan>, rows: seq<Row>): (Scan, seq<Row>) {
    if scan.Some? && scan.value.status.Running? then (scan.value, rows) else (FRESH, [])
  }

  /** The scan after a call whose every write landed. */
  function Next(tree: Tree, s: Scan, budget: nat): Scan {
    var w, plan := Covers(tree, s.cursor, budget), PlanAt(tree, s.cursor, budget);
    Scan(if plan.done then Done else Running, plan.last,
      s.scanned + TextsIn(tree, w), s.skipped + |w| - TextsIn(tree, w), s.found + |RowsOf(tree, w)|)
  }

  // ---------- the call ----------

  class BaselineTable {
    var scan: Option<Scan>
    var rows: seq<Row>

    constructor ()
      ensures scan == None && rows == []
    {
      scan, rows := None, [];
    }

    /** saveBaselineStep's range delete. */
    method DeleteRange(from: Option<Path>, to: Option<Path>)
      modifies this`rows
      ensures rows == Kept(old(rows), from, to)
    {
      var kept: seq<Row> := [];
      for i := 0 to |rows|
        invariant rows == old(rows) && kept == Kept(rows[..i], from, to)
      {
        assert rows[..i + 1][..i] == rows[..i];
        if !InRange(rows[i].path, from, to) {
          kept := kept + [rows[i]];
        }
      }
      assert rows[..|rows|] == rows;
      rows := kept;
    }

    /** Forty rows a transaction; the write at `fail` does not land. */
    method Insert(found: seq<Row>, fail: Option<nat>) returns (ok: bool)
      modifies this`rows
      ensures ok <==> fail.None? || BASELINE_BATCH * fail.value >= |found|
      ensures rows == old(rows) + (if ok then found else found[..BASELINE_BATCH * fail.value])
    {
      for i := 0 to |found|
        invariant rows == old(rows) + found[..i]
        invariant fail.Some? ==> BASELINE_BATCH * fail.value >= i
      {
        if fail.Some? && BASELINE_BATCH * fail.value == i {
          return false;
        }
        rows := rows + [found[i]];
      }
      assert found[..|found|] == found;
      return true;
    }

    /** advanceBaseline. When a write fails, or the last one is lost, the cursor and the totals
        stay where they were. */
    method Advance(tree: Tree, fail: Option<nat>, lost: bool) returns (ok: bool)
      modifies this
      ensures var (s, before) := Begun(old(scan), old(rows));
        var found := RowsOf(tree, Covers(tree, s.cursor, BASELINE_FILE_BUDGET));
        var kept := Kept(before, s.cursor, PlanAt(tree, s.cursor, BASELINE_FILE_BUDGET).last);
        if fail.Some? && BASELINE_BATCH * fail.value < |found| then
          !ok && scan == Some(s) && rows == kept + found[..BASELINE_BATCH * fail.value]
        else
          ok == !lost && rows == kept + found && scan == Some(if ok then Next(tree, s, BASELINE_FILE_BUDGET) else s)
    {
      hide RowsOf, TextsIn, ToRead, Kept, Remaining, Less, Covers;
      if !(scan.Some? && scan.value.status.Running?) {
        rows := [];
        scan := Some(FRESH);
      }
      var s := scan.value;
      var w := Covers(tree, s.cursor, BASELINE_FILE_BUDGET);
      var plan := PlanAt(tree, s.cursor, BASELINE_FILE_BUDGET);
      var found, pages := Detect(tree, plan.read, w);
      hide PlanAt;
      DeleteRange(s.cursor, plan.last);
      ok := Insert(found, fail);
      if ok && !lost {
        scan := Some(Scan(if plan.done then Done else Running, plan.last, s.scanned + pages,
          s.skipped + plan.skipped + |plan.read| - pages, s.found + |found|));
      }
      ok := ok && !lost;
    }
  }

  /** Reading the window: a path not named a binary may still come back with no text. */
  method Detect(tree: Tree, read: seq<Path>, ghost w: seq<Path>) returns (found: seq<Row>, pages: nat)
    requires forall p :: p in w ==> p in tree
    requires read == ToRead(tree, w)
    ensures found == RowsOf(tree, w) && pages == TextsIn(tree, w)
    ensures pages <= |read|
  {
    ReadsNoMore(tree, w);
    found, pages := [], 0;
    for i := 0 to |read|
      invariant found == RowsOf(tree, read[..i]) && pages == TextsIn(tree, read[..i])
    {
      assert read[..i + 1][..i] == read[..i];
      found := found + RowsAt(read[i], tree[read[i]]);
      if tree[read[i]].Text? { pages := pages + 1; }
    }
    assert read[..|read|] == read;
    NamedHaveNoRows(tree, w);
  }

  lemma {:induction false} NamedHaveNoRows(tree: Tree, ps: seq<Path>)
    requires forall p :: p in ps ==> p in tree
    ensures forall p :: p in ToRead(tree, ps) ==> p in tree
    ensures RowsOf(tree, ToRead(tree, ps)) == RowsOf(tree, ps)
    ensures TextsIn(tree, ToRead(tree, ps)) == TextsIn(tree, ps)
  {
    ReadsNoMore(tree, ps);
    hide RowsAt;
    if ps != [] {
      var init, p := ps[..|ps| - 1], ps[|ps| - 1];
      NamedHaveNoRows(tree, init);
      ReadsNoMore(tree, init);
      if tree[p].Named? {
        NoRowsIn(p, tree[p]);
        assert ToRead(tree, ps) == ToRead(tree, init);
      } else {
        assert ToRead(tree, ps) == ToRead(tree, init) + [p];
        OneMoreFile(tree, ToRead(tree, init), p);
      }
    }
  }

  lemma NoRowsIn(p: Path, f: File)
    requires f.Named?
    ensures RowsAt(p, f) == []
  {
  }

  lemma OneMoreFile(tree: Tree, ps: seq<Path>, p: Path)
    requires (forall q :: q in ps ==> q in tree) && p in tree
    ensures RowsOf(tree, ps + [p]) == RowsOf(tree, ps) + RowsAt(p, tree[p])
    ensures TextsIn(tree, ps + [p]) == TextsIn(tree, ps) + (if tree[p].Text? then 1 else 0)
  {
    hide RowsAt;
    assert (ps + [p])[..|ps|] == ps;
  }
}
