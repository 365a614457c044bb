/** One call of the consolidation pass (ee/review/consolidation.ts, advanceConsolidation). */
module ConsolidationPass {
  // Over the run row and the memory of src/lib/brain-pass.ts.

  import opened Options
  import opened Paths
  import opened ConsolidationPlan

  const PAIRS_PER_STEP: nat := 48
  const CONCURRENCY: nat := 6
  const MAX_DUP_PAGES: nat := 2000
  const ITEM_BATCH: nat := 40

  /** What the step reads of the index: the pages and the pages they name, their blob shas,
      the version of the check, and the pairs whose texts are never sent. */
  datatype Index = Index(brain: Brain, shas: map<Path, string>, version: string, held: set<Pair>)

  /** Everything a check of a pair depends on. */
  datatype Print = Print(version: string, a: string, b: string)

  type Memory = map<string, Print>

  /** What the models do with a pair. A refused gateway stops the pass. */
  datatype Answer = Screened | Triaged(findings: nat) | Unavailable | Refused

  /** What the step meets: the models' answers, and the clock before each batch. */
  datatype Env = Env(answers: Pair -> Answer, timeUp: nat -> bool)

  datatype Status = Running | Stopped | Done

  datatype Counts = Counts(checked: nat, skipped: nat, screened: nat, same: nat, findings: nat)

  datatype Run = Run(id: nat, status: Status, cursor: Option<Path>, full: bool, counts: Counts)

  /** A pair checked, at the print it had. */
  datatype Check = Check(pair: Pair, seen: Print)

  function ItemOf(pair: Pair): string {
    pair.a + "|" + pair.b
  }

  function PrintOf(x: Index, pair: Pair): Option<Print> {
    if pair.a in x.shas && pair.b in x.shas then Some(Print(x.version, x.shas[pair.a], x.shas[pair.b])) else None
  }

  predicate Unchanged(x: Index, known: Memory, pair: Pair) {
    PrintOf(x, pair).Some? && ItemOf(pair) in known && known[ItemOf(pair)] == PrintOf(x, pair).value
  }

  function Costs(x: Index, known: Memory): Pair -> bool {
    (pair: Pair) => !Unchanged(x, known, pair)
  }

  /** continuePass. */
  function Continue(row: Option<Run>, full: bool, id: nat): Run {
    if !full && row.Some? && !row.value.status.Done? then row.value.(status := Running)
    else Run(id, Running, None, full, Counts(0, 0, 0, 0, 0))
  }

  /** A full pass ignores what earlier passes checked. */
  function Known(run: Run, items: Memory): Memory {
    if run.full then map[] else items
  }

  function PlanFor(x: Index, run: Run, known: Memory): StepPlan {
    PlanAt(x.brain, run.cursor, PAIRS_PER_STEP, Costs(x, known))
  }

  datatype Result = Kept | Skipped | Cleared | Read(findings: nat) | Cut

  function ResultOf(x: Index, known: Memory, env: Env, pair: Pair): Result {
    if Unchanged(x, known, pair) then Kept
    else if pair in x.held then Skipped
    else
      match env.answers(pair)
      case Screened => Cleared
      case Triaged(n) => Read(n)
      case Unavailable => Skipped
      case Refused => Cut
  }

  /** The first of the pairs from i on, before n, that a refused gateway cut; n when none. */
  function FirstCut(x: Index, known: Memory, env: Env, ps: seq<Owned>, i: nat, n: nat): (m: nat)
    requires i <= n <= |ps|
    ensures i <= m <= n
    ensures forall j :: i <= j < m ==> !ResultOf(x, known, env, ps[j].pair).Cut?
    ensures m < n ==> ResultOf(x, known, env, ps[m].pair).Cut?
    decreases n - i
  {
    if i == n || ResultOf(x, known, env, ps[i].pair).Cut? then i else FirstCut(x, known, env, ps, i + 1, n)
  }

  function BatchEnd(i: nat, n: nat): nat {
    if i + CONCURRENCY < n then i + CONCURRENCY else n
  }

  /** How many pairs have been started when the loop ends: all, those before the batch the
      clock stopped, or those up to the end of the batch a refusal came in. */
  function Started(x: Index, known: Memory, env: Env, ps: seq<Owned>, i: nat): (e: nat)
    requires i <= |ps|
    ensures i <= e <= |ps|
    decreases |ps| - i
  {
    if i == |ps| || (i > 0 && env.timeUp(i)) then i
    else
      var j := BatchEnd(i, |ps|);
      if FirstCut(x, known, env, ps, i, j) < j then j else Started(x, known, env, ps, j)
  }

  function Count1(c: Counts, r: Result): Counts {
    match r
    case Kept => c.(same := c.same + 1)
    case Skipped => c.(skipped := c.skipped + 1)
    case Cleared => c.(checked := c.checked + 1, screened := c.screened + 1)
    case Read(n) => c.(checked := c.checked + 1, findings := c.findings + n)
    case Cut => c
  }

  function Counted(x: Index, known: Memory, env: Env, ps: seq<Owned>, c: Counts): Counts {
    if ps == [] then c
    else Count1(Counted(x, known, env, ps[..|ps| - 1], c), ResultOf(x, known, env, ps[|ps| - 1].pair))
  }

  /** The checks worth remembering among the started pairs. */
  function ChecksOf(x: Index, known: Memory, env: Env, ps: seq<Owned>): seq<Check> {
    if ps == [] then []
    else
      var pair := ps[|ps| - 1].pair;
      var r := ResultOf(x, known, env, pair);
      ChecksOf(x, known, env, ps[..|ps| - 1])
      + (if (r.Cleared? || r.Read?) && PrintOf(x, pair).Some? then [Check(pair, PrintOf(x, pair).value)] else [])
  }

  function Saved(items: Memory, cs: seq<Check>): Memory {
    if cs == [] then items
    else Saved(items, cs[..|cs| - 1])[ItemOf(cs[|cs| - 1].pair) := cs[|cs| - 1].seen]
  }

  /** Past every source that ends before the first pair left open. */
  function CursorBefore(ps: seq<Owned>, n: nat, open: Path, cursor: Option<Path>): Option<Path>
    requires n <= |ps|
  {
    if n == 0 then cursor
    else if ps[n - 1].source != open then Some(ps[n - 1].source)
    else CursorBefore(ps, n - 1, open, cursor)
  }

  /** The pairs a step starts. */
  function StartedPairs(x: Index, run: Run, known: Memory, env: Env): seq<Owned> {
    var ps := PlanFor(x, run, known).pairs;
    ps[..Started(x, known, env, ps, 0)]
  }

  function Stepped(x: Index, run: Run, known: Memory, env: Env): Run {
    var plan := PlanFor(x, run, known);
    var e := Started(x, known, env, plan.pairs, 0);
    var open := FirstCut(x, known, env, plan.pairs, 0, e);
    var counted := run.(counts := Counted(x, known, env, plan.pairs[..e], run.counts));
    if open < |plan.pairs| then
      counted.(cursor := CursorBefore(plan.pairs, open, plan.pairs[open].source, run.cursor),
               status := if open < e then Stopped else Running)
    else counted.(cursor := plan.last, status := if plan.done then Done else Running)
  }

  /** One call, when everything it writes lands: the row and the memory after it. */
  function Advanced(x: Index, row: Option<Run>, items: Memory, full: bool, id: nat, env: Env): (Run, Memory) {
    var run := Continue(row, full, id);
    if |x.brain.pages| > MAX_DUP_PAGES then (run.(status := Stopped), items)
    else
      var known := Known(run, items);
      (Stepped(x, run, known, env), Saved(items, ChecksOf(x, known, env, StartedPairs(x, run, known, env))))
  }

  /** What a call leaves of the memory when only its first n transactions of forty land. */
  predicate HalfSaved(x: Index, row: Option<Run>, items: Memory, full: bool, id: nat, env: Env, n: nat, after: Memory) {
    var run := Continue(row, full, id);
    var checks := ChecksOf(x, Known(run, items), env, StartedPairs(x, run, Known(run, items), env));
    ITEM_BATCH * n < |checks| && after == Saved(items, checks[..ITEM_BATCH * n])
  }

  // ---------- the rows and the call ----------

  class PassRows {
    var row: Option<Run>
    var items: Memory

    constructor ()
      ensures row == None && items == map[]
    {
      row, items := None, map[];
    }

    /** savePassItems, forty rows a transaction; the batch at `fail` does not land. */
    method SavePassItems(checks: seq<Check>, fail: Option<nat>) returns (ok: bool)
      modifies this`items
      ensures ok <==> fail.None? || ITEM_BATCH * fail.value >= |checks|
      ensures items == Saved(old(items), if ok then checks else checks[..ITEM_BATCH * fail.value])
    {
      var n := 0;
      assert checks[..0] == [];
      for i := 0 to |checks|
        invariant items == Saved(old(items), checks[..i])
        invariant fail.Some? ==> ITEM_BATCH * fail.value >= i
      {
        if fail.Some? && ITEM_BATCH * fail.value == i {
          return false;
        }
        assert checks[..i + 1][..i] == checks[..i];
        items := items[ItemOf(checks[i].pair) := checks[i].seen];
      }
      assert checks[..|checks|] == checks;
      return true;
    }

    /** advanceConsolidation. A call whose memory write fails leaves the run row alone. */
    method Advance(x: Index, full: bool, id: nat, env: Env, fail: Option<nat>) returns (ok: bool)
      modifies this
      ensures fail.None? ==> ok
      ensures ok ==> row == Some(Advanced(x, old(row), old(items), full, id, env).0)
      ensures ok ==> items == Advanced(x, old(row), old(items), full, id, env).1
      ensures !ok ==> row == old(row) && fail.Some? && HalfSaved(x, row, old(items), full, id, env, fail.value, items)
    {
      hide Counted, ChecksOf, Saved, PlanAt, Costs, FirstCut, Started, CursorBefore;
      var run := Continue(row, full, id);
      if |x.brain.pages| > MAX_DUP_PAGES {
        row := Some(run.(status := Stopped));
        return true;
      }
      var known := if run.full then map[] else items;
      var plan := PlanStep(x.brain, run.cursor, PAIRS_PER_STEP, Costs(x, known));
      var counts, checks, open, e := RunBatches(x, known, env, plan.pairs, run.counts);
      ok := SavePassItems(checks, fail);
      if !ok {
        return;
      }
      run := run.(counts := counts);
      if open < |plan.pairs| {
        var cursor := CursorOf(plan.pairs, open, run.cursor);
        run := run.(cursor := cursor, status := if open < e then Stopped else Running);
      } else {
        run := run.(cursor := plan.last, status := if plan.done then Done else Running);
      }
      row := Some(run);
    }
  }

  /** The batches of a step: a batch starts unless a refusal or the clock came first. */
  method RunBatches(x: Index, known: Memory, env: Env, ps: seq<Owned>, c: Counts)
    returns (counts: Counts, checks: seq<Check>, open: nat, e: nat)
    ensures e == Started(x, known, env, ps, 0)
    ensures open == FirstCut(x, known, env, ps, 0, e)
    ensures counts == Counted(x, known, env, ps[..e], c)
    ensures checks == ChecksOf(x, known, env, ps[..e])
  {
    counts, checks, e := c, [], 0;
    var refused: Option<nat> := None;
    assert ps[..0] == [];
    while e < |ps| && refused.None?
      invariant e <= |ps|
      invariant counts == Counted(x, known, env, ps[..e], c) && checks == ChecksOf(x, known, env, ps[..e])
      invariant refused.None? ==> FirstCut(x, known, env, ps, 0, e) == e
      invariant refused.None? ==> Started(x, known, env, ps, 0) == Started(x, known, env, ps, e)
      invariant refused.Some? ==> e == Started(x, known, env, ps, 0)
      invariant refused.Some? ==> refused.value == FirstCut(x, known, env, ps, 0, e) < e
      decreases |ps| - e, refused.None?
    {
      if e > 0 && env.timeUp(e) {
        break;
      }
      var j := BatchEnd(e, |ps|);
      counts, checks, refused := RunBatch(x, known, env, ps, e, j, c, counts, checks);
      if refused.None? {
        CutNowhere(x, known, env, ps, j);
      } else {
        CutThere(x, known, env, ps, refused.value, j);
      }
      e := j;
    }
    open := if refused.Some? then refused.value else e;
  }

  method RunBatch(x: Index, known: Memory, env: Env, ps: seq<Owned>, i: nat, j: nat,
                  ghost c: Counts, counts0: Counts, checks0: seq<Check>)
    returns (counts: Counts, checks: seq<Check>, refused: Option<nat>)
    requires i <= j <= |ps| && FirstCut(x, known, env, ps, 0, i) == i
    requires counts0 == Counted(x, known, env, ps[..i], c) && checks0 == ChecksOf(x, known, env, ps[..i])
    ensures counts == Counted(x, known, env, ps[..j], c) && checks == ChecksOf(x, known, env, ps[..j])
    ensures refused.None? ==> forall m :: 0 <= m < j ==> !ResultOf(x, known, env, ps[m].pair).Cut?
    ensures refused.Some? ==> i <= refused.value < j && ResultOf(x, known, env, ps[refused.value].pair).Cut?
    ensures refused.Some? ==> forall m :: 0 <= m < refused.value ==> !ResultOf(x, known, env, ps[m].pair).Cut?
  {
    hide Unchanged, PrintOf, ItemOf, ResultOf, Counted, ChecksOf;
    counts, checks, refused := counts0, checks0, None;
    for k := i to j
      invariant counts == Counted(x, known, env, ps[..k], c) && checks == ChecksOf(x, known, env, ps[..k])
      invariant refused.None? ==> forall m :: 0 <= m < k ==> !ResultOf(x, known, env, ps[m].pair).Cut?
      invariant refused.Some? ==> i <= refused.value < k && ResultOf(x, known, env, ps[refused.value].pair).Cut?
      invariant refused.Some? ==> forall m :: 0 <= m < refused.value ==> !ResultOf(x, known, env, ps[m].pair).Cut?
    {
      var pair := ps[k].pair;
      var r := ResultOf(x, known, env, pair);
      OneMore(x, known, env, ps, k, c);
      counts := Count1(counts, r);
      if (r.Cleared? || r.Read?) && PrintOf(x, pair).Some? {
        checks := checks + [Check(pair, PrintOf(x, pair).value)];
      }
      if r.Cut? && refused.None? {
        refused := Some(k);
      }
    }
  }

  lemma OneMore(x: Index, known: Memory, env: Env, ps: seq<Owned>, k: nat, c: Counts)
    requires k < |ps|
    ensures var pair, r := ps[k].pair, ResultOf(x, known, env, ps[k].pair);
      && Counted(x, known, env, ps[..k + 1], c) == Count1(Counted(x, known, env, ps[..k], c), r)
      && ChecksOf(x, known, env, ps[..k + 1]) == ChecksOf(x, known, env, ps[..k])
           + (if (r.Cleared? || r.Read?) && PrintOf(x, pair).Some? then [Check(pair, PrintOf(x, pair).value)] else [])
  {
    hide Unchanged, PrintOf, ResultOf;
    assert ps[..k + 1][..k] == ps[..k];
  }

  /** The walk back from the first open pair to the last source that is not its own. */
  method CursorOf(ps: seq<Owned>, open: nat, cursor: Option<Path>) returns (c: Option<Path>)
    requires open < |ps|
    ensures c == CursorBefore(ps, open, ps[open].source, cursor)
  {
    var i: nat := open;
    while i > 0 && ps[i - 1].source == ps[open].source
      invariant 0 <= i <= open
      invariant CursorBefore(ps, open, ps[open].source, cursor) == CursorBefore(ps, i, ps[open].source, cursor)
    {
      i := i - 1;
    }
    c := if i > 0 then Some(ps[i - 1].source) else cursor;
  }

  lemma CutNowhere(x: Index, known: Memory, env: Env, ps: seq<Owned>, n: nat)
    requires n <= |ps| && forall m :: 0 <= m < n ==> !ResultOf(x, known, env, ps[m].pair).Cut?
    ensures forall i :: 0 <= i <= n ==> FirstCut(x, known, env, ps, i, n) == n
  {
  }

  lemma CutThere(x: Index, known: Memory, env: Env, ps: seq<Owned>, c: nat, n: nat)
    requires c < n <= |ps| && ResultOf(x, known, env, ps[c].pair).Cut?
    requires forall m :: 0 <= m < c ==> !ResultOf(x, known, env, ps[m].pair).Cut?
    ensures forall i :: 0 <= i <= c ==> FirstCut(x, known, env, ps, i, n) == c
  {
  }
}
