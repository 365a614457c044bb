/** Which pairs of pages one consolidation step takes (ee/review/consolidation.ts, planStep). */
module ConsolidationPlan {
  import opened Options
  import opened Paths

  /** The content pages, and for each page the pages it names: the best search hits on its
      title, and its near-duplicate and same-identifier partners. */
  datatype Brain = Brain(pages: set<Path>, names: map<Path, set<Path>>)

  datatype Pair = Pair(a: Path, b: Path)
  datatype Owned = Owned(source: Path, pair: Pair)

  /** The pairs of a window, the last source it covers, and whether no source is left. */
  datatype StepPlan = StepPlan(pairs: seq<Owned>, last: Option<Path>, done: bool)

  function NamedBy(b: Brain, p: Path): set<Path> {
    if p in b.names then b.names[p] else {}
  }

  function Sorted(x: Path, y: Path): Pair {
    if Less(x, y) then Pair(x, y) else Pair(y, x)
  }

  /** The partners whose pair with p is p's to check. */
  function OwnPartners(b: Brain, p: Path): set<Path> {
    set o | o in NamedBy(b, p) && o != p && (Less(p, o) || p !in NamedBy(b, o))
  }

  function Own(b: Brain, p: Path): seq<Owned> {
    var os := Ascending(OwnPartners(b, p));
    seq(|os|, i requires 0 <= i < |os| => Owned(p, Sorted(p, os[i])))
  }

  /** The sources still to take, in path order. */
  function Remaining(b: Brain, cursor: Option<Path>): seq<Path> {
    Beyond(b.pages, cursor)
  }

  function PairsOf(b: Brain, ps: seq<Path>): seq<Owned> {
    if ps == [] then [] else PairsOf(b, ps[..|ps| - 1]) + Own(b, ps[|ps| - 1])
  }

  function Cost(os: seq<Owned>, costs: Pair -> bool): nat {
    if os == [] then 0 else Cost(os[..|os| - 1], costs) + (if costs(os[|os| - 1].pair) then 1 else 0)
  }

  /** The window ends before source j: something is to be paid already, and j would go over. */
  predicate Stops(b: Brain, ps: seq<Path>, budget: nat, costs: Pair -> bool, j: nat)
    requires j < |ps|
  {
    Cost(PairsOf(b, ps[..j]), costs) > 0 && Cost(PairsOf(b, ps[..j + 1]), costs) > budget
  }

  function Window(b: Brain, ps: seq<Path>, budget: nat, costs: Pair -> bool, j: nat): (k: nat)
    requires j <= |ps|
    ensures j <= k <= |ps|
    ensures forall m :: j <= m < k ==> !Stops(b, ps, budget, costs, m)
    ensures k < |ps| ==> Stops(b, ps, budget, costs, k)
    decreases |ps| - j
  {
    if j == |ps| || Stops(b, ps, budget, costs, j) then j else Window(b, ps, budget, costs, j + 1)
  }

  function PlanAt(b: Brain, cursor: Option<Path>, budget: nat, costs: Pair -> bool): StepPlan {
    var ps := Remaining(b, cursor);
    var k := Window(b, ps, budget, costs, 0);
    StepPlan(PairsOf(b, ps[..k]), if k == 0 then cursor else Some(ps[k - 1]), k == |ps|)
  }

  // ---------- the loop ----------

  method PlanStep(b: Brain, cursor: Option<Path>, budget: nat, costs: Pair -> bool) returns (plan: StepPlan)
    ensures plan == PlanAt(b, cursor, budget, costs)
  {
    hide Less, Own, Remaining;
    var remaining := Remaining(b, cursor);
    var pairs: seq<Owned> := [];
    var last := cursor;
    assert PairsOf(b, remaining[..0]) == [];
    hide PairsOf, Cost, OwnPartners, Passed;
    for i := 0 to |remaining|
      invariant pairs == PairsOf(b, remaining[..i])
      invariant last == if i == 0 then cursor else Some(remaining[i - 1])
      invariant Window(b, remaining, budget, costs, 0) == Window(b, remaining, budget, costs, i)
    {
      var own := OwnSorted(b, remaining[i]);
      var spent := CountCosts(pairs, costs);
      var more := CountCosts(own, costs);
      PairsOfLast(b, remaining, i);
      CostAppend(pairs, own, costs);
      if spent > 0 && spent + more > budget {
        return StepPlan(pairs, last, false);
      }
      pairs := pairs + own;
      last := Some(remaining[i]);
    }
    assert remaining[..|remaining|] == remaining;
    return StepPlan(pairs, last, true);
  }

  method CountCosts(os: seq<Owned>, costs: Pair -> bool) returns (n: nat)
    ensures n == Cost(os, costs)
  {
    n := 0;
    for i := 0 to |os|
      invariant n == Cost(os[..i], costs)
    {
      assert os[..i + 1][..i] == os[..i];
      if costs(os[i].pair) { n := n + 1; }
    }
    assert os[..|os|] == os;
  }

  method OwnSorted(b: Brain, p: Path) returns (own: seq<Owned>)
    ensures own == Own(b, p)
  {
    hide Less;
    var os := Ascending(OwnPartners(b, p));
    own := [];
    for i := 0 to |os|
      invariant |own| == i && forall j :: 0 <= j < i ==> own[j] == Own(b, p)[j]
    {
      own := own + [Owned(p, Sorted(p, os[i]))];
    }
  }

  // ---------- counting ----------

  lemma {:induction false} CostAppend(a: seq<Owned>, c: seq<Owned>, costs: Pair -> bool)
    ensures Cost(a + c, costs) == Cost(a, costs) + Cost(c, costs)
    decreases |c|
  {
    if c == [] {
      assert a + c == a;
    } else {
      assert (a + c)[..|a + c| - 1] == a + c[..|c| - 1];
      CostAppend(a, c[..|c| - 1], costs);
    }
  }

  lemma PairsOfLast(b: Brain, ps: seq<Path>, i: nat)
    requires i < |ps|
    ensures PairsOf(b, ps[..i + 1]) == PairsOf(b, ps[..i]) + Own(b, ps[i])
  {
    assert ps[..i + 1][..i] == ps[..i];
  }

  lemma {:induction false} PairsOfAppend(b: Brain, ps: seq<Path>, qs: seq<Path>)
    ensures PairsOf(b, ps + qs) == PairsOf(b, ps) + PairsOf(b, qs)
    decreases |qs|
  {
    hide Own;
    if qs == [] {
      assert ps + qs == ps;
    } else {
      assert (ps + qs)[..|ps + qs| - 1] == ps + qs[..|qs| - 1];
      PairsOfAppend(b, ps, qs[..|qs| - 1]);
    }
  }

  // ---------- ownership ----------

  lemma OwnMembers(b: Brain, p: Path, o: Owned)
    ensures o in Own(b, p) <==> o.source == p && exists q :: q in OwnPartners(b, p) && o.pair == Sorted(p, q)
  {
    hide Less;
    var os := Ascending(OwnPartners(b, p));
    if q :| q in OwnPartners(b, p) && o == Owned(p, Sorted(p, q)) {
      assert q in os;
      var i :| 0 <= i < |os| && os[i] == q;
      assert Own(b, p)[i] == o;
    }
  }

  lemma SortedSame(x: Path, y: Path, u: Path, v: Path)
    requires x != y && Sorted(x, y) == Sorted(u, v)
    ensures (u == x && v == y) || (u == y && v == x)
  {
    hide Less;
  }

  /** EACH PAIR HAS ONE OWNER. Two pages of which either names the other make a pair owned by
      the earlier when it names the later, otherwise by the later, and by nobody else. */
  lemma OneOwner(b: Brain, x: Path, y: Path, s: Path)
    requires Less(x, y)
    ensures Owned(s, Pair(x, y)) in Own(b, s) <==>
      || (s == x && y in NamedBy(b, x))
      || (s == y && y !in NamedBy(b, x) && x in NamedBy(b, y))
  {
    LessAsymmetric(x, y);
    OwnMembers(b, s, Owned(s, Pair(x, y)));
    hide Own, Less;
    assert Sorted(x, y) == Pair(x, y) == Sorted(y, x);
    if q :| q in OwnPartners(b, s) && Pair(x, y) == Sorted(s, q) {
      SortedSame(s, q, x, y);
    }
    if s == x && y in NamedBy(b, x) {
      assert y in OwnPartners(b, x);
    }
    if s == y && y !in NamedBy(b, x) && x in NamedBy(b, y) {
      assert x in OwnPartners(b, y);
    }
  }

  lemma {:induction false} PairsOfMembers(b: Brain, ps: seq<Path>, o: Owned)
    ensures o in PairsOf(b, ps) <==> o.source in ps && o in Own(b, o.source)
  {
    if ps != [] {
      var init, p := ps[..|ps| - 1], ps[|ps| - 1];
      PairsOfMembers(b, init, o);
      OwnMembers(b, p, o);
      hide Own;
      assert o.source in ps <==> o.source in init || o.source == p by { assert ps == init + [p]; }
    }
  }

  // ---------- windows ----------

  /** Resuming after a window leaves exactly the sources the window did not cover. */
  lemma ResumeAfter(b: Brain, cursor: Option<Path>, k: nat)
    requires 0 < k <= |Remaining(b, cursor)|
    ensures Remaining(b, Some(Remaining(b, cursor)[k - 1])) == Remaining(b, cursor)[k..]
  {
    ResumeBeyond(b.pages, cursor, k);
  }

  /** Every window takes at least one source, so planning on always comes to an end. */
  function Windows(b: Brain, cursor: Option<Path>, budget: nat, costs: Pair -> bool): seq<Owned>
    decreases |Remaining(b, cursor)|
  {
    var plan := PlanAt(b, cursor, budget, costs);
    WindowMoves(b, cursor, budget, costs);
    if plan.done then plan.pairs else plan.pairs + Windows(b, plan.last, budget, costs)
  }

  lemma WindowMoves(b: Brain, cursor: Option<Path>, budget: nat, costs: Pair -> bool)
    ensures var ps, k := Remaining(b, cursor), Window(b, Remaining(b, cursor), budget, costs, 0);
      && (ps != [] ==> k > 0)
      && (k > 0 ==> Remaining(b, Some(ps[k - 1])) == ps[k..] && |ps[k..]| < |ps|)
      && (k > 0 ==> PlanAt(b, cursor, budget, costs).last == Some(ps[k - 1]))
  {
    hide Own, Less, Remaining;
    var ps := Remaining(b, cursor);
    var k := Window(b, ps, budget, costs, 0);
    assert ps != [] ==> ps[..0] == [];
    assert ps != [] ==> !Stops(b, ps, budget, costs, 0);
    if k > 0 { ResumeAfter(b, cursor, k); }
  }

  /** THE WINDOWS COVER THE PASS. From any cursor, whatever the budget and whatever is free,
      the windows laid end to end are the pairs of every remaining source, each once and in
      path order. */
  lemma {:induction false} WindowsCover(b: Brain, cursor: Option<Path>, budget: nat, costs: Pair -> bool)
    ensures Windows(b, cursor, budget, costs) == PairsOf(b, Remaining(b, cursor))
    decreases |Remaining(b, cursor)|
  {
    hide Own, Less, Remaining, PairsOf, Cost, Stops, Passed;
    var ps := Remaining(b, cursor);
    var k := Window(b, ps, budget, costs, 0);
    WindowMoves(b, cursor, budget, costs);
    if k < |ps| {
      WindowsCover(b, Some(ps[k - 1]), budget, costs);
      PairsOfAppend(b, ps[..k], ps[k..]);
      assert ps[..k] + ps[k..] == ps;
    } else {
      assert ps[..k] == ps;
    }
  }

  /** A step pays for no more than the budget, unless its one paying source is over it alone. */
  lemma StepWithinBudget(b: Brain, cursor: Option<Path>, budget: nat, costs: Pair -> bool)
    ensures var plan := PlanAt(b, cursor, budget, costs);
      Cost(plan.pairs, costs) <= budget
      || (plan.last.Some? && Cost(Own(b, plan.last.value), costs) == Cost(plan.pairs, costs))
  {
    hide Own, Less, Remaining;
    var ps := Remaining(b, cursor);
    var k := Window(b, ps, budget, costs, 0);
    if k > 0 {
      PairsOfLast(b, ps, k - 1);
      CostAppend(PairsOf(b, ps[..k - 1]), Own(b, ps[k - 1]), costs);
      assert !Stops(b, ps, budget, costs, k - 1);
    } else {
      assert ps[..k] == [];
    }
  }

  /** A step that leaves sources leaves them because they do not fit: it has something to pay for, and with the
      next source would pay for more than the budget. */
  lemma StepIsLongest(b: Brain, cursor: Option<Path>, budget: nat, costs: Pair -> bool) returns (k: nat)
    ensures var plan, rem := PlanAt(b, cursor, budget, costs), Remaining(b, cursor);
      && k <= |rem| && plan.pairs == PairsOf(b, rem[..k]) && (plan.done <==> k == |rem|)
      && (k < |rem| ==> Cost(plan.pairs, costs) > 0 && Cost(PairsOf(b, rem[..k + 1]), costs) > budget)
  {
    hide Own, Less, Remaining, PairsOf, Cost;
    k := Window(b, Remaining(b, cursor), budget, costs, 0);
  }

  /** No pair is taken twice in a pass. */
  lemma NoPairTwice(b: Brain, o: Owned, o': Owned)
    requires o in Own(b, o.source) && o' in Own(b, o'.source) && o.pair == o'.pair
    ensures o == o'
  {
    OwnMembers(b, o.source, o);
    OwnMembers(b, o'.source, o');
    hide Own;
    var q :| q in OwnPartners(b, o.source) && o.pair == Sorted(o.source, q);
    var x, y := o.pair.a, o.pair.b;
    LessTotal(o.source, q);
    assert Less(x, y);
    OneOwner(b, x, y, o.source);
    OneOwner(b, x, y, o'.source);
  }
}
