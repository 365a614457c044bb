/** What one resolve call does, decision by decision. */
module ImportDecisions {
  // planDecisions (src/lib/brain-import.ts) told without its loop: which decisions are accepted depends
  // on the pages and not on one another, the pages that go are those that hold a deleted key, the pages
  // that are rewritten are the alias targets, and in the ledger the last accepted decision on a key
  // stands.

  import opened Options
  import opened Paths
  import opened Texts
  import opened Frontmatter
  import opened FrontmatterPages
  import opened ImportPlanner
  import opened ImportClaims
  import opened ImportRuns
  import opened ImportHistory
  import opened ImportLimits

  /** A decision is accepted when it names a key and, to delete, some page claims it; to alias, the
      target is a page and no other page holds the key. */
  ghost predicate Accepted(brain: Brain, d: Decision) {
    && Trim(d.key) != ""
    && (d.Delete? ==> exists p :: Claims(brain, p, Trim(d.key)))
    && (d.Alias? ==> AliasTarget(d) in brain.pages && forall p :: Holds(brain, p, Trim(d.key)) ==> p == AliasTarget(d))
  }

  ghost predicate Did(brain: Brain, d: Decision, k: string) {
    Accepted(brain, d) && Trim(d.key) == k
  }

  ghost predicate Aliased(brain: Brain, d: Decision, k: string) {
    d.Alias? && Did(brain, d, k)
  }

  // ---------- which page a key resolves to ----------

  /** The pages of the call, each with the keys it claims, in the order of their paths. */
  predicate Lists(brain: Brain, cs: seq<ClaimedPage>, ps: seq<Path>) {
    |cs| == |ps| && forall i :: 0 <= i < |cs| ==>
      ps[i] in brain.pages && cs[i] == ClaimedPage(ps[i], KeysAt(brain, ps[i]), brain.pages[ps[i]])
  }

  lemma FetchedLists(brain: Brain)
    ensures Lists(brain, FetchedFor(brain), Ascending(brain.pages.Keys))
  {
    hide KeysAt;
  }

  lemma {:induction false} ListsResolve(brain: Brain, cs: seq<ClaimedPage>, ps: seq<Path>, k: string)
    requires Lists(brain, cs, ps) && Increasing(ps)
    ensures IsLastClaimer(brain, ps, k, PageByKey(cs, k))
    decreases |ps|
  {
    hide Less, KeysAt, PageByKey;
    if ps == [] {
      assert cs == [];
      NoClaims(k);
    } else {
      var init, before := ps[..|ps| - 1], cs[..|cs| - 1];
      ListsResolve(brain, before, init, k);
      OneMore(brain, init, ps[|ps| - 1], ps, k, PageByKey(before, k));
      assert cs == before + [cs[|cs| - 1]];
      PageByKeyLast(before, cs[|cs| - 1], k);
    }
  }

  lemma OneMore(brain: Brain, init: seq<Path>, p: Path, ps: seq<Path>, k: string, c: Option<ClaimedPage>)
    requires ps == init + [p] && Increasing(ps) && p in brain.pages && IsLastClaimer(brain, init, k, c)
    ensures IsLastClaimer(brain, ps, k,
      if k in KeysAt(brain, p) then Some(ClaimedPage(p, KeysAt(brain, p), brain.pages[p])) else c)
  {
    hide Less, KeysAt;
    forall q | q in init ensures Less(q, p) {
      var i :| 0 <= i < |init| && init[i] == q;
      assert ps[i] == q && ps[|init|] == p;
    }
    assert forall q :: q in ps <==> q in init || q == p;
    assert Claims(brain, p, k) <==> k in KeysAt(brain, p);
    assert p in ps;
    if k in KeysAt(brain, p) {
      assert forall q :: q in ps && Claims(brain, q, k) ==> q == p || Less(q, p);
    } else {
      assert forall q :: q in ps && Claims(brain, q, k) ==> q in init;
      assert forall q :: q in init ==> q in ps;
    }
  }

  /** The page a key resolves to is the one that holds it. */
  lemma FetchedHolds(brain: Brain, k: string)
    ensures var c := PageByKey(FetchedFor(brain), k);
      && (c.None? <==> forall p :: !Claims(brain, p, k))
      && (forall p :: Holds(brain, p, k) <==> c.Some? && c.value.path == p)
  {
    hide Less, KeysAt, PageByKey, FetchedFor;
    var cs, ps := FetchedFor(brain), Ascending(brain.pages.Keys);
    FetchedLists(brain);
    ListsResolve(brain, cs, ps, k);
    assert forall q :: Claims(brain, q, k) ==> q in ps;
    var c := PageByKey(cs, k);
    if c.Some? {
      assert Holds(brain, c.value.path, k);
      forall p | Holds(brain, p, k) ensures p == c.value.path {
        if p != c.value.path {
          LessAsymmetric(p, c.value.path);
        }
      }
    }
  }

  // ---------- one decision ----------

  function Adding(s: Resolution, p: Path, k: string): map<Path, seq<string>> {
    s.aliases[p := (if p in s.aliases then s.aliases[p] else []) + [k]]
  }

  /** The name a refused decision is listed under. */
  function NameOf(d: Decision): string {
    if Trim(d.key) == "" then d.key else Trim(d.key)
  }

  /** What an accepted decision adds to what was gathered before it. */
  ghost predicate Adds(brain: Brain, s: Resolution, d: Decision, r: Resolution) {
    var k := Trim(d.key);
    match d
    case Suppress(_) => r == s.(suppressed := Including(s.suppressed, k), applied := s.applied + {k})
    case Recreate(_) => r == s.(suppressed := Without(s.suppressed, k), imported := Without(s.imported, k), applied := s.applied + {k})
    case Delete(_) => exists p :: Holds(brain, p, k) && r == s.(deletes := Including(s.deletes, p), applied := s.applied + {k})
    case Alias(_, _) => r == s.(aliases := Adding(s, AliasTarget(d), k), imported := Including(s.imported, k), applied := s.applied + {k})
  }

  lemma Step(brain: Brain, s: Resolution, d: Decision)
    ensures var r := Resolve1(s, d, FetchedFor(brain));
      if Accepted(brain, d) then Adds(brain, s, d, r) else r == s.(refused := s.refused + [NameOf(d)])
  {
    hide KeysAt, FetchedFor, Trim, DropSlashes, Including, Without, PageByKey, PageByPath, Less, Claims, Holds;
    FetchedHolds(brain, Trim(d.key));
    match d
    case Delete(_) => DeleteStep(brain, s, d);
    case Alias(_, _) => AliasStep(brain, s, d);
    case _ =>
  }

  lemma DeleteStep(brain: Brain, s: Resolution, d: Decision)
    requires d.Delete?
    ensures var r := Resolve1(s, d, FetchedFor(brain));
      if Accepted(brain, d) then Adds(brain, s, d, r) else r == s.(refused := s.refused + [NameOf(d)])
  {
    hide KeysAt, FetchedFor, Trim, DropSlashes, Including, Without, PageByKey, PageByPath, Less, Claims, Holds;
    var k := Trim(d.key);
    FetchedHolds(brain, k);
    var c := PageByKey(FetchedFor(brain), k);
    if c.Some? { assert Holds(brain, c.value.path, k); }
  }

  lemma AliasStep(brain: Brain, s: Resolution, d: Decision)
    requires d.Alias?
    ensures var r := Resolve1(s, d, FetchedFor(brain));
      if Accepted(brain, d) then Adds(brain, s, d, r) else r == s.(refused := s.refused + [NameOf(d)])
  {
    var k, to := Trim(d.key), AliasTarget(d);
    FetchedHolds(brain, k);
    FetchedPath(brain, to);
    hide KeysAt, FetchedFor, Trim, DropSlashes, Including, Without, PageByKey, PageByPath, Less, Claims, Holds;
    var c := PageByKey(FetchedFor(brain), k);
    if c.Some? { assert Holds(brain, c.value.path, k); }
  }

  lemma FetchedPath(brain: Brain, p: Path)
    ensures PageByPath(FetchedFor(brain), p).Some? <==> p in brain.pages
    ensures p in brain.pages ==> PageByPath(FetchedFor(brain), p).value.path == p
  {
    hide KeysAt, FetchedFor, PageByPath;
    FetchedMembers(brain);
    PageAtPath(FetchedFor(brain), p);
  }

  // ---------- a whole call ----------

  lemma DecidedStep(w: World, ds: seq<Decision>)
    requires ds != []
    ensures var s, r, d := Decided(w, ds[..|ds| - 1]), Decided(w, ds), ds[|ds| - 1];
      if Accepted(w.brain, d) then Adds(w.brain, s, d, r) else r == s.(refused := s.refused + [NameOf(d)])
  {
    hide Accepted, Adds, Resolve1, FetchedFor, NameOf;
    Step(w.brain, Decided(w, ds[..|ds| - 1]), ds[|ds| - 1]);
  }

  /** Some decision deletes a key that this page holds. */
  ghost predicate Condemned(brain: Brain, ds: seq<Decision>, p: Path) {
    exists d :: d in ds && Condemns(brain, d, p)
  }

  ghost predicate Condemns(brain: Brain, d: Decision, p: Path) {
    d.Delete? && Trim(d.key) != "" && Holds(brain, p, Trim(d.key))
  }

  /** The keys the accepted aliases bind to this page, in their order. */
  ghost function AliasKeys(brain: Brain, ds: seq<Decision>, p: Path): seq<string> {
    if ds == [] then []
    else
      var d := ds[|ds| - 1];
      AliasKeys(brain, ds[..|ds| - 1], p) + (if d.Alias? && AliasTarget(d) == p && Accepted(brain, d) then [Trim(d.key)] else [])
  }

  /** The names of the refused decisions, in their order. */
  ghost function Refusals(brain: Brain, ds: seq<Decision>): seq<string> {
    if ds == [] then []
    else Refusals(brain, ds[..|ds| - 1]) + (if Accepted(brain, ds[|ds| - 1]) then [] else [NameOf(ds[|ds| - 1])])
  }

  /** Some accepted decision is on this key. */
  ghost predicate Answered(brain: Brain, ds: seq<Decision>, k: string) {
    exists d :: d in ds && Did(brain, d, k)
  }

  /** The last accepted alias or recreate decision on the key stands: an alias remembers it, a recreate
      forgets it, and without one it is as it was. */
  ghost predicate Remembered(brain: Brain, before: bool, ds: seq<Decision>, k: string) {
    if ds == [] then before
    else
      var d := ds[|ds| - 1];
      if Did(brain, d, k) && d.Alias? then true
      else if Did(brain, d, k) && d.Recreate? then false
      else Remembered(brain, before, ds[..|ds| - 1], k)
  }

  /** And the last accepted suppress or recreate decision. */
  ghost predicate Silenced(brain: Brain, before: bool, ds: seq<Decision>, k: string) {
    if ds == [] then before
    else
      var d := ds[|ds| - 1];
      if Did(brain, d, k) && d.Suppress? then true
      else if Did(brain, d, k) && d.Recreate? then false
      else Silenced(brain, before, ds[..|ds| - 1], k)
  }

  lemma LastOf(brain: Brain, ds: seq<Decision>, p: Path, k: string)
    requires ds != []
    ensures var init, d := ds[..|ds| - 1], ds[|ds| - 1];
      && (Condemned(brain, ds, p) <==> Condemned(brain, init, p) || Condemns(brain, d, p))
      && (Answered(brain, ds, k) <==> Answered(brain, init, k) || Did(brain, d, k))
  {
    hide Condemns, Did;
    var init, d := ds[..|ds| - 1], ds[|ds| - 1];
    assert forall e :: e in ds <==> e in init || e == d by { assert ds == init + [d]; }
  }

  lemma {:induction false} DeletesAre(w: World, ds: seq<Decision>, p: Path)
    ensures p in Decided(w, ds).deletes <==> Condemned(w.brain, ds, p)
    decreases |ds|
  {
    hide Holds, Claims, Trim, DropSlashes, FetchedFor, Resolve1;
    if ds != [] {
      var init, d := ds[..|ds| - 1], ds[|ds| - 1];
      DeletesAre(w, init, p);
      DecidedStep(w, ds);
      LastOf(w.brain, ds, p, "");
      hide Decided, Condemned;
      if d.Delete? { HoldsOne(w.brain, Trim(d.key)); }
    }
  }

  lemma HoldsOne(brain: Brain, k: string)
    ensures forall p, q :: Holds(brain, p, k) && Holds(brain, q, k) ==> p == q
    ensures (exists p :: Claims(brain, p, k)) ==> exists p :: Holds(brain, p, k)
    ensures forall p :: Holds(brain, p, k) ==> Claims(brain, p, k)
  {
    FetchedHolds(brain, k);
    hide FetchedFor, PageByKey, Less, KeysAt;
    var c := PageByKey(FetchedFor(brain), k);
    if c.Some? { assert Holds(brain, c.value.path, k); }
  }

  lemma {:induction false} AliasesAre(w: World, ds: seq<Decision>, p: Path)
    ensures var s, ks := Decided(w, ds), AliasKeys(w.brain, ds, p);
      && (p in s.aliases <==> ks != [])
      && (p in s.aliases ==> s.aliases[p] == ks && p in w.brain.pages)
    decreases |ds|
  {
    hide Holds, Claims, Trim, DropSlashes, FetchedFor, Resolve1;
    if ds != [] {
      AliasesAre(w, ds[..|ds| - 1], p);
      DecidedStep(w, ds);
      hide Decided;
    }
  }

  lemma {:induction false} RefusedAre(w: World, ds: seq<Decision>, k: string)
    ensures Decided(w, ds).refused == Refusals(w.brain, ds)
    ensures k in Decided(w, ds).applied <==> Answered(w.brain, ds, k)
    decreases |ds|
  {
    hide Holds, Claims, Trim, DropSlashes, FetchedFor, Resolve1, NameOf;
    if ds != [] {
      var init, d := ds[..|ds| - 1], ds[|ds| - 1];
      RefusedAre(w, init, k);
      DecidedStep(w, ds);
      LastOf(w.brain, ds, "", k);
      hide Decided, Answered;
    }
  }

  lemma {:induction false} RemembersAre(w: World, ds: seq<Decision>, k: string)
    ensures k in Decided(w, ds).imported <==> Remembered(w.brain, k in w.ledger.imported, ds, k)
    ensures k in Decided(w, ds).suppressed <==> Silenced(w.brain, k in w.ledger.suppressed, ds, k)
    decreases |ds|
  {
    hide Holds, Claims, Trim, DropSlashes, FetchedFor, Resolve1, NameOf;
    if ds != [] {
      var init, d := ds[..|ds| - 1], ds[|ds| - 1];
      RemembersAre(w, init, k);
      DecidedStep(w, ds);
      WithoutMembers(Decided(w, init).imported, Trim(d.key));
      WithoutMembers(Decided(w, init).suppressed, Trim(d.key));
      hide Decided, Without;
    }
  }

  lemma {:induction false} OnceEach(w: World, ds: seq<Decision>)
    ensures NoRepeats(w.ledger.imported) ==> NoRepeats(Decided(w, ds).imported)
    ensures NoRepeats(w.ledger.suppressed) ==> NoRepeats(Decided(w, ds).suppressed)
    decreases |ds|
  {
    hide Holds, Claims, Trim, DropSlashes, FetchedFor, Resolve1, NameOf;
    if ds != [] {
      var init, d := ds[..|ds| - 1], ds[|ds| - 1];
      OnceEach(w, init);
      DecidedStep(w, ds);
      WithoutOnce(Decided(w, init).imported, Trim(d.key));
      WithoutOnce(Decided(w, init).suppressed, Trim(d.key));
      hide Decided, Without;
    }
  }

  lemma {:induction false} WithoutOnce(ks: seq<string>, k: string)
    ensures NoRepeats(ks) ==> NoRepeats(Without(ks, k))
  {
    if ks != [] && NoRepeats(ks) {
      assert forall i :: 0 <= i < |ks[1..]| ==> ks[1..][i] == ks[i + 1];
      WithoutOnce(ks[1..], k);
      WithoutMembers(ks[1..], k);
      assert ks[0] !in ks[1..];
    }
  }

  lemma {:induction false} PendingCount(qs: seq<Question>, applied: set<string>, q: Question)
    ensures multiset(StillPending(qs, applied))[q] == if q.key in applied then 0 else multiset(qs)[q]
  {
    if qs != [] {
      PendingCount(qs[1..], applied, q);
      assert qs == [qs[0]] + qs[1..];
    }
  }

  // ---------- the main results ----------

  /** WHAT A RESOLVE CALL DOES TO THE PAGES. A page is gone afterwards exactly when some decision
      deletes a key that it holds, that is, that it claims and no later page does. Every other
      page stays; one that accepted aliases name is rewritten with their keys, in their order, and
      the text of every other is what it was. */
  lemma PagesAfter(w: World, ds: seq<Decision>, today: Day, p: Path)
    ensures var w2 := ResolveCall(w, ds, today);
      var ks := AliasKeys(w.brain, ds, p);
      && (p in w2.brain.pages <==> p in w.brain.pages && !Condemned(w.brain, ds, p))
      && (p in w2.brain.pages ==>
            w2.brain.pages[p] == if ks == [] then w.brain.pages[p] else PageText(AliasedPage(ReadPage(w.brain.pages[p]), ks, today)))
      && w2.brain.indexed == w.brain.indexed
  {
    hide Decided, AliasedPage, StillPending, ReadPage, PageText, Condemned, AliasKeys;
    DeletesAre(w, ds, p);
    AliasesAre(w, ds, p);
  }

  /** WHAT IT DOES TO THE LEDGER. Of the decisions on a key the last one that is accepted and speaks of it
      stands; a question is answered exactly when a decision on its key is accepted; and the
      refused decisions are listed in their order. */
  lemma LedgerAfter(w: World, ds: seq<Decision>, today: Day, k: string, q: Question)
    ensures var l := ResolveCall(w, ds, today).ledger;
      && (k in l.imported <==> Remembered(w.brain, k in w.ledger.imported, ds, k))
      && (k in l.suppressed <==> Silenced(w.brain, k in w.ledger.suppressed, ds, k))
      && multiset(l.pending)[q] == (if Answered(w.brain, ds, q.key) then 0 else multiset(w.ledger.pending)[q])
      && (NoRepeats(w.ledger.imported) ==> NoRepeats(l.imported))
      && (NoRepeats(w.ledger.suppressed) ==> NoRepeats(l.suppressed))
    ensures Decided(w, ds).refused == Refusals(w.brain, ds)
    ensures k in Decided(w, ds).applied <==> Answered(w.brain, ds, k)
  {
    LedgerAfterCall(w, ds, today);
    RemembersAre(w, ds, k);
    OnceEach(w, ds);
    RefusedAre(w, ds, k);
    RefusedAre(w, ds, q.key);
    PendingCount(w.ledger.pending, Decided(w, ds).applied, q);
    hide Decided, Remembered, Silenced, Answered, Refusals, AliasedPage, ReadPage, PageText, NoRepeats;
  }

  /** A REFUSED DECISION CHANGES NOTHING: a delete of a key no page claims, an alias to a page that is
      not there, and an alias of a key that another page holds. Refused alone, each leaves the
      world as it was. */
  lemma RefusedChangesNothing(w: World, ds: seq<Decision>, today: Day)
    requires forall d :: d in ds ==> !Accepted(w.brain, d)
    ensures ResolveCall(w, ds, today) == w
    ensures |Decided(w, ds).refused| == |ds| && Decided(w, ds).applied == {}
  {
    RefusedLeaves(w, ds);
    BrainKept(w, ds, today);
    PendingKept(w.ledger.pending);
    hide Decided, AliasedPage, ReadPage, PageText, StillPending;
  }

  lemma {:induction false} RefusedLeaves(w: World, ds: seq<Decision>)
    requires forall d :: d in ds ==> !Accepted(w.brain, d)
    ensures Decided(w, ds) == Start(w).(refused := Decided(w, ds).refused) && |Decided(w, ds).refused| == |ds|
    decreases |ds|
  {
    hide Accepted, Resolve1, FetchedFor, NameOf;
    if ds != [] {
      RefusedLeaves(w, ds[..|ds| - 1]);
      DecidedStep(w, ds);
    }
  }

  lemma {:induction false} PendingKept(qs: seq<Question>)
    ensures StillPending(qs, {}) == qs
  {
    if qs != [] { PendingKept(qs[1..]); }
  }

  /** THE REWRITE OF AN ALIAS TARGET. The page lists the keys it listed, and after them the new
      ones, each once and in the order they were first named; it is dated today; every other field
      and the body are as they were. */
  lemma {:induction false} AliasRewrite(page: Page, ks: seq<string>, today: Day)
    ensures var after, list := AliasedPage(page, ks, today), ListOf(Get(page.fm, SOURCE_KEYS));
      && after.body == page.body
      && Get(after.fm, UPDATED) == Some(Plain(Scalar(today)))
      && (forall k :: k !in {SOURCE_KEYS, UPDATED} ==> Get(after.fm, k) == Get(page.fm, k))
      && page.fm.order <= after.fm.order
      && exists added :: Get(after.fm, SOURCE_KEYS) == Some(Plain(List(list + added))) && AreNew(added, list, ks)
  {
    hide ListOf;
    ReservedKeysDiffer();
    var list := ListOf(Get(page.fm, SOURCE_KEYS));
    var added := AddsNew(list, ks);
    hide AddKeys;
  }

  /** No alias the index shows is lost in the rewrite: each of a field's row values is of a listed item. */
  lemma RowsAreListed(v: Value, row: string)
    requires row in RowValues(v)
    ensures exists item :: item in ListOf(Some(v)) && Cut(Trim(item)) == row
  {
    hide Trim, Cut, IndexedValues;
    match v
    case Plain(Scalar(t)) =>
      BlankRow();
      IndexedMembers([t]);
      assert [t][0] == t;
    case Plain(List(items)) =>
      var firsts := Firsts(items, MAX_FIELD_LIST_ELEMENTS);
      IndexedMembers(firsts);
      var i :| 0 <= i < |firsts| && Cut(Trim(firsts[i])) == row;
      assert firsts[i] in items;
    case _ =>
  }

  lemma BlankRow()
    ensures Cut(Trim("")) == ""
  {
  }

  /** The keys that were not listed, each once, in the order of their first places. */
  ghost predicate AreNew(added: seq<string>, list: seq<string>, ks: seq<string>) {
    && (forall k :: k in added <==> k in ks && k !in list)
    && (forall i, j :: 0 <= i < j < |added| ==> PlaceOf(ks, added[i]) < PlaceOf(ks, added[j]))
  }

  lemma {:induction false} AddsNew(list: seq<string>, ks: seq<string>) returns (added: seq<string>)
    ensures AddKeys(list, ks) == list + added && AreNew(added, list, ks)
    decreases |ks|
  {
    if ks == [] {
      added := [];
    } else {
      var rest := AddsNew(Including(list, ks[0]), ks[1..]);
      added := (if ks[0] in list then [] else [ks[0]]) + rest;
      assert list + added == Including(list, ks[0]) + rest;
      OneMoreNew(added, rest, list, ks);
    }
  }

  lemma OneMoreNew(added: seq<string>, rest: seq<string>, list: seq<string>, ks: seq<string>)
    requires ks != [] && AreNew(rest, Including(list, ks[0]), ks[1..])
    requires added == (if ks[0] in list then [] else [ks[0]]) + rest
    ensures AreNew(added, list, ks)
  {
    hide PlaceOf;
    assert forall k :: k in ks <==> k == ks[0] || k in ks[1..];
    assert forall k :: k in Including(list, ks[0]) <==> k in list || k == ks[0];
    forall k | k in rest ensures PlaceOf(ks, k) == 1 + PlaceOf(ks[1..], k) { PlaceBehind(ks, k); }
    PlaceBehind(ks, ks[0]);
    var n := if ks[0] in list then 0 else 1;
    forall i, j | 0 <= i < j < |added| ensures PlaceOf(ks, added[i]) < PlaceOf(ks, added[j]) {
      assert added[j] == rest[j - n];
      if i >= n { assert added[i] == rest[i - n]; }
    }
  }

  lemma PlaceBehind(ks: seq<string>, k: string)
    requires ks != []
    ensures PlaceOf(ks, k) == if k == ks[0] then 0 else 1 + PlaceOf(ks[1..], k)
  {
  }
}
