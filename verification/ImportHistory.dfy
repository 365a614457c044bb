/** Decisions, and whole histories of syncs, decisions and human edits: what the ledger
    remembers through all of them, and that no page comes back of a key a person removed
    the page of. */
module ImportHistory {
  import opened Options
  import opened Paths
  import opened Texts
  import opened Frontmatter
  import opened FrontmatterPages
  import opened ImportPlanner
  import opened ImportClaims
  import opened ImportRuns

  // ---------- planDecisions ----------

  datatype Decision =
    | Suppress(key: string)
    | Delete(key: string)
    | Alias(key: string, aliasTo: string)
    | Recreate(key: string)

  /** What a run of decisions has gathered so far. */
  datatype Resolution = Resolution(
    imported: seq<string>,
    suppressed: seq<string>,
    deletes: seq<Path>,
    aliases: map<Path, seq<string>>,
    applied: set<string>,
    refused: seq<string>)

  function Without(ks: seq<string>, k: string): seq<string> {
    if ks == [] then [] else (if ks[0] != k then [ks[0]] else []) + Without(ks[1..], k)
  }

  function Including<T(==)>(ks: seq<T>, k: T): seq<T> {
    if k in ks then ks else ks + [k]
  }

  /** The page at a path, among the pages the call fetched. */
  function PageByPath(claimed: seq<ClaimedPage>, p: Path): Option<ClaimedPage> {
    if claimed == [] then None
    else if claimed[|claimed| - 1].path == p then Some(claimed[|claimed| - 1])
    else PageByPath(claimed[..|claimed| - 1], p)
  }

  function Resolve1(s: Resolution, d: Decision, claimed: seq<ClaimedPage>): Resolution {
    var k := Trim(d.key);
    if k == "" then s.(refused := s.refused + [d.key])
    else
      match d
      case Suppress(_) => s.(suppressed := Including(s.suppressed, k), applied := s.applied + {k})
      case Recreate(_) =>
        s.(imported := Without(s.imported, k), suppressed := Without(s.suppressed, k), applied := s.applied + {k})
      case Delete(_) =>
        var page := PageByKey(claimed, k);
        if page.None? then s.(refused := s.refused + [k])
        else s.(deletes := Including(s.deletes, page.value.path), applied := s.applied + {k})
      case Alias(_, to) =>
        var target, holder := PageByPath(claimed, DropSlashes(Trim(to))), PageByKey(claimed, k);
        if target.None? then s.(refused := s.refused + [k])
        else if holder.Some? && holder.value.path != target.value.path then s.(refused := s.refused + [k])
        else
          var p := target.value.path;
          s.(aliases := s.aliases[p := (if p in s.aliases then s.aliases[p] else []) + [k]],
             imported := Including(s.imported, k), applied := s.applied + {k})
  }

  function ResolveAll(s: Resolution, ds: seq<Decision>, claimed: seq<ClaimedPage>): Resolution {
    if ds == [] then s
    else Resolve1(ResolveAll(s, ds[..|ds| - 1], claimed), ds[|ds| - 1], claimed)
  }

  function ListOf(v: Option<Value>): seq<string> {
    match v
    case Some(Plain(List(items))) => items
    case Some(Plain(Scalar(s))) => if s == "" then [] else [s]
    case _ => []
  }

  function AddKeys(list: seq<string>, ks: seq<string>): seq<string>
    decreases |ks|
  {
    if ks == [] then list else AddKeys(Including(list, ks[0]), ks[1..])
  }

  function AliasedPage(page: Page, ks: seq<string>, today: Day): Page {
    Page(Set(Set(page.fm, SOURCE_KEYS, Plain(List(AddKeys(ListOf(Get(page.fm, SOURCE_KEYS)), ks)))), UPDATED, Plain(Scalar(today))), page.body)
  }

  function StillPending(qs: seq<Question>, applied: set<string>): seq<Question> {
    if qs == [] then [] else (if qs[0].key !in applied then [qs[0]] else []) + StillPending(qs[1..], applied)
  }

  /** Every page the call fetches: the ones that claim a decided key, and alias targets. */
  function FetchedFor(brain: Brain): seq<ClaimedPage> {
    var ps := Ascending(brain.pages.Keys);
    seq(|ps|, i requires 0 <= i < |ps| => ClaimedPage(ps[i], KeysAt(brain, ps[i]), brain.pages[ps[i]]))
  }

  function Decided(w: World, ds: seq<Decision>): Resolution {
    ResolveAll(Resolution(w.ledger.imported, w.ledger.suppressed, [], map[], {}, []), ds, FetchedFor(w.brain))
  }

  /** One resolve call, committed: alias rewrites, then deletions, and the ledger. */
  function ResolveCall(w: World, ds: seq<Decision>, today: Day): World {
    var s := Decided(w, ds);
    World(
      w.brain.(pages :=
        (map p | p in w.brain.pages :: if p in s.aliases then PageText(AliasedPage(ReadPage(w.brain.pages[p]), s.aliases[p], today)) else w.brain.pages[p])
        - (set p | p in s.deletes)),
      Ledger(s.imported, s.suppressed, StillPending(w.ledger.pending, s.applied)))
  }

  /** planDecisions as the loop it is. */
  method PlanDecisions(ledger: Ledger, ds: seq<Decision>, claimed: seq<ClaimedPage>)
    returns (s: Resolution, pending: seq<Question>)
    ensures s == ResolveAll(Resolution(ledger.imported, ledger.suppressed, [], map[], {}, []), ds, claimed)
    ensures pending == StillPending(ledger.pending, s.applied)
  {
    s := Resolution(ledger.imported, ledger.suppressed, [], map[], {}, []);
    ghost var s0 := s;
    for i := 0 to |ds|
      invariant s == ResolveAll(s0, ds[..i], claimed)
    {
      var d, k := ds[i], Trim(ds[i].key);
      assert ds[..i + 1][..i] == ds[..i];
      if k == "" {
        s := s.(refused := s.refused + [d.key]);
        continue;
      }
      match d
      case Suppress(_) =>
        s := s.(suppressed := if k in s.suppressed then s.suppressed else s.suppressed + [k], applied := s.applied + {k});
      case Recreate(_) =>
        s := s.(imported := Without(s.imported, k), suppressed := Without(s.suppressed, k), applied := s.applied + {k});
      case Delete(_) =>
        var page := PageByKey(claimed, k);
        if page.None? {
          s := s.(refused := s.refused + [k]);
        } else {
          var p := page.value.path;
          s := s.(deletes := if p in s.deletes then s.deletes else s.deletes + [p], applied := s.applied + {k});
        }
      case Alias(_, to) =>
        var target, holder := PageByPath(claimed, DropSlashes(Trim(to))), PageByKey(claimed, k);
        if target.None? || (holder.Some? && holder.value.path != target.value.path) {
          s := s.(refused := s.refused + [k]);
        } else {
          var p := target.value.path;
          s := s.(aliases := s.aliases[p := (if p in s.aliases then s.aliases[p] else []) + [k]],
                  imported := if k in s.imported then s.imported else s.imported + [k],
                  applied := s.applied + {k});
        }
    }
    assert ds[..|ds|] == ds;
    pending := [];
    for i := 0 to |ledger.pending|
      invariant pending == StillPending(ledger.pending[..i], s.applied)
    {
      var q := ledger.pending[i];
      StillPendingLast(ledger.pending, s.applied, i);
      if q.key !in s.applied {
        pending := pending + [q];
      }
    }
    assert ledger.pending[..|ledger.pending|] == ledger.pending;
  }

  lemma {:induction false} StillPendingAppend(a: seq<Question>, b: seq<Question>, applied: set<string>)
    ensures StillPending(a + b, applied) == StillPending(a, applied) + StillPending(b, applied)
    decreases |a|
  {
    if a == [] {
      assert a + b == b;
    } else {
      assert (a + b)[1..] == a[1..] + b;
      StillPendingAppend(a[1..], b, applied);
    }
  }

  lemma StillPendingLast(qs: seq<Question>, applied: set<string>, i: nat)
    requires i < |qs|
    ensures StillPending(qs[..i + 1], applied)
         == StillPending(qs[..i], applied) + (if qs[i].key !in applied then [qs[i]] else [])
  {
    assert qs[..i + 1] == qs[..i] + [qs[i]];
    StillPendingAppend(qs[..i], [qs[i]], applied);
    assert StillPending([qs[i]][1..], applied) == [];
  }

  // ---------- what each step keeps of the ledger ----------

  lemma {:induction false} WithoutMembers(ks: seq<string>, k: string)
    ensures forall j :: j in Without(ks, k) <==> j in ks && j != k
  {
    if ks != [] {
      WithoutMembers(ks[1..], k);
      assert forall j :: j in ks <==> j == ks[0] || j in ks[1..];
    }
  }

  predicate Recreates(ds: seq<Decision>, k: string) {
    exists i :: 0 <= i < |ds| && ds[i].Recreate? && Trim(ds[i].key) == k
  }

  /** Only a recreate decision makes the ledger forget a key. */
  lemma {:induction false} ResolveKeepsImported(s: Resolution, ds: seq<Decision>, claimed: seq<ClaimedPage>, k: string)
    requires k in s.imported && !Recreates(ds, k)
    ensures k in ResolveAll(s, ds, claimed).imported
    decreases |ds|
  {
    if ds != [] {
      var init, d := ds[..|ds| - 1], ds[|ds| - 1];
      assert !Recreates(init, k) by { assert forall i :: 0 <= i < |init| ==> init[i] == ds[i]; }
      ResolveKeepsImported(s, init, claimed, k);
      WithoutMembers(ResolveAll(s, init, claimed).imported, Trim(d.key));
    }
  }

  lemma {:induction false} SyncKeepsImported(x: Input, n: nat, k: string)
    requires n <= |x.records| && k in x.ledger.imported
    ensures k in ImportedUpTo(x, n)
  {
    if n > 0 { SyncKeepsImported(x, n - 1, k); }
  }

  // ---------- histories ----------

  datatype Step =
    | DoSync(batch: Batch)
    | DoResolve(decisions: seq<Decision>, today: Day)
    | HumanWrite(path: Path, text: string)
    | HumanDelete(path: Path)
    | HumanMove(from: Path, to: Path)
    | SetIndexed(indexed: Indexed)

  function Apply(w: World, s: Step): World {
    match s
    case DoSync(b) => Sync(w, b)
    case DoResolve(ds, today) => ResolveCall(w, ds, today)
    case HumanWrite(p, text) => w.(brain := w.brain.(pages := w.brain.pages[p := text]))
    case HumanDelete(p) => w.(brain := w.brain.(pages := w.brain.pages - {p}))
    case HumanMove(from, to) =>
      if from in w.brain.pages then w.(brain := w.brain.(pages := (w.brain.pages - {from})[to := w.brain.pages[from]])) else w
    case SetIndexed(indexed) => w.(brain := w.brain.(indexed := indexed))
  }

  function After(w: World, ss: seq<Step>): World {
    if ss == [] then w else Apply(After(w, ss[..|ss| - 1]), ss[|ss| - 1])
  }

  predicate Forgets(s: Step, k: string) {
    s.DoResolve? && Recreates(s.decisions, k)
  }

  lemma StepKeepsImported(w: World, s: Step, k: string)
    requires k in w.ledger.imported && !Forgets(s, k)
    ensures k in Apply(w, s).ledger.imported
  {
    match s
    case DoSync(b) =>
      var x := InputOf(w, b);
      SyncKeepsImported(x, |x.records|, k);
    case DoResolve(ds, today) =>
      ResolveKeepsImported(Resolution(w.ledger.imported, w.ledger.suppressed, [], map[], {}, []), ds, FetchedFor(w.brain), k);
    case _ =>
  }

  lemma {:induction false} HistoryKeepsImported(w: World, ss: seq<Step>, k: string)
    requires k in w.ledger.imported
    requires forall i :: 0 <= i < |ss| ==> !Forgets(ss[i], k)
    ensures k in After(w, ss).ledger.imported
    decreases |ss|
  {
    hide Apply;
    if ss != [] {
      var init := ss[..|ss| - 1];
      assert forall i :: 0 <= i < |init| ==> init[i] == ss[i];
      HistoryKeepsImported(w, init, k);
      StepKeepsImported(After(w, init), ss[|ss| - 1], k);
    }
  }

  /** No record of the plan binds a page by a key that is read back as k. */
  predicate NoLookalike(p: Plan, k: string) {
    forall pw :: pw in p.writes && !pw.kind.Update? ==> k !in ReadKeys(pw.key)
  }

  /** NO RESURRECTION. Once a key is imported, and through any history of syncs, human
      edits, moves and deletes, settings, and decisions other than recreating it, a sync only
      ever updates a page that claims it: it creates or adopts no page for the key, and when
      no page claims it, writes nothing for it and asks instead. Nor does a page come to claim
      it by the sync's own writes, unless by a new key that is read back as this one. */
  lemma NoResurrection(w: World, ss: seq<Step>, b: Batch, k: string)
    requires k in w.ledger.imported
    requires forall i :: 0 <= i < |ss| ==> !Forgets(ss[i], k)
    requires !OwnsReserved(b)
    ensures var now := After(w, ss);
      var p := PlanOf(InputOf(now, b));
      && (forall pw :: pw in p.writes && pw.key == k ==> pw.kind.Update? && Claims(now.brain, pw.path, k))
      && ((forall q :: !Claims(now.brain, q, k)) ==>
            && (forall pw :: pw in p.writes ==> pw.key != k)
            && (Calm(now, b) && NoLookalike(p, k) ==> forall q :: !Claims(Sync(now, b).brain, q, k)))
  {
    hide After, PlanOf, Claims, ApplyWrites, OutcomeOf, KeysOf, NoLookalike, Calm;
    HistoryKeepsImported(w, ss, k);
    var now := After(w, ss);
    forall pw | pw in PlanOf(InputOf(now, b)).writes && pw.key == k
      ensures pw.kind.Update? && Claims(now.brain, pw.path, k)
    {
      ImportedKeyWrites(now, b, k, pw);
    }
    if (forall q :: !Claims(now.brain, q, k)) && Calm(now, b) && NoLookalike(PlanOf(InputOf(now, b)), k) {
      forall q ensures !Claims(Sync(now, b).brain, q, k) {
        NoNewClaim(now, b, k, q);
      }
    }
  }

  lemma ImportedKeyWrites(w: World, b: Batch, k: string, pw: PlannedWrite)
    requires !OwnsReserved(b) && k in w.ledger.imported
    requires pw in PlanOf(InputOf(w, b)).writes && pw.key == k
    ensures pw.kind.Update? && Claims(w.brain, pw.path, k)
  {
    hide PlanOf, Trim, IsRecordPath, Moved, Merged, KeysAt, ClaimedOf, PageByKey, BindingSeen, ReadPage,
      CreatedPage, UpdatedPage, AdoptedPage, MayWrite;
    var i := WriteOf(InputOf(w, b), pw);
    WriteRespects(w, b, i, pw);
    Resolved(w.brain, KeyOf(InputOf(w, b).records[i]));
  }

  lemma NoNewClaim(w: World, b: Batch, k: string, q: Path)
    requires !OwnsReserved(b) && !Claims(w.brain, q, k) && Calm(w, b)
    requires NoLookalike(PlanOf(InputOf(w, b)), k)
    ensures !Claims(Sync(w, b).brain, q, k)
  {
    hide PlanOf, OutcomeOf, KeysOf, BindingSeen, MayWrite, CreatedPage, UpdatedPage, AdoptedPage, ReadPage,
      PageText, CalmWrite, ReadKeys, TameFront, KeyOf;
    var ws := PlanOf(InputOf(w, b)).writes;
    ApplyAt(w.brain, ws, q);
    var after := ApplyWrites(w.brain, ws);
    if q in after.pages && !(q in w.brain.pages && after.pages[q] == w.brain.pages[q]) {
      var pw :| pw in ws && pw.path == q && after.pages[q] == PageText(pw.page);
      var i := WriteOf(InputOf(w, b), pw);
      WriteRespects(w, b, i, pw);
      WriteClaims(w, b, i, pw);
    }
  }
}
