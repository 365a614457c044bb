/** One read of the content index, its two bounded slices and a write-through (src/lib/brain-index.ts). */
module ContentIndex {
  // The functions here say what each request does to the database; IndexStore.dfy runs the same
  // requests on mutable tables and IndexRuns.dfy follows them over whole histories.

  import opened Options
  import opened Paths
  import opened IndexTables

  const REBUILD_PAGE_BUDGET: nat := 300
  const REINDEX_PAGE_BUDGET: nat := 600
  const BATCH_CHUNK: nat := 40
  const MAX_SCAN_PAGES: nat := 5000

  type Commit = nat

  datatype Entry = Entry(path: Path, blob: Blob)

  /** The settings and code that shape rows: which paths are pages, and what is
      derived from a page's text. */
  datatype Rules = Rules(isPage: Path -> bool, derive: Derive)

  datatype Meta = Meta(commit: Option<Commit>, truncated: bool, version: nat, cursor: Option<Path>)
  datatype Db = Db(tables: Tables, meta: Option<Meta>)

  // ---------- the tree of a commit ----------

  predicate Distinct(es: seq<Entry>) {
    forall i, j :: 0 <= i < j < |es| ==> es[i].path != es[j].path
  }

  function BlobAt(es: seq<Entry>, p: Path): Option<Blob> {
    if es == [] then None else if es[0].path == p then Some(es[0].blob) else BlobAt(es[1..], p)
  }

  function Select(es: seq<Entry>, keep: Entry -> bool): seq<Entry> {
    if es == [] then []
    else (if keep(es[0]) then [es[0]] else []) + Select(es[1..], keep)
  }

  lemma {:induction false} SelectMembers(es: seq<Entry>, keep: Entry -> bool)
    ensures forall e :: e in Select(es, keep) <==> e in es && keep(e)
    ensures |Select(es, keep)| <= |es|
    ensures Distinct(es) ==> Distinct(Select(es, keep))
  {
    if es != [] {
      SelectMembers(es[1..], keep);
      var rest := Select(es[1..], keep);
      assert forall e :: e in es <==> e == es[0] || e in es[1..];
      if Distinct(es) {
        assert Distinct(es[1..]);
        forall e | e in rest ensures e.path != es[0].path {
          assert e in es[1..];
          var i :| 0 <= i < |es[1..]| && es[1..][i] == e;
          assert es[i + 1] == e;
        }
      }
    }
  }

  lemma {:induction false} BlobAtEntry(es: seq<Entry>, e: Entry)
    requires Distinct(es) && e in es
    ensures BlobAt(es, e.path) == Some(e.blob)
  {
    if es[0] != e {
      var i :| 0 <= i < |es| && es[i] == e;
      assert es[1..][i - 1] == e;
      BlobAtEntry(es[1..], e);
    }
  }

  lemma {:induction false} EntryOfBlob(es: seq<Entry>, p: Path)
    ensures BlobAt(es, p).Some? ==> Entry(p, BlobAt(es, p).value) in es
    ensures BlobAt(es, p).None? ==> forall e :: e in es ==> e.path != p
  {
    if es != [] && es[0].path != p {
      EntryOfBlob(es[1..], p);
      assert forall e :: e in es <==> e == es[0] || e in es[1..];
    }
  }

  function OnPages(rules: Rules): Entry -> bool {
    (e: Entry) => rules.isPage(e.path)
  }

  /** The tree's content pages, as the read filters them. */
  function PagesOf(tree: seq<Entry>, rules: Rules): seq<Entry> {
    Select(tree, OnPages(rules))
  }

  /** The rows a from-scratch build of a tree holds for one path. */
  function WantOf(rules: Rules, p: Path, b: Option<Blob>): Slice {
    if b.Some? && b.value.Text? && rules.isPage(p)
    then PageSlice(b.value.content, b.value, rules.derive(p, b.value.content))
    else EmptySlice
  }

  function Want(tree: seq<Entry>, rules: Rules, p: Path): Slice {
    WantOf(rules, p, BlobAt(tree, p))
  }

  /** The stored rows are exactly those of a from-scratch build of this tree. */
  ghost predicate Truthful(t: Tables, tree: seq<Entry>, rules: Rules) {
    forall p :: At(t, p) == Want(tree, rules, p)
  }

  // ---------- one reindex slice ----------

  predicate Stored(t: Tables, e: Entry) {
    e.path in t.pages && t.pages[e.path].blob == e.blob
  }

  function NotStored(t: Tables): Entry -> bool {
    (e: Entry) => !Stored(t, e)
  }

  predicate HasText(e: Entry) {
    e.blob.Text?
  }

  /** Entries whose blob is not the stored one, in tree order. */
  function Changed(t: Tables, es: seq<Entry>): seq<Entry> {
    Select(es, NotStored(t))
  }

  function PathsOf(es: seq<Entry>): set<Path> {
    set e | e in es :: e.path
  }

  function Removed(t: Tables, es: seq<Entry>): seq<Path> {
    Ascending(t.pages.Keys - PathsOf(es))
  }

  function Budgeted(es: seq<Entry>): seq<Entry> {
    if |es| <= REINDEX_PAGE_BUDGET then es else es[..REINDEX_PAGE_BUDGET]
  }

  /** The entries that come back with text. */
  function Fetched(es: seq<Entry>): seq<Entry> {
    Select(es, HasText)
  }

  function DropGroups(ps: seq<Path>): (gs: seq<Group>)
    ensures |gs| == |ps| && forall i :: 0 <= i < |ps| ==> gs[i] == Group(ps[i], DropGroup(ps[i]))
  {
    seq(|ps|, i requires 0 <= i < |ps| => Group(ps[i], DropGroup(ps[i])))
  }

  function PageGroupOf(e: Entry, derive: Derive): Group
    requires e.blob.Text?
  {
    Group(e.path, PageGroup(e.path, e.blob.content, e.blob, derive(e.path, e.blob.content)))
  }

  function PageGroups(es: seq<Entry>, derive: Derive): (gs: seq<Group>)
    requires forall e :: e in es ==> e.blob.Text?
    ensures |gs| == |es| && forall i :: 0 <= i < |es| ==> gs[i] == PageGroupOf(es[i], derive)
  {
    seq(|es|, i requires 0 <= i < |es| => PageGroupOf(es[i], derive))
  }

  /** The statements of one incremental reindex, page by page. */
  function ReindexGroups(t: Tables, es: seq<Entry>, derive: Derive): seq<Group> {
    SelectMembers(Budgeted(Changed(t, es)), HasText);
    DropGroups(Removed(t, es)) + PageGroups(Fetched(Budgeted(Changed(t, es))), derive)
  }

  function Reindex(t: Tables, es: seq<Entry>, derive: Derive): Tables {
    ExecAll(t, Flatten(ReindexGroups(t, es, derive)))
  }

  predicate Complete(t: Tables, es: seq<Entry>) {
    |Changed(t, es)| <= REINDEX_PAGE_BUDGET
  }

  /** The entries one slice writes: changed, within the budget, readable. */
  function Written(t: Tables, es: seq<Entry>): seq<Entry> {
    Fetched(Budgeted(Changed(t, es)))
  }

  lemma WrittenMembers(t: Tables, es: seq<Entry>)
    requires Distinct(es)
    ensures Distinct(Written(t, es)) && Distinct(Changed(t, es))
    ensures forall e :: e in Written(t, es) ==> e in es && !Stored(t, e) && e.blob.Text?
    ensures Complete(t, es) ==>
      forall e :: e in es && !Stored(t, e) && e.blob.Text? ==> e in Written(t, es)
  {
    SelectMembers(es, NotStored(t));
    var c := Changed(t, es);
    assert forall e :: e in Budgeted(c) ==> e in c;
    SelectMembers(Budgeted(c), HasText);
  }

  lemma PageGroupsPaths(es: seq<Entry>, derive: Derive, i: nat)
    requires (forall e :: e in es ==> e.blob.Text?) && i < |es|
    ensures var g := PageGroups(es, derive)[i]; Concerns(g.stmts, g.path) && g.path == es[i].path
  {
    var e := es[i];
    assert e in es;
    PageGroupConcerns(e.path, e.blob.content, e.blob, derive(e.path, e.blob.content));
  }

  lemma PageGroupConcerns(p: Path, content: string, blob: Blob, d: Derived)
    ensures Concerns(PageGroup(p, content, blob, d), p)
  {
  }

  lemma ReindexGroupsShape(t: Tables, es: seq<Entry>, derive: Derive)
    requires Distinct(es)
    ensures var gs := ReindexGroups(t, es, derive);
      && AllConcern(gs)
      && (forall i, j :: 0 <= i < j < |gs| ==> gs[i].path != gs[j].path)
  {
    hide *;
    WrittenMembers(t, es);
    TwoParts(t, es, derive);
    RemovedAre(t, es);
    DropsApart(Removed(t, es), PathsOf(es));
    WritesApart(Written(t, es), es, derive);
    PartsApart(DropGroups(Removed(t, es)), PageGroups(Written(t, es), derive), PathsOf(es));
    AreApart(ReindexGroups(t, es, derive));
  }

  lemma AreApart(gs: seq<Group>)
    requires Apart(gs)
    ensures AllConcern(gs) && forall i, j :: 0 <= i < j < |gs| ==> gs[i].path != gs[j].path
  {
    hide AllConcern;
  }

  lemma TwoParts(t: Tables, es: seq<Entry>, derive: Derive)
    ensures forall e :: e in Written(t, es) ==> e.blob.Text?
    ensures ReindexGroups(t, es, derive) == DropGroups(Removed(t, es)) + PageGroups(Written(t, es), derive)
  {
    hide Changed, Removed;
    SelectMembers(Budgeted(Changed(t, es)), HasText);
  }

  /** Groups that each concern their own path, no two of them the same. */
  ghost predicate Apart(gs: seq<Group>) {
    AllConcern(gs) && forall i, j :: 0 <= i < j < |gs| ==> gs[i].path != gs[j].path
  }

  lemma RemovedAre(t: Tables, es: seq<Entry>)
    ensures Increasing(Removed(t, es)) && forall p :: p in Removed(t, es) ==> p !in PathsOf(es)
  {
  }

  lemma DropConcerns(p: Path)
    ensures Concerns(DropGroup(p), p)
  {
  }

  lemma DropsApart(ps: seq<Path>, paths: set<Path>)
    requires Increasing(ps) && forall p :: p in ps ==> p !in paths
    ensures Apart(DropGroups(ps)) && forall g :: g in DropGroups(ps) ==> g.path !in paths
  {
    hide Less, DropGroup, Concerns;
    var ds := DropGroups(ps);
    forall i | 0 <= i < |ds| ensures Concerns(ds[i].stmts, ds[i].path) && ds[i].path !in paths {
      DropConcerns(ps[i]);
      assert ps[i] in ps;
    }
    forall i, j | 0 <= i < j < |ds| ensures ds[i].path != ds[j].path {
      assert Less(ps[i], ps[j]);
      LessIrreflexive(ps[i]);
    }
  }

  lemma WritesApart(ws: seq<Entry>, es: seq<Entry>, derive: Derive)
    requires Distinct(ws) && forall e :: e in ws ==> e in es && e.blob.Text?
    ensures var gs := PageGroups(ws, derive); Apart(gs) && forall g :: g in gs ==> g.path in PathsOf(es)
  {
    hide PageGroupOf, PageGroup, Concerns;
    var gs := PageGroups(ws, derive);
    forall i | 0 <= i < |gs| ensures Concerns(gs[i].stmts, gs[i].path) && gs[i].path == ws[i].path && gs[i].path in PathsOf(es) {
      PageGroupsPaths(ws, derive, i);
      assert ws[i] in ws;
    }
  }

  lemma PartsApart(ds: seq<Group>, gs: seq<Group>, paths: set<Path>)
    requires Apart(ds) && Apart(gs)
    requires (forall g :: g in ds ==> g.path !in paths) && forall g :: g in gs ==> g.path in paths
    ensures Apart(ds + gs)
  {
    hide Concerns;
  }

  /** A planned drop clears its page on whatever tables it reaches. */
  lemma DroppedRowOver(t: Tables, u: Tables, es: seq<Entry>, derive: Derive, p: Path)
    requires Distinct(es) && p in t.pages && p !in PathsOf(es)
    ensures At(ExecAll(u, Flatten(ReindexGroups(t, es, derive))), p) == EmptySlice
  {
    var gs := ReindexGroups(t, es, derive);
    ReindexGroupsShape(t, es, derive);
    FlattenAt(u, gs, p);
    assert p in Removed(t, es);
    var i :| 0 <= i < |Removed(t, es)| && Removed(t, es)[i] == p;
    OnPathOnce(At(u, p), gs, i);
    DropGroupEffect(u, p);
    ExecAllAt(u, DropGroup(p), p);
  }

  /** A page the tree no longer has loses all its rows. */
  lemma ReindexDrops(t: Tables, es: seq<Entry>, derive: Derive, p: Path)
    requires Distinct(es) && p in t.pages && p !in PathsOf(es)
    ensures At(Reindex(t, es, derive), p) == EmptySlice
  {
    DroppedRowOver(t, t, es, derive, p);
  }

  lemma WrittenGroup(t: Tables, es: seq<Entry>, derive: Derive, i: nat)
    requires i < |Written(t, es)| && Written(t, es)[i].blob.Text?
    ensures var gs, k := ReindexGroups(t, es, derive), |Removed(t, es)| + i;
      k < |gs| && gs[k] == PageGroupOf(Written(t, es)[i], derive)
  {
    hide PageGroupOf, Removed, Fetched, Budgeted, Changed;
  }

  /** A planned page group lands whole on whatever tables it reaches. */
  lemma WrittenRowOver(t: Tables, u: Tables, es: seq<Entry>, derive: Derive, e: Entry)
    requires Distinct(es) && e in Written(t, es)
    ensures e.blob.Text?
    ensures At(ExecAll(u, Flatten(ReindexGroups(t, es, derive))), e.path)
         == PageSlice(e.blob.content, e.blob, derive(e.path, e.blob.content))
  {
    hide PageGroup, PageSlice, Changed, Less, Stored, ExecAll, Flatten, ReindexGroups, OnPath, Removed, Written;
    var gs, ps, ws := ReindexGroups(t, es, derive), Removed(t, es), Written(t, es);
    WrittenMembers(t, es);
    ReindexGroupsShape(t, es, derive);
    FlattenAt(u, gs, e.path);
    var i :| 0 <= i < |ws| && ws[i] == e;
    WrittenGroup(t, es, derive, i);
    OnPathOnce(At(u, e.path), gs, |ps| + i);
    PageGroupSlices(At(u, e.path), e.path, e.blob.content, e.blob, derive(e.path, e.blob.content));
  }

  /** A written entry ends with exactly its own rows. */
  lemma ReindexWrites(t: Tables, es: seq<Entry>, derive: Derive, e: Entry)
    requires Distinct(es) && e in Written(t, es)
    ensures e.blob.Text?
    ensures At(Reindex(t, es, derive), e.path)
         == PageSlice(e.blob.content, e.blob, derive(e.path, e.blob.content))
  {
    WrittenRowOver(t, t, es, derive, e);
  }

  /** A path in no planned group keeps whatever rows the tables have. */
  lemma KeptRowOver(t: Tables, u: Tables, es: seq<Entry>, derive: Derive, p: Path)
    requires Distinct(es)
    requires p in t.pages ==> p in PathsOf(es)
    requires forall e :: e in Written(t, es) ==> e.path != p
    ensures At(ExecAll(u, Flatten(ReindexGroups(t, es, derive))), p) == At(u, p)
  {
    var gs := ReindexGroups(t, es, derive);
    var ps, ws := Removed(t, es), Written(t, es);
    WrittenMembers(t, es);
    ReindexGroupsShape(t, es, derive);
    FlattenAt(u, gs, p);
    forall i | 0 <= i < |gs| ensures gs[i].path != p {
      if i < |ps| {
        assert ps[i] in ps;
      } else {
        assert ws[i - |ps|] in ws;
      }
    }
    OnPathElsewhere(At(u, p), gs, p);
  }

  /** Every other path keeps its rows. */
  lemma ReindexKeeps(t: Tables, es: seq<Entry>, derive: Derive, p: Path)
    requires Distinct(es)
    requires p in t.pages ==> p in PathsOf(es)
    requires forall e :: e in Written(t, es) ==> e.path != p
    ensures At(Reindex(t, es, derive), p) == At(t, p)
  {
    KeptRowOver(t, t, es, derive, p);
  }

  // ---------- one rebuild slice ----------

  function Remaining(t: Tables, cursor: Option<Path>): set<Path> {
    set p | p in t.pages && Passed(cursor, p)
  }

  /** The stored pages one slice recomputes: the first ones after the cursor. */
  function RebuildPaths(t: Tables, cursor: Option<Path>): seq<Path> {
    var r := Ascending(Remaining(t, cursor));
    if |r| <= REBUILD_PAGE_BUDGET then r else r[..REBUILD_PAGE_BUDGET]
  }

  function RederiveGroups(t: Tables, ps: seq<Path>, derive: Derive): (gs: seq<Group>)
    requires forall p :: p in ps ==> p in t.pages
    ensures |gs| == |ps|
    ensures forall i :: 0 <= i < |ps| ==>
      gs[i] == Group(ps[i], RederiveGroup(ps[i], derive(ps[i], t.pages[ps[i]].content)))
  {
    seq(|ps|, i requires 0 <= i < |ps| =>
      Group(ps[i], RederiveGroup(ps[i], derive(ps[i], t.pages[ps[i]].content))))
  }

  function RebuildGroups(t: Tables, derive: Derive, cursor: Option<Path>): seq<Group> {
    assert forall p :: p in RebuildPaths(t, cursor) ==> p in Ascending(Remaining(t, cursor));
    RederiveGroups(t, RebuildPaths(t, cursor), derive)
  }

  function Rebuild(t: Tables, derive: Derive, cursor: Option<Path>): Tables {
    ExecAll(t, Flatten(RebuildGroups(t, derive, cursor)))
  }

  /** Where the next slice resumes; None once this one reached the end. */
  function NextCursor(t: Tables, cursor: Option<Path>): Option<Path> {
    var ps := RebuildPaths(t, cursor);
    if |ps| < REBUILD_PAGE_BUDGET then None else Some(ps[|ps| - 1])
  }

  lemma RebuildPathsMembers(t: Tables, cursor: Option<Path>)
    ensures forall p :: p in RebuildPaths(t, cursor) ==> p in t.pages && Passed(cursor, p)
    ensures Increasing(RebuildPaths(t, cursor))
    ensures forall p :: p in Remaining(t, cursor) ==>
      p in RebuildPaths(t, cursor) || (NextCursor(t, cursor).Some? && Less(NextCursor(t, cursor).value, p))
    ensures forall p :: p in RebuildPaths(t, cursor) ==> NextCursor(t, cursor).Some? ==>
      !Less(NextCursor(t, cursor).value, p)
  {
    var r := Ascending(Remaining(t, cursor));
    var ps := RebuildPaths(t, cursor);
    assert forall p :: p in ps ==> p in r;
    forall p | p in Remaining(t, cursor)
      ensures p in ps || (NextCursor(t, cursor).Some? && Less(NextCursor(t, cursor).value, p))
    {
      var i :| 0 <= i < |r| && r[i] == p;
      if i < |ps| {
        assert ps[i] == p;
      } else {
        assert Less(r[|ps| - 1], r[i]);
      }
    }
    forall p | p in ps && NextCursor(t, cursor).Some?
      ensures !Less(NextCursor(t, cursor).value, p)
    {
      var i :| 0 <= i < |ps| && ps[i] == p;
      var last := ps[|ps| - 1];
      LessIrreflexive(p);
      if i < |ps| - 1 && Less(last, p) {
        LessTransitive(last, p, last);
        LessIrreflexive(last);
      }
    }
  }

  lemma RebuildGroupsShape(t: Tables, derive: Derive, cursor: Option<Path>)
    ensures var gs := RebuildGroups(t, derive, cursor);
      && AllConcern(gs)
      && (forall i, j :: 0 <= i < j < |gs| ==> gs[i].path != gs[j].path)
  {
    var gs, ps := RebuildGroups(t, derive, cursor), RebuildPaths(t, cursor);
    RebuildPathsMembers(t, cursor);
    forall i | 0 <= i < |gs| ensures Concerns(gs[i].stmts, gs[i].path) {
      assert ps[i] in ps;
      RederiveGroupEffect(t, ps[i], derive(ps[i], t.pages[ps[i]].content));
    }
    forall i, j | 0 <= i < j < |gs| ensures gs[i].path != gs[j].path {
      assert Less(ps[i], ps[j]);
      LessIrreflexive(ps[i]);
    }
  }

  /** A page in the slice is recomputed from its stored text; every other path is left alone. */
  lemma RebuildAt(t: Tables, derive: Derive, cursor: Option<Path>, p: Path)
    ensures p in RebuildPaths(t, cursor) ==> p in t.pages
    ensures At(Rebuild(t, derive, cursor), p)
         == if p in RebuildPaths(t, cursor)
            then PageSlice(t.pages[p].content, t.pages[p].blob, derive(p, t.pages[p].content))
            else At(t, p)
  {
    var gs, ps := RebuildGroups(t, derive, cursor), RebuildPaths(t, cursor);
    RebuildGroupsShape(t, derive, cursor);
    RebuildPathsMembers(t, cursor);
    FlattenAt(t, gs, p);
    if p in ps {
      var i :| 0 <= i < |ps| && ps[i] == p;
      OnPathOnce(At(t, p), gs, i);
      RederiveGroupEffect(t, p, derive(p, t.pages[p].content));
      ExecAllAt(t, RederiveGroup(p, derive(p, t.pages[p].content)), p);
    } else {
      OnPathElsewhere(At(t, p), gs, p);
    }
  }

  /** WHAT ONE READ TAKES ON. A rebuild slice is the first three hundred of the stored pages past the cursor, and
      the last one is that with fewer; a reindex slice fetches the first six hundred of the changed pages, and is
      complete when those are all. */
  lemma SliceSizes(t: Tables, es: seq<Entry>, cursor: Option<Path>)
    ensures var rest, changed := Ascending(Remaining(t, cursor)), Changed(t, es);
      && RebuildPaths(t, cursor) == rest[..if |rest| < 300 then |rest| else 300]
      && (NextCursor(t, cursor).None? <==> |rest| < 300)
      && Budgeted(changed) == changed[..if |changed| < 600 then |changed| else 600]
      && (Complete(t, es) <==> |changed| <= 600)
  {
    hide Changed, Remaining;
    var rest, changed := Ascending(Remaining(t, cursor)), Changed(t, es);
    assert rest[..|rest|] == rest && changed[..|changed|] == changed;
  }

  // ---------- ensureFresh ----------

  /** The first build: the wipe, then up to one budget of pages. */
  function FirstBuildGroups(es: seq<Entry>, derive: Derive): seq<Group> {
    SelectMembers(Budgeted(es), HasText);
    PageGroups(Fetched(Budgeted(es)), derive)
  }

  const WIPE: seq<Stmt> := [WipePages, WipeLinks, WipeFields]

  function FirstBuild(t: Tables, es: seq<Entry>, derive: Derive): Tables {
    ExecAll(t, WIPE + Flatten(FirstBuildGroups(es, derive)))
  }

  lemma {:induction false} SelectAll(es: seq<Entry>, keep: Entry -> bool)
    requires forall e :: e in es ==> keep(e)
    ensures Select(es, keep) == es
  {
    if es != [] { SelectAll(es[1..], keep); }
  }

  lemma WipedIsEmpty(t: Tables)
    ensures ExecAll(t, WIPE) == NoRows
  {
    assert WIPE == [WipePages] + ([WipeLinks] + [WipeFields]);
    ExecAllAppend(t, [WipePages], [WipeLinks] + [WipeFields]);
    ExecAllAppend(Exec(t, WipePages), [WipeLinks], [WipeFields]);
  }

  /** The first build is a reindex of empty tables. */
  lemma FirstIsReindex(t: Tables, es: seq<Entry>, derive: Derive)
    ensures Changed(NoRows, es) == es
    ensures FirstBuild(t, es, derive) == Reindex(NoRows, es, derive)
  {
    hide ExecAll, Flatten, Select;
    SelectAll(es, NotStored(NoRows));
    WipedIsEmpty(t);
    ExecAllAppend(t, WIPE, Flatten(FirstBuildGroups(es, derive)));
    assert Removed(NoRows, es) == [];
    assert ReindexGroups(NoRows, es, derive) == FirstBuildGroups(es, derive);
  }

  /** One read, run to its end: reconcile with the branch tip, within the budgets. */
  function Read(db: Db, head: Commit, tree: seq<Entry>, rules: Rules, version: nat): Db {
    if db.meta.Some? && db.meta.value.commit == Some(head) then
      var m := db.meta.value;
      if m.version < version then
        var next := NextCursor(db.tables, m.cursor);
        Db(Rebuild(db.tables, rules.derive, m.cursor),
           Some(m.(version := if next.None? then version else m.version, cursor := next)))
      else db
    else
      var es := PagesOf(tree, rules);
      var truncated := |es| > MAX_SCAN_PAGES;
      match db.meta
      case None =>
        Db(FirstBuild(db.tables, es, rules.derive),
           Some(Meta(if |es| <= REINDEX_PAGE_BUDGET then Some(head) else None, truncated, version, None)))
      case Some(m) =>
        var t := Reindex(db.tables, es, rules.derive);
        var commit := if Complete(db.tables, es) then Some(head) else m.commit;
        if m.version < version then
          var next := NextCursor(t, m.cursor);
          Db(Rebuild(t, rules.derive, m.cursor),
             Some(Meta(commit, truncated, if next.None? then version else m.version, next)))
        else
          Db(t, Some(Meta(commit, truncated, version, None)))
  }

  /** The index says it is current for this commit: what a read trusts. */
  predicate Current(db: Db, head: Commit, version: nat) {
    && db.meta.Some? && db.meta.value.commit == Some(head)
    && db.meta.value.version == version && db.meta.value.cursor.None?
  }

  /** Each stored row is derived, in full and by the running code, from its own blob,
      and no other link or field rows exist. */
  ghost predicate Coherent(t: Tables, derive: Derive) {
    forall p :: RowOk(t, p, derive)
  }

  ghost predicate RowOk(t: Tables, p: Path, derive: Derive) {
    match PageAt(t, p)
    case None => At(t, p) == EmptySlice
    case Some(row) =>
      row.blob == Text(row.content) && At(t, p) == PageSlice(row.content, row.blob, derive(p, row.content))
  }

  lemma PagesOfMembers(tree: seq<Entry>, rules: Rules)
    ensures forall e :: e in PagesOf(tree, rules) <==> e in tree && rules.isPage(e.path)
    ensures Distinct(tree) ==> Distinct(PagesOf(tree, rules))
  {
    SelectMembers(tree, OnPages(rules));
  }

  lemma WantFromEntry(tree: seq<Entry>, rules: Rules, e: Entry)
    requires Distinct(tree) && e in PagesOf(tree, rules) && e.blob.Text?
    ensures Want(tree, rules, e.path)
         == PageSlice(e.blob.content, e.blob, rules.derive(e.path, e.blob.content))
  {
    PagesOfMembers(tree, rules);
    BlobAtEntry(tree, e);
  }

  lemma WantNothing(tree: seq<Entry>, rules: Rules, p: Path)
    requires Distinct(tree)
    requires forall e :: e in PagesOf(tree, rules) && e.path == p ==> !e.blob.Text?
    ensures Want(tree, rules, p) == EmptySlice
  {
    PagesOfMembers(tree, rules);
    EntryOfBlob(tree, p);
  }

  /** No stored page has become a blob without text. Such a page is neither fetched
      nor missing from the tree, so a reindex leaves its old rows in place. */
  predicate NoLostText(t: Tables, es: seq<Entry>) {
    forall e :: e in es && e.path in t.pages ==> e.blob.Text?
  }

  /** The pages whose blob did not change derive the same rows under both rules. */
  predicate SameOnUnchanged(t: Tables, es: seq<Entry>, was: Derive, now: Derive) {
    forall e :: e in es && Stored(t, e) && e.blob.Text? ==>
      PageSlice(e.blob.content, e.blob, was(e.path, e.blob.content))
      == PageSlice(e.blob.content, e.blob, now(e.path, e.blob.content))
  }

  /** A reindex that fits its budget, over rows derived under `was`, leaves exactly a
      from-scratch build in two cases only ruled out by what it does not look at: a
      stored page that lost its text keeps its rows, and an unchanged blob keeps rows
      derived under the old settings. */
  lemma CompleteReindexTruthful(t: Tables, tree: seq<Entry>, rules: Rules, was: Derive)
    requires Distinct(tree) && Coherent(t, was)
    requires Complete(t, PagesOf(tree, rules))
    ensures Truthful(Reindex(t, PagesOf(tree, rules), rules.derive), tree, rules)
        <==> (NoLostText(t, PagesOf(tree, rules))
              && SameOnUnchanged(t, PagesOf(tree, rules), was, rules.derive))
  {
    var es := PagesOf(tree, rules);
    PagesOfMembers(tree, rules);
    if NoLostText(t, es) && SameOnUnchanged(t, es, was, rules.derive) {
      forall p ensures At(Reindex(t, es, rules.derive), p) == Want(tree, rules, p) {
        ReindexedRow(t, tree, rules, was, p);
      }
    } else if e :| e in es && e.path in t.pages && !e.blob.Text? {
      UnwrittenEntry(t, es, rules.derive, e);
      BlobAtEntry(tree, e);
      assert At(Reindex(t, es, rules.derive), e.path) != Want(tree, rules, e.path);
    } else {
      var e :| e in es && Stored(t, e) && e.blob.Text?
        && PageSlice(e.blob.content, e.blob, was(e.path, e.blob.content))
           != PageSlice(e.blob.content, e.blob, rules.derive(e.path, e.blob.content));
      UnwrittenEntry(t, es, rules.derive, e);
      WantFromEntry(tree, rules, e);
      assert RowOk(t, e.path, was);
      assert At(Reindex(t, es, rules.derive), e.path) != Want(tree, rules, e.path);
    }
  }

  /** A stored or unreadable entry of the tree keeps its path's rows. */
  lemma UnwrittenEntry(t: Tables, es: seq<Entry>, derive: Derive, e: Entry)
    requires Distinct(es) && e in es && (Stored(t, e) || !e.blob.Text?)
    ensures At(Reindex(t, es, derive), e.path) == At(t, e.path)
  {
    WrittenMembers(t, es);
    forall x | x in Written(t, es) ensures x.path != e.path {
      if x.path == e.path {
        BlobAtEntry(es, x);
        BlobAtEntry(es, e);
      }
    }
    ReindexKeeps(t, es, derive, e.path);
  }

  /** What a reindex within its budget leaves at one path. */
  lemma ReindexedRow(t: Tables, tree: seq<Entry>, rules: Rules, was: Derive, p: Path)
    requires Distinct(tree) && RowOk(t, p, was)
    requires Complete(t, PagesOf(tree, rules)) && NoLostText(t, PagesOf(tree, rules))
    requires SameOnUnchanged(t, PagesOf(tree, rules), was, rules.derive)
    ensures At(Reindex(t, PagesOf(tree, rules), rules.derive), p) == Want(tree, rules, p)
  {
    var es := PagesOf(tree, rules);
    PagesOfMembers(tree, rules);
    WrittenMembers(t, es);
    if p in t.pages && p !in PathsOf(es) {
      ReindexDrops(t, es, rules.derive, p);
      WantNothing(tree, rules, p);
    } else if e :| e in Written(t, es) && e.path == p {
      ReindexWrites(t, es, rules.derive, e);
      WantFromEntry(tree, rules, e);
    } else {
      ReindexKeeps(t, es, rules.derive, p);
      if p in t.pages {
        var e :| e in es && e.path == p;
        assert Stored(t, e);
        WantFromEntry(tree, rules, e);
      } else {
        WantNothing(tree, rules, p);
      }
    }
  }

  lemma TruthfulIsCoherent(t: Tables, tree: seq<Entry>, rules: Rules)
    requires Truthful(t, tree, rules)
    ensures Coherent(t, rules.derive)
  {
    forall p ensures RowOk(t, p, rules.derive) {
      assert At(t, p) == Want(tree, rules, p);
    }
  }

  /** A reindex slice keeps an index truthful for the tree it described before exactly
      when the slice has nothing to write and nothing to drop. */
  lemma SliceLeavesPrior(t: Tables, es: seq<Entry>, prior: seq<Entry>, rules: Rules)
    requires Distinct(es) && Truthful(t, prior, rules)
    ensures Truthful(Reindex(t, es, rules.derive), prior, rules)
        <==> (Written(t, es) == [] && Removed(t, es) == [])
  {
    var u := Reindex(t, es, rules.derive);
    WrittenMembers(t, es);
    if Written(t, es) != [] {
      var e := Written(t, es)[0];
      ReindexWrites(t, es, rules.derive, e);
      assert At(t, e.path) == Want(prior, rules, e.path);
      assert At(u, e.path) != At(t, e.path);
    } else if Removed(t, es) != [] {
      var p := Removed(t, es)[0];
      assert p in Removed(t, es);
      ReindexDrops(t, es, rules.derive, p);
      assert At(t, p) == Want(prior, rules, p);
      assert At(u, p) != At(t, p);
    } else {
      forall p ensures At(u, p) == Want(prior, rules, p) {
        assert p in t.pages ==> p in PathsOf(es) by {
          assert p !in Removed(t, es);
        }
        ReindexKeeps(t, es, rules.derive, p);
      }
    }
  }

  /** A rebuild slice changes nothing where the rows are already what the code derives. */
  lemma RebuildOfCoherent(t: Tables, derive: Derive, cursor: Option<Path>, p: Path)
    requires Coherent(t, derive)
    ensures At(Rebuild(t, derive, cursor), p) == At(t, p)
  {
    hide RebuildPaths, PageSlice, Rebuild;
    RebuildAt(t, derive, cursor, p);
    assert RowOk(t, p, derive);
  }

  /** A reindex slice keeps every row derived from its own blob. */
  lemma ReindexCoherent(t: Tables, es: seq<Entry>, derive: Derive)
    requires Distinct(es) && Coherent(t, derive)
    ensures Coherent(Reindex(t, es, derive), derive)
  {
    hide PageSlice, Removed, Written, Reindex;
    var u := Reindex(t, es, derive);
    WrittenMembers(t, es);
    forall p ensures RowOk(u, p, derive) {
      assert RowOk(t, p, derive);
      if p in t.pages && p !in PathsOf(es) {
        ReindexDrops(t, es, derive, p);
        assert PageAt(u, p) == At(u, p).page;
      } else if e :| e in Written(t, es) && e.path == p {
        ReindexWrites(t, es, derive, e);
        WrittenRowOk(u, derive, e);
      } else {
        ReindexKeeps(t, es, derive, p);
        assert PageAt(u, p) == At(u, p).page;
        assert PageAt(t, p) == At(t, p).page;
      }
    }
  }

  lemma WrittenRowOk(u: Tables, derive: Derive, e: Entry)
    requires e.blob.Text? && At(u, e.path) == PageSlice(e.blob.content, e.blob, derive(e.path, e.blob.content))
    ensures RowOk(u, e.path, derive)
  {
    assert PageAt(u, e.path) == At(u, e.path).page;
  }

  /** A stale read over a truthful index keeps the meta row honest about the commit it
      names exactly when its changes fit one slice and no stored page has become
      unreadable, or it wrote and dropped nothing: an over-budget read leaves the OLD
      commit named over rows that already moved. */
  lemma StaleReadHonestIff(db: Db, head: Commit, tree: seq<Entry>, prior: seq<Entry>, rules: Rules, version: nat)
    requires Distinct(tree)
    requires db.meta.Some? && db.meta.value.commit.Some? && db.meta.value.commit != Some(head)
    requires Truthful(db.tables, prior, rules)
    ensures var es, after := PagesOf(tree, rules), Read(db, head, tree, rules, version);
      && after.meta.Some?
      && after.meta.value.commit == (if Complete(db.tables, es) then Some(head) else db.meta.value.commit)
      && (Truthful(after.tables, if Complete(db.tables, es) then tree else prior, rules)
          <==> if Complete(db.tables, es) then NoLostText(db.tables, es)
               else Written(db.tables, es) == [] && Removed(db.tables, es) == [])
  {
    hide Reindex, Truthful, Coherent, PagesOf, NoLostText, Written, Removed, Complete, Rebuild, FirstBuild,
      NextCursor;
    assert SameOnUnchanged(db.tables, PagesOf(tree, rules), rules.derive, rules.derive);
    var es, after := PagesOf(tree, rules), Read(db, head, tree, rules, version);
    PagesOfMembers(tree, rules);
    TruthfulIsCoherent(db.tables, prior, rules);
    var u := Reindex(db.tables, es, rules.derive);
    ReindexCoherent(db.tables, es, rules.derive);
    forall p ensures At(after.tables, p) == At(u, p) {
      if db.meta.value.version < version { RebuildOfCoherent(u, rules.derive, db.meta.value.cursor, p); }
    }
    if Complete(db.tables, es) {
      CompleteReindexTruthful(db.tables, tree, rules, rules.derive);
      TruthfulBySlices(after.tables, u, tree, rules);
    } else {
      SliceLeavesPrior(db.tables, es, prior, rules);
      TruthfulBySlices(after.tables, u, prior, rules);
    }
  }

  lemma TruthfulBySlices(t: Tables, u: Tables, tree: seq<Entry>, rules: Rules)
    requires forall p :: At(t, p) == At(u, p)
    ensures Truthful(t, tree, rules) <==> Truthful(u, tree, rules)
  {
    if Truthful(t, tree, rules) {
      forall p ensures At(u, p) == Want(tree, rules, p) { assert At(t, p) == Want(tree, rules, p); }
    }
    if Truthful(u, tree, rules) {
      forall p ensures At(t, p) == Want(tree, rules, p) { assert At(u, p) == Want(tree, rules, p); }
    }
  }
}
