/** The content index over whole histories, its events in any order: branch pushes that may
    change the settings, reads, reads that failed part way, write-throughs that land late or
    lose their race, deploys and resets. */
module IndexRuns {
  // A commit is named by its place in the branch's history, so a commit is never the tip twice.

  import opened Options
  import opened Paths
  import opened IndexTables
  import opened ContentIndex

  /** The settings file's `indexedFields`: every field, or these. */
  type Settings = Option<set<string>>

  /** The running code: what it derives from a page's text under some settings. */
  type Code = (Settings, Path, string) -> Derived

  /** One commit: its tree, and the settings in it. */
  datatype Snapshot = Snapshot(tree: seq<Entry>, isPage: Path -> bool, fields: Settings)

  type History = seq<Snapshot>

  /** The deployment and one brain: its database, its branch, the commit its index was first
      built from, and the running code. */
  datatype World = World(db: Db, hist: History, since: nat, code: Code, version: nat)

  function DeriveBy(code: Code, fields: Settings): Derive {
    (p: Path, content: string) => code(fields, p, content)
  }

  function RulesAt(c: Snapshot, code: Code): Rules {
    Rules(c.isPage, DeriveBy(code, c.fields))
  }

  function Tip(w: World): Commit
    requires |w.hist| > 0
  {
    |w.hist| - 1
  }

  function TipRules(w: World): Rules
    requires |w.hist| > 0
  {
    RulesAt(w.hist[Tip(w)], w.code)
  }

  function TipPages(w: World): seq<Entry>
    requires |w.hist| > 0
  {
    PagesOf(w.hist[Tip(w)].tree, TipRules(w))
  }

  // ---------- write-through ----------

  /** One file of a landed bundle. A Binary blob is a base64 write. */
  datatype FileWrite = FileWrite(path: Path, blob: Blob)

  datatype Bundle = Bundle(writes: seq<FileWrite>, deletes: seq<Path>)

  /** A path's blob once a bundle has landed over it. */
  function AfterWrites(b: Option<Blob>, writes: seq<FileWrite>, p: Path): Option<Blob>
    decreases |writes|
  {
    if writes == [] then b
    else AfterWrites(if writes[0].path == p then Some(writes[0].blob) else b, writes[1..], p)
  }

  function AfterBundle(b: Option<Blob>, x: Bundle, p: Path): Option<Blob> {
    if p in x.deletes then None else AfterWrites(b, x.writes, p)
  }

  /** The last text written to a path, after some earlier one. */
  function LastText(earlier: Option<Blob>, writes: seq<FileWrite>, p: Path): Option<Blob>
    decreases |writes|
  {
    if writes == [] then earlier
    else LastText(if writes[0].path == p && writes[0].blob.Text? then Some(writes[0].blob) else earlier, writes[1..], p)
  }

  function WriteGroups(writes: seq<FileWrite>, rules: Rules): seq<Group> {
    if writes == [] then []
    else
      var w := writes[0];
      (if rules.isPage(w.path) && w.blob.Text? then [PageGroupOf(Entry(w.path, w.blob), rules.derive)] else [])
      + WriteGroups(writes[1..], rules)
  }

  function DeleteGroups(deletes: seq<Path>, rules: Rules): seq<Group> {
    if deletes == [] then []
    else
      (if rules.isPage(deletes[0]) then [Group(deletes[0], DropGroup(deletes[0]))] else [])
      + DeleteGroups(deletes[1..], rules)
  }

  function BundleGroups(x: Bundle, rules: Rules): seq<Group> {
    WriteGroups(x.writes, rules) + DeleteGroups(x.deletes, rules)
  }

  /** The generation guard every statement of the batch carries. */
  predicate Guard(db: Db, base: Commit, version: nat) {
    Current(db, base, version)
  }

  /** The batch: refused when too long for one transaction, otherwise guarded as a whole
      by the generation it was planned against. */
  function WriteThrough(db: Db, base: Commit, landed: Commit, x: Bundle, rules: Rules, version: nat): Db {
    var stmts := Flatten(BundleGroups(x, rules));
    if |stmts| + 1 > BATCH_CHUNK || !Guard(db, base, version) then db
    else
      var t := ExecAll(db.tables, stmts);
      Db(t, Some(db.meta.value.(commit := Some(landed), truncated := |t.pages| > MAX_SCAN_PAGES)))
  }

  /** WHEN A WRITE-THROUGH LANDS. It advances the index exactly when the meta row names the commit the write was
      planned on, the rows are of the running version with no rebuild under way, and the statements
      and the meta row fit in one transaction of forty; it then records the landed commit and whether
      more than five thousand pages are stored. Otherwise it changes nothing. */
  lemma WriteThroughIff(db: Db, base: Commit, landed: Commit, x: Bundle, rules: Rules, version: nat)
    ensures var after, n := WriteThrough(db, base, landed, x, rules, version), |Flatten(BundleGroups(x, rules))|;
      if db.meta.Some? && db.meta.value.commit == Some(base) && db.meta.value.version == version && db.meta.value.cursor.None? && n < 40
      then after.meta == Some(Meta(Some(landed), |after.tables.pages| > 5000, version, None))
      else after == db
  {
    hide ExecAll, Flatten, BundleGroups;
  }

  // ---------- steps ----------

  datatype Step =
    | Push(commit: Snapshot)
    | ReadIndex(cfg: nat)
    | FailReindex(batch: nat)
    | FailRebuild(cfg: nat, stmts: nat)
    | FailFirstBuild(stmts: nat)
    | LandWriteThrough(base: Commit, bundle: Bundle, cfg: nat)
    | Deploy(code: Code, version: nat)
    | Reset

  /** The rules a read derives by: of the tip when the index is behind it, and otherwise of
      the settings the request was made under. */
  function ReadRules(w: World, cfg: nat): Rules
    requires |w.hist| > 0 && cfg < |w.hist|
  {
    if w.db.meta.Some? && w.db.meta.value.commit == Some(Tip(w)) then RulesAt(w.hist[cfg], w.code) else TipRules(w)
  }

  /** The tables the rebuild slice of the next read works on. */
  function BeforeRebuild(w: World): Tables
    requires |w.hist| > 0 && w.db.meta.Some?
  {
    if w.db.meta.value.commit == Some(Tip(w)) then w.db.tables
    else Reindex(w.db.tables, TipPages(w), TipRules(w).derive)
  }

  /** Three commits agree on which paths are pages. */
  ghost predicate SamePages(a: Snapshot, b: Snapshot, c: Snapshot) {
    forall p :: a.isPage(p) == b.isPage(p) && b.isPage(p) == c.isPage(p)
  }

  /** Settings the index can have met: those of a commit since it was first built. */
  predicate Since(w: World, cfg: nat) {
    w.since <= cfg < |w.hist|
  }

  /** A deploy that keeps the promise of a rebuild under way: what has been rebuilt is what
      the new code derives too. */
  ghost predicate Seamless(w: World, code: Code)
    requires w.db.meta.Some?
  {
    forall p :: p in w.db.tables.pages && IsFresh(UpTo(w.db.meta.value.cursor), p) ==>
      DerivedBySome(w.db.tables, w.hist, w.since, code, p)
  }

  ghost predicate Enabled(w: World, s: Step)
    requires |w.hist| > 0
  {
    match s
    case Push(c) => Distinct(c.tree)
    case ReadIndex(cfg) => Since(w, cfg)
    case FailReindex(k) =>
      && w.db.meta.Some? && w.db.meta.value.commit != Some(Tip(w))
      && CleanCut(w.db.tables, ReindexGroups(w.db.tables, TipPages(w), TipRules(w).derive), BATCH_CHUNK * k)
    case FailRebuild(cfg, n) =>
      && Since(w, cfg)
      && w.db.meta.Some? && w.db.meta.value.version < w.version
    case FailFirstBuild(n) => w.db.meta.None?
    case LandWriteThrough(base, x, cfg) =>
      && base + 1 < |w.hist| && Since(w, cfg)
      && SamePages(w.hist[cfg], w.hist[base], w.hist[base + 1])
      && (forall p :: BlobAt(w.hist[base + 1].tree, p) == AfterBundle(BlobAt(w.hist[base].tree, p), x, p))
    case Deploy(code, version) =>
      && w.version < version
      && (w.db.meta.Some? ==> Seamless(w, code))
    case Reset => true
  }

  function Apply(w: World, s: Step): World
    requires |w.hist| > 0
    requires Enabled(w, s)
  {
    match s
    case Push(c) => w.(hist := w.hist + [c])
    case ReadIndex(cfg) =>
      w.(db := Read(w.db, Tip(w), w.hist[Tip(w)].tree, ReadRules(w, cfg), w.version),
         since := if w.db.meta.None? then Tip(w) else w.since)
    case FailReindex(k) =>
      w.(db := w.db.(tables := Cut(w.db.tables, Flatten(ReindexGroups(w.db.tables, TipPages(w), TipRules(w).derive)), BATCH_CHUNK * k)))
    case FailRebuild(cfg, n) =>
      w.(db := w.db.(tables := Cut(BeforeRebuild(w), Flatten(RebuildGroups(BeforeRebuild(w), ReadRules(w, cfg).derive, w.db.meta.value.cursor)), n)))
    case FailFirstBuild(n) =>
      w.(db := w.db.(tables := Cut(w.db.tables, WIPE + Flatten(FirstBuildGroups(TipPages(w), TipRules(w).derive)), n)))
    case LandWriteThrough(base, x, cfg) =>
      w.(db := WriteThrough(w.db, base, base + 1, x, RulesAt(w.hist[cfg], w.code), w.version))
    case Deploy(code, version) => w.(code := code, version := version)
    case Reset => w.(db := Db(NoRows, None))
  }

  // ---------- the invariant ----------

  /** Which stored pages hold rows the running code derived. */
  datatype Freshness = Everywhere | UpTo(cursor: Option<Path>)

  predicate IsFresh(f: Freshness, p: Path) {
    f.Everywhere? || (f.cursor.Some? && !Less(f.cursor.value, p))
  }

  function FreshnessOf(m: Meta, version: nat): Freshness {
    if m.version == version then Everywhere else UpTo(m.cursor)
  }

  function StoredBlob(t: Tables, p: Path): Option<Blob> {
    if p in t.pages then Some(t.pages[p].blob) else None
  }

  /** The readable page of one commit, or nothing before the first. */
  function PageBlob(hist: History, k: int, p: Path): Option<Blob>
    requires k < |hist|
  {
    if k >= 0 && hist[k].isPage(p) && BlobAt(hist[k].tree, p).Some? && BlobAt(hist[k].tree, p).value.Text?
    then BlobAt(hist[k].tree, p) else None
  }

  /** The commit has the page, but as bytes. */
  predicate HasBytes(c: Snapshot, p: Path) {
    c.isPage(p) && BlobAt(c.tree, p).Some? && !BlobAt(c.tree, p).value.Text?
  }

  /** A path's row is the page of commit k, or an earlier page which k has as bytes. */
  ghost predicate Anchored(t: Tables, hist: History, since: nat, k: int, p: Path) {
    && (k == -1 || since <= k < |hist|)
    && (StoredBlob(t, p) == PageBlob(hist, k, p) || (k >= 0 && p in t.pages && HasBytes(hist[k], p)))
  }

  /** A stored page's rows are what the code derives under settings met since the build. */
  ghost predicate DerivedBySome(t: Tables, hist: History, since: nat, code: Code, p: Path)
    requires p in t.pages
  {
    exists s :: since <= s < |hist| && RowsUnder(t, code, hist[s].fields, p)
  }

  predicate RowsUnder(t: Tables, code: Code, fields: Settings, p: Path)
    requires p in t.pages
  {
    At(t, p) == PageSlice(t.pages[p].content, t.pages[p].blob, code(fields, p, t.pages[p].content))
  }

  /** A path's rows are whole, come from a commit no older than `lo`, and are derived by
      the running code when they are marked fresh. */
  ghost predicate PathOk(t: Tables, hist: History, since: nat, lo: int, code: Code, f: Freshness, p: Path) {
    && (exists k :: lo <= k && Anchored(t, hist, since, k, p))
    && (p in t.pages ==> t.pages[p].blob == Text(t.pages[p].content))
    && (p !in t.pages ==> At(t, p) == EmptySlice)
    && (p in t.pages && IsFresh(f, p) ==> DerivedBySome(t, hist, since, code, p))
  }

  ghost predicate TablesOk(t: Tables, hist: History, since: nat, lo: int, code: Code, f: Freshness) {
    forall p :: PathOk(t, hist, since, lo, code, f, p)
  }

  function Floor(m: Meta): int {
    if m.commit.Some? then m.commit.value else -1
  }

  ghost predicate HistoryOk(hist: History, since: nat) {
    since < |hist| && forall i :: 0 <= i < |hist| ==> Distinct(hist[i].tree)
  }

  ghost predicate Inv(w: World) {
    && HistoryOk(w.hist, w.since)
    && (w.db.meta.Some? ==>
          var m := w.db.meta.value;
          && (Floor(m) == -1 || w.since <= Floor(m) < |w.hist|)
          && m.version <= w.version
          && (m.version == w.version ==> m.cursor.None?)
          && TablesOk(w.db.tables, w.hist, w.since, Floor(m), w.code, FreshnessOf(m, w.version)))
  }

  // ---------- what a current index serves ----------

  /** No settings met since the build derive other rows from the tip's text of this page. */
  ghost predicate Alike(w: World, p: Path)
    requires |w.hist| > 0
  {
    var b := PageBlob(w.hist, Tip(w), p);
    b.Some? ==> forall s :: w.since <= s < |w.hist| ==> SameRows(w.code, w.hist[s].fields, w.hist[Tip(w)].fields, p, b.value)
  }

  predicate SameRows(code: Code, was: Settings, now: Settings, p: Path, b: Blob)
    requires b.Text?
  {
    PageSlice(b.content, b, code(was, p, b.content)) == PageSlice(b.content, b, code(now, p, b.content))
  }

  /** Every page whose derivation the settings left alone has exactly the rows of a
      from-scratch build of the tip, unless the index holds an earlier text of a page which
      the tip has as bytes. */
  ghost predicate Serves(w: World)
    requires |w.hist| > 0
  {
    forall p :: Alike(w, p) ==>
      (At(w.db.tables, p) == Want(w.hist[Tip(w)].tree, TipRules(w), p)
       <==> !(p in w.db.tables.pages && HasBytes(w.hist[Tip(w)], p)))
  }

  /** What a read trusts is true. */
  lemma CurrentServes(w: World)
    requires Inv(w) && Current(w.db, Tip(w), w.version)
    ensures Serves(w)
  {
    var t := w.db.tables;
    forall p | Alike(w, p)
      ensures At(t, p) == Want(w.hist[Tip(w)].tree, TipRules(w), p) <==> !(p in t.pages && HasBytes(w.hist[Tip(w)], p))
    {
      assert PathOk(t, w.hist, w.since, Tip(w), w.code, Everywhere, p);
      var k :| Tip(w) <= k && Anchored(t, w.hist, w.since, k, p);
      assert k == Tip(w);
      assert At(t, p).page == PageAt(t, p);
      if p in t.pages {
        var s :| w.since <= s < |w.hist| && RowsUnder(t, w.code, w.hist[s].fields, p);
        if !HasBytes(w.hist[Tip(w)], p) {
          assert PageBlob(w.hist, k, p) == Some(t.pages[p].blob);
          assert SameRows(w.code, w.hist[s].fields, w.hist[Tip(w)].fields, p, t.pages[p].blob);
        }
      }
    }
  }

  /** With settings that never changed what the tip's pages derive, that is the whole index. */
  lemma ServesAll(w: World)
    requires |w.hist| > 0 && Serves(w) && forall p :: Alike(w, p)
    requires Distinct(w.hist[Tip(w)].tree)
    ensures Truthful(w.db.tables, w.hist[Tip(w)].tree, TipRules(w)) <==> NoLostText(w.db.tables, TipPages(w))
  {
    var tree, t := w.hist[Tip(w)].tree, w.db.tables;
    PagesOfMembers(tree, TipRules(w));
    if NoLostText(t, TipPages(w)) {
      forall p ensures At(t, p) == Want(tree, TipRules(w), p) {
        assert Alike(w, p);
        EntryOfBlob(tree, p);
      }
    } else {
      var e :| e in TipPages(w) && e.path in t.pages && !e.blob.Text?;
      BlobAtEntry(tree, e);
      assert Alike(w, e.path);
      assert At(t, e.path) != Want(tree, TipRules(w), e.path);
    }
  }

  // ---------- reads ----------

  /** One path through a whole reindex slice. When the slice is complete its rows come
      from the tip. */
  lemma ReindexPathOk(t: Tables, hist: History, since: nat, lo: int, code: Code, f: Freshness, p: Path)
    requires HistoryOk(hist, since) && -1 <= lo < |hist|
    requires PathOk(t, hist, since, lo, code, f, p)
    ensures var rules := RulesAt(hist[|hist| - 1], code);
      var es := PagesOf(hist[|hist| - 1].tree, rules);
      PathOk(Reindex(t, es, rules.derive), hist, since, if Complete(t, es) then |hist| - 1 else lo, code, f, p)
  {
    hide PageSlice, Less, Complete, Removed, Written, Reindex, Changed, PagesOf, Stored, BlobAt,
      DerivedBySome, PathOk, Distinct;
    var tree, rules := hist[|hist| - 1].tree, RulesAt(hist[|hist| - 1], code);
    var es := PagesOf(tree, rules);
    var u := Reindex(t, es, rules.derive);
    assert Distinct(tree);
    PagesOfMembers(tree, rules);
    WrittenMembers(t, es);
    if p in t.pages && p !in PathsOf(es) {
      ReindexDrops(t, es, rules.derive, p);
      EntryOfBlob(tree, p);
      DroppedPathOk(u, hist, since, code, f, p);
      PathOkLower(u, hist, since, |hist| - 1, if Complete(t, es) then |hist| - 1 else lo, code, f, p);
    } else if e :| e in Written(t, es) && e.path == p {
      ReindexWrites(t, es, rules.derive, e);
      BlobAtEntry(tree, e);
      WrittenPathOk(u, hist, since, code, e);
      LandedPathOk(u, hist, since, code, f, p);
      PathOkLower(u, hist, since, |hist| - 1, if Complete(t, es) then |hist| - 1 else lo, code, f, p);
    } else {
      ReindexKeeps(t, es, rules.derive, p);
      PathOkBySlice(t, u, hist, since, lo, code, f, p);
      if Complete(t, es) {
        StoredText(t, hist, since, lo, code, f, p);
        KeptIsTip(t, hist, since, code, p);
        AnchorMoves(t, u, hist, since, lo, code, f, p);
      }
    }
  }

  lemma StoredText(t: Tables, hist: History, since: nat, lo: int, code: Code, f: Freshness, p: Path)
    requires PathOk(t, hist, since, lo, code, f, p)
    ensures p in t.pages ==> t.pages[p].blob == Text(t.pages[p].content)
  {
  }

  lemma DroppedPathOk(u: Tables, hist: History, since: nat, code: Code, f: Freshness, p: Path)
    requires HistoryOk(hist, since) && At(u, p) == EmptySlice
    requires !(hist[|hist| - 1].isPage(p) && BlobAt(hist[|hist| - 1].tree, p).Some?)
    ensures PathOk(u, hist, since, |hist| - 1, code, f, p)
  {
    assert PageAt(u, p) == At(u, p).page == None;
    assert Anchored(u, hist, since, |hist| - 1, p);
  }

  lemma LandedPathOk(u: Tables, hist: History, since: nat, code: Code, f: Freshness, p: Path)
    requires p in u.pages && u.pages[p].blob == Text(u.pages[p].content)
    requires Anchored(u, hist, since, |hist| - 1, p) && DerivedBySome(u, hist, since, code, p)
    ensures PathOk(u, hist, since, |hist| - 1, code, f, p)
  {
    hide Anchored, DerivedBySome, Less;
  }

  /** Rows that are anchored further on than was known. */
  lemma AnchorMoves(t: Tables, u: Tables, hist: History, since: nat, lo: int, code: Code, f: Freshness, p: Path)
    requires HistoryOk(hist, since) && At(u, p) == At(t, p)
    requires PathOk(u, hist, since, lo, code, f, p) && Anchored(t, hist, since, |hist| - 1, p)
    ensures PathOk(u, hist, since, |hist| - 1, code, f, p)
  {
    hide DerivedBySome, Less;
    assert PageAt(u, p) == At(u, p).page == At(t, p).page == PageAt(t, p);
    assert Anchored(u, hist, since, |hist| - 1, p);
  }

  lemma StillDerived(t: Tables, u: Tables, hist: History, since: nat, code: Code, p: Path)
    requires p in t.pages && p in u.pages && At(u, p) == At(t, p) && DerivedBySome(t, hist, since, code, p)
    ensures DerivedBySome(u, hist, since, code, p)
  {
    assert PageAt(u, p) == PageAt(t, p);
    var s :| since <= s < |hist| && RowsUnder(t, code, hist[s].fields, p);
    assert RowsUnder(u, code, hist[s].fields, p);
  }

  /** The rows a slice has just written. */
  lemma WrittenPathOk(u: Tables, hist: History, since: nat, code: Code, e: Entry)
    requires since < |hist| && e.blob.Text?
    requires var head := |hist| - 1;
      && hist[head].isPage(e.path) && BlobAt(hist[head].tree, e.path) == Some(e.blob)
      && At(u, e.path) == PageSlice(e.blob.content, e.blob, code(hist[head].fields, e.path, e.blob.content))
    ensures e.path in u.pages && u.pages[e.path].blob == Text(u.pages[e.path].content)
    ensures Anchored(u, hist, since, |hist| - 1, e.path) && DerivedBySome(u, hist, since, code, e.path)
  {
    assert PageAt(u, e.path) == At(u, e.path).page;
    assert RowsUnder(u, code, hist[|hist| - 1].fields, e.path);
  }

  /** What a complete slice passes over is the tip's already, or bytes there. */
  lemma KeptIsTip(t: Tables, hist: History, since: nat, code: Code, p: Path)
    requires HistoryOk(hist, since)
    requires p in t.pages ==> t.pages[p].blob == Text(t.pages[p].content)
    requires var es := PagesOf(hist[|hist| - 1].tree, RulesAt(hist[|hist| - 1], code));
      && Complete(t, es)
      && (p in t.pages ==> p in PathsOf(es))
      && (forall e :: e in Written(t, es) ==> e.path != p)
    ensures Anchored(t, hist, since, |hist| - 1, p)
  {
    hide Written, PagesOf, DeriveBy, BlobAt, Distinct, Changed;
    var head := |hist| - 1;
    var tree := hist[head].tree;
    var es := PagesOf(tree, RulesAt(hist[head], code));
    assert Distinct(tree);
    PagesOfMembers(tree, RulesAt(hist[head], code));
    WrittenMembers(t, es);
    EntryOfBlob(tree, p);
    if p in t.pages {
      var e :| e in es && e.path == p;
      BlobAtEntry(tree, e);
      assert Stored(t, e) || !e.blob.Text?;
    } else if hist[head].isPage(p) && BlobAt(tree, p).Some? {
      var e := Entry(p, BlobAt(tree, p).value);
      assert e in es && !Stored(t, e);
    }
  }

  /** One path through a rebuild slice: the rows it reaches become fresh. */
  lemma RebuildPathOk(t: Tables, hist: History, since: nat, lo: int, code: Code, cfg: nat, cursor: Option<Path>, p: Path)
    requires PathOk(t, hist, since, lo, code, UpTo(cursor), p) && since <= cfg < |hist|
    ensures PathOk(Rebuild(t, DeriveBy(code, hist[cfg].fields), cursor), hist, since, lo, code,
      if NextCursor(t, cursor).None? then Everywhere else UpTo(NextCursor(t, cursor)), p)
  {
    hide Less, RebuildPaths, PageSlice;
    var derive := DeriveBy(code, hist[cfg].fields);
    var u, next := Rebuild(t, derive, cursor), NextCursor(t, cursor);
    RebuildAt(t, derive, cursor, p);
    RebuildPathsMembers(t, cursor);
    var k :| lo <= k && Anchored(t, hist, since, k, p);
    if p in RebuildPaths(t, cursor) {
      RederivedRow(t, u, hist, since, code, cfg, p);
      assert Anchored(u, hist, since, k, p);
    } else {
      assert PageAt(u, p) == PageAt(t, p);
      assert Anchored(u, hist, since, k, p);
      if p in t.pages {
        if p in Remaining(t, cursor) {
          assert next.Some? && Less(next.value, p);
        } else {
          assert IsFresh(UpTo(cursor), p);
          StillDerived(t, u, hist, since, code, p);
        }
      }
    }
  }

  lemma RederivedRow(t: Tables, u: Tables, hist: History, since: nat, code: Code, cfg: nat, p: Path)
    requires p in t.pages && since <= cfg < |hist|
    requires At(u, p) == PageSlice(t.pages[p].content, t.pages[p].blob, code(hist[cfg].fields, p, t.pages[p].content))
    ensures p in u.pages && StoredBlob(u, p) == StoredBlob(t, p) && u.pages[p].content == t.pages[p].content
    ensures DerivedBySome(u, hist, since, code, p)
  {
    assert PageAt(u, p) == At(u, p).page;
    assert RowsUnder(u, code, hist[cfg].fields, p);
  }

  // ---------- failed batches ----------

  /** A statement of a rebuild: it never changes which blob a row holds. */
  predicate Rederives(s: Stmt) {
    s.SetTitle? || s.DropLinks? || s.DropFields? || s.PutLink? || s.PutField?
  }

  lemma {:induction false} RederivesKeepContent(t: Tables, ss: seq<Stmt>, p: Path)
    requires forall s :: s in ss ==> Rederives(s) && s.path in t.pages
    ensures StoredBlob(ExecAll(t, ss), p) == StoredBlob(t, p)
    ensures ExecAll(t, ss).pages.Keys == t.pages.Keys
    ensures p in t.pages ==> ExecAll(t, ss).pages[p].content == t.pages[p].content
    ensures (forall s :: s in ss ==> Rederives(s) && s.path != p) ==> At(ExecAll(t, ss), p) == At(t, p)
    decreases |ss|
  {
    if ss != [] {
      assert ss[0] in ss;
      var u := Exec(t, ss[0]);
      ExecAt(t, ss[0]);
      assert u.pages.Keys == t.pages.Keys;
      assert forall s :: s in ss[1..] ==> s in ss;
      RederivesKeepContent(u, ss[1..], p);
    }
  }

  lemma RebuildStatements(t: Tables, derive: Derive, cursor: Option<Path>, s: Stmt)
    requires s in Flatten(RebuildGroups(t, derive, cursor))
    ensures Rederives(s) && s.path in t.pages && Passed(cursor, s.path)
  {
    hide RebuildPaths, RederiveGroup, Flatten, Less, Concerns, AllConcern;
    var gs, ps := RebuildGroups(t, derive, cursor), RebuildPaths(t, cursor);
    RebuildGroupsShape(t, derive, cursor);
    RebuildPathsMembers(t, cursor);
    FlattenMembers(gs, s);
    var i :| 0 <= i < |gs| && gs[i].path == s.path && s in gs[i].stmts;
    assert ps[i] in ps;
    RederiveGroupMembers(ps[i], derive(ps[i], t.pages[ps[i]].content), s);
  }

  /** A rebuild slice may stop at any statement: the rows it tore are not yet fresh. */
  lemma CutRebuildPathOk(t: Tables, hist: History, since: nat, lo: int, code: Code, derive: Derive, cursor: Option<Path>, n: nat, p: Path)
    requires PathOk(t, hist, since, lo, code, UpTo(cursor), p)
    ensures PathOk(Cut(t, Flatten(RebuildGroups(t, derive, cursor)), n), hist, since, lo, code, UpTo(cursor), p)
  {
    hide Less, Flatten, PageSlice, RebuildGroups;
    var all := Flatten(RebuildGroups(t, derive, cursor));
    var ss := if n <= |all| then all[..n] else all;
    var u := Cut(t, all, n);
    forall s | s in ss ensures Rederives(s) && s.path in t.pages && Passed(cursor, s.path) {
      RebuildStatements(t, derive, cursor, s);
    }
    RederivesKeepContent(t, ss, p);
    var k :| lo <= k && Anchored(t, hist, since, k, p);
    assert Anchored(u, hist, since, k, p);
    if IsFresh(UpTo(cursor), p) || p !in t.pages {
      assert forall s :: s in ss ==> s.path != p;
      assert PageAt(u, p) == PageAt(t, p);
      if p in t.pages { StillDerived(t, u, hist, since, code, p); }
    }
  }

  /** Rows are judged path by path. */
  lemma PathOkBySlice(t: Tables, u: Tables, hist: History, since: nat, lo: int, code: Code, f: Freshness, p: Path)
    requires PathOk(t, hist, since, lo, code, f, p) && At(u, p) == At(t, p)
    ensures PathOk(u, hist, since, lo, code, f, p)
  {
    hide PageSlice, Less;
    var k :| lo <= k && Anchored(t, hist, since, k, p);
    assert PageAt(u, p) == PageAt(t, p);
    assert Anchored(u, hist, since, k, p);
    if p in t.pages && IsFresh(f, p) { StillDerived(t, u, hist, since, code, p); }
  }

  lemma PathOkLower(t: Tables, hist: History, since: nat, lo: int, lo': int, code: Code, f: Freshness, p: Path)
    requires PathOk(t, hist, since, lo, code, f, p) && lo' <= lo
    ensures PathOk(t, hist, since, lo', code, f, p)
  {
    var k :| lo <= k && Anchored(t, hist, since, k, p);
  }

  // ---------- write-through ----------

  /** How the last text written and the blob that landed go together: `b0` is the blob the
      bundle found. */
  ghost predicate TextOrBytes(text: Option<Blob>, landed: Option<Blob>, b0: Option<Blob>) {
    && (text.Some? ==> text.value.Text? && landed.Some? && (landed.value.Text? ==> landed == text))
    && (text.None? ==> landed == b0 || (landed.Some? && !landed.value.Text?))
  }

  lemma {:induction false} LastTextLands(text: Option<Blob>, b: Option<Blob>, b0: Option<Blob>, writes: seq<FileWrite>, p: Path)
    requires TextOrBytes(text, b, b0)
    ensures TextOrBytes(LastText(text, writes, p), AfterWrites(b, writes, p), b0)
    decreases |writes|
  {
    if writes != [] {
      var w := writes[0];
      LastTextLands(if w.path == p && w.blob.Text? then Some(w.blob) else text,
                    if w.path == p then Some(w.blob) else b, b0, writes[1..], p);
    }
  }

  /** The writes of a bundle leave a page the rows of the last text they hold for it. */
  lemma {:induction false} WriteGroupsAt(x: Slice, x0: Slice, text: Option<Blob>, writes: seq<FileWrite>, rules: Rules, p: Path)
    requires rules.isPage(p) && x == (if text.Some? then WantOf(rules, p, text) else x0)
    ensures AllConcern(WriteGroups(writes, rules))
    ensures var last := LastText(text, writes, p);
      OnPath(x, WriteGroups(writes, rules), p) == (if last.Some? then WantOf(rules, p, last) else x0)
    decreases |writes|
  {
    if writes != [] {
      var w, rest := writes[0], writes[1..];
      if rules.isPage(w.path) && w.blob.Text? {
        var g := PageGroupOf(Entry(w.path, w.blob), rules.derive);
        var gs := WriteGroups(writes, rules);
        assert gs == [g] + WriteGroups(rest, rules) && gs[1..] == WriteGroups(rest, rules);
        var d := rules.derive(w.path, w.blob.content);
        PageGroupSlices(x, w.path, w.blob.content, w.blob, d);
        if w.path == p {
          WriteGroupsAt(ExecSlices(x, g.stmts), x0, Some(w.blob), rest, rules, p);
        } else {
          WriteGroupsAt(x, x0, text, rest, rules, p);
        }
      } else {
        assert WriteGroups(writes, rules) == WriteGroups(rest, rules);
        WriteGroupsAt(x, x0, text, rest, rules, p);
      }
    }
  }

  lemma {:induction false} DeleteGroupsAt(x: Slice, deletes: seq<Path>, rules: Rules, p: Path)
    requires rules.isPage(p)
    ensures AllConcern(DeleteGroups(deletes, rules))
    ensures OnPath(x, DeleteGroups(deletes, rules), p) == if p in deletes then EmptySlice else x
    decreases |deletes|
  {
    if deletes != [] {
      var rest := deletes[1..];
      var gs := DeleteGroups(deletes, rules);
      if rules.isPage(deletes[0]) {
        var g := Group(deletes[0], DropGroup(deletes[0]));
        assert gs == [g] + DeleteGroups(rest, rules) && gs[1..] == DeleteGroups(rest, rules);
        Three(x, DropPage(deletes[0]), DropLinks(deletes[0]), DropFields(deletes[0]));
        assert Concerns(g.stmts, g.path);
        if deletes[0] == p {
          DeleteGroupsAt(EmptySlice, rest, rules, p);
        } else {
          DeleteGroupsAt(x, rest, rules, p);
        }
      } else {
        assert gs == DeleteGroups(rest, rules);
        DeleteGroupsAt(x, rest, rules, p);
      }
    }
  }

  /** A bundle's statements leave a page it deletes no rows, a page it writes exactly the rows
      of the last text it writes there, and every other page alone. A file written as bytes
      leaves its page alone too. */
  lemma BundleAt(t: Tables, x: Bundle, rules: Rules, p: Path)
    requires rules.isPage(p)
    ensures var text := LastText(None, x.writes, p);
      At(ExecAll(t, Flatten(BundleGroups(x, rules))), p) ==
        if p in x.deletes then EmptySlice else if text.Some? then WantOf(rules, p, text) else At(t, p)
  {
    var ws, ds := WriteGroups(x.writes, rules), DeleteGroups(x.deletes, rules);
    WriteGroupsAt(At(t, p), At(t, p), None, x.writes, rules, p);
    DeleteGroupsAt(OnPath(At(t, p), ws, p), x.deletes, rules, p);
    OnPathAppend(At(t, p), ws, ds, p);
    FlattenAt(t, ws + ds, p);
  }

  lemma {:induction false} BundleGroupPaths(x: Bundle, rules: Rules, p: Path)
    requires !rules.isPage(p)
    ensures AllConcern(BundleGroups(x, rules))
    ensures forall g :: g in BundleGroups(x, rules) ==> g.path != p
  {
    WriteGroupPaths(x.writes, rules, p);
    DeleteGroupPaths(x.deletes, rules, p);
  }

  lemma {:induction false} WriteGroupPaths(writes: seq<FileWrite>, rules: Rules, p: Path)
    requires !rules.isPage(p)
    ensures AllConcern(WriteGroups(writes, rules))
    ensures forall g :: g in WriteGroups(writes, rules) ==> g.path != p
    decreases |writes|
  {
    if writes != [] {
      WriteGroupPaths(writes[1..], rules, p);
      var w := writes[0];
      if rules.isPage(w.path) && w.blob.Text? {
        PageGroupSlices(EmptySlice, w.path, w.blob.content, w.blob, rules.derive(w.path, w.blob.content));
      }
    }
  }

  lemma {:induction false} DeleteGroupPaths(deletes: seq<Path>, rules: Rules, p: Path)
    requires !rules.isPage(p)
    ensures AllConcern(DeleteGroups(deletes, rules))
    ensures forall g :: g in DeleteGroups(deletes, rules) ==> g.path != p
    decreases |deletes|
  {
    if deletes != [] { DeleteGroupPaths(deletes[1..], rules, p); }
  }

  lemma BundleElsewhere(t: Tables, x: Bundle, rules: Rules, p: Path)
    requires !rules.isPage(p)
    ensures At(ExecAll(t, Flatten(BundleGroups(x, rules))), p) == At(t, p)
  {
    BundleGroupPaths(x, rules, p);
    FlattenAt(t, BundleGroups(x, rules), p);
    OnPathElsewhere(At(t, p), BundleGroups(x, rules), p);
  }

  /** One path through a landed write-through: the anchor moves up to the landed commit. */
  lemma WriteThroughPathOk(t: Tables, hist: History, since: nat, base: nat, x: Bundle, code: Code, cfg: nat, p: Path)
    requires HistoryOk(hist, since) && since <= base && base + 1 < |hist| && since <= cfg < |hist|
    requires SamePages(hist[cfg], hist[base], hist[base + 1])
    requires BlobAt(hist[base + 1].tree, p) == AfterBundle(BlobAt(hist[base].tree, p), x, p)
    requires PathOk(t, hist, since, base, code, Everywhere, p)
    ensures PathOk(ExecAll(t, Flatten(BundleGroups(x, RulesAt(hist[cfg], code)))), hist, since, base + 1, code, Everywhere, p)
  {
    hide PageSlice, BundleGroups, Flatten, ExecAll;
    var rules := RulesAt(hist[cfg], code);
    var u := ExecAll(t, Flatten(BundleGroups(x, rules)));
    var k :| base <= k && Anchored(t, hist, since, k, p);
    var text, b := LastText(None, x.writes, p), BlobAt(hist[base].tree, p);
    LastTextLands(None, b, b, x.writes, p);
    if !rules.isPage(p) {
      BundleElsewhere(t, x, rules, p);
      UntouchedPathOk(t, u, hist, since, base, code, k, p);
    } else {
      BundleAt(t, x, rules, p);
      if p in x.deletes {
        assert PageAt(u, p) == At(u, p).page;
        assert Anchored(u, hist, since, base + 1, p);
      } else if text.Some? {
        RowsOfText(u, hist, since, code, cfg, p, text.value);
        assert Anchored(u, hist, since, base + 1, p);
      } else {
        UntouchedPathOk(t, u, hist, since, base, code, k, p);
      }
    }
  }

  lemma RowsOfText(u: Tables, hist: History, since: nat, code: Code, cfg: nat, p: Path, b: Blob)
    requires since <= cfg < |hist| && hist[cfg].isPage(p) && b.Text?
    requires At(u, p) == WantOf(RulesAt(hist[cfg], code), p, Some(b))
    ensures p in u.pages && u.pages[p].blob == b == Text(u.pages[p].content)
    ensures DerivedBySome(u, hist, since, code, p)
  {
    assert PageAt(u, p) == At(u, p).page;
    assert RowsUnder(u, code, hist[cfg].fields, p);
  }

  lemma UntouchedPathOk(t: Tables, u: Tables, hist: History, since: nat, base: nat, code: Code, k: int, p: Path)
    requires HistoryOk(hist, since) && since <= base && base + 1 < |hist|
    requires PathOk(t, hist, since, base, code, Everywhere, p) && At(u, p) == At(t, p)
    requires base <= k && Anchored(t, hist, since, k, p)
    requires hist[base + 1].isPage(p) == hist[base].isPage(p)
    requires var b := BlobAt(hist[base + 1].tree, p);
      b == BlobAt(hist[base].tree, p) || (b.Some? && !b.value.Text?) || !hist[base].isPage(p)
    ensures PathOk(u, hist, since, base + 1, code, Everywhere, p)
  {
    hide PageSlice;
    assert PageAt(u, p) == PageAt(t, p);
    if p in t.pages { StillDerived(t, u, hist, since, code, p); }
    if k == base { assert Anchored(u, hist, since, base + 1, p); } else { assert Anchored(u, hist, since, k, p); }
  }

  /** No page ends as bytes where the base or the bundle itself had put text. */
  ghost predicate NoBytesOverText(baseTree: seq<Entry>, x: Bundle, rules: Rules) {
    forall p :: EndsAsBytes(baseTree, x, rules, p) ==>
      LastText(None, x.writes, p).None? && !(BlobAt(baseTree, p).Some? && BlobAt(baseTree, p).value.Text?)
  }

  predicate EndsAsBytes(baseTree: seq<Entry>, x: Bundle, rules: Rules, p: Path) {
    var b := AfterBundle(BlobAt(baseTree, p), x, p);
    rules.isPage(p) && b.Some? && !b.value.Text?
  }

  /** A write-through that is not refused turns a from-scratch build of its base into one of
      the commit it landed, if and only if no page ends as bytes over text. */
  lemma WriteThroughTruthful(db: Db, base: Commit, landed: Commit, baseTree: seq<Entry>, landedTree: seq<Entry>, x: Bundle, rules: Rules, version: nat)
    requires Guard(db, base, version) && |Flatten(BundleGroups(x, rules))| + 1 <= BATCH_CHUNK
    requires Truthful(db.tables, baseTree, rules)
    requires forall p :: BlobAt(landedTree, p) == AfterBundle(BlobAt(baseTree, p), x, p)
    ensures var after := WriteThrough(db, base, landed, x, rules, version);
      && Current(after, landed, version)
      && (after.meta.value.truncated <==> |after.tables.pages| > MAX_SCAN_PAGES)
      && (Truthful(after.tables, landedTree, rules) <==> NoBytesOverText(baseTree, x, rules))
  {
    hide BundleGroups, Flatten, ExecAll, AfterBundle;
    var u := ExecAll(db.tables, Flatten(BundleGroups(x, rules)));
    if NoBytesOverText(baseTree, x, rules) {
      forall p ensures At(u, p) == Want(landedTree, rules, p) {
        WriteThroughRow(db.tables, baseTree, landedTree, x, rules, p);
      }
    } else {
      var p :| EndsAsBytes(baseTree, x, rules, p)
        && !(LastText(None, x.writes, p).None? && !(BlobAt(baseTree, p).Some? && BlobAt(baseTree, p).value.Text?));
      WriteThroughRow(db.tables, baseTree, landedTree, x, rules, p);
      assert At(u, p) != Want(landedTree, rules, p);
    }
  }

  lemma WriteThroughRow(t: Tables, baseTree: seq<Entry>, landedTree: seq<Entry>, x: Bundle, rules: Rules, p: Path)
    requires At(t, p) == Want(baseTree, rules, p)
    requires BlobAt(landedTree, p) == AfterBundle(BlobAt(baseTree, p), x, p)
    ensures At(ExecAll(t, Flatten(BundleGroups(x, rules))), p) == Want(landedTree, rules, p) <==>
      (EndsAsBytes(baseTree, x, rules, p) ==>
        LastText(None, x.writes, p).None? && !(BlobAt(baseTree, p).Some? && BlobAt(baseTree, p).value.Text?))
  {
    hide BundleGroups, Flatten, ExecAll;
    var b := BlobAt(baseTree, p);
    LastTextLands(None, b, b, x.writes, p);
    if rules.isPage(p) { BundleAt(t, x, rules, p); } else { BundleElsewhere(t, x, rules, p); }
  }

  // ---------- every step keeps the invariant ----------

  lemma PushKeeps(w: World, c: Snapshot)
    requires Inv(w) && Enabled(w, Push(c))
    ensures Inv(Apply(w, Push(c)))
  {
    hide PageSlice, Less;
    var hist := w.hist + [c];
    if w.db.meta.Some? {
      var m, t := w.db.meta.value, w.db.tables;
      var f := FreshnessOf(m, w.version);
      forall p ensures PathOk(t, hist, w.since, Floor(m), w.code, f, p) {
        assert PathOk(t, w.hist, w.since, Floor(m), w.code, f, p);
        var k :| Floor(m) <= k && Anchored(t, w.hist, w.since, k, p);
        assert Anchored(t, hist, w.since, k, p);
        if p in t.pages && IsFresh(f, p) {
          var s :| w.since <= s < |w.hist| && RowsUnder(t, w.code, w.hist[s].fields, p);
          assert RowsUnder(t, w.code, hist[s].fields, p);
        }
      }
    }
  }

  /** The first build starts from wiped tables. */
  lemma FirstBuildPathOk(t: Tables, hist: History, code: Code, p: Path)
    requires |hist| > 0 && HistoryOk(hist, |hist| - 1)
    ensures var rules := RulesAt(hist[|hist| - 1], code);
      var es := PagesOf(hist[|hist| - 1].tree, rules);
      PathOk(FirstBuild(t, es, rules.derive), hist, |hist| - 1,
        if |es| <= REINDEX_PAGE_BUDGET then |hist| - 1 else -1, code, Everywhere, p)
  {
    hide PageSlice, Reindex, FirstBuild;
    var head, rules := |hist| - 1, RulesAt(hist[|hist| - 1], code);
    var es := PagesOf(hist[head].tree, rules);
    assert Anchored(NoRows, hist, head, -1, p);
    assert At(NoRows, p) == EmptySlice;
    FirstIsReindex(t, es, rules.derive);
    ReindexPathOk(NoRows, hist, head, -1, code, Everywhere, p);
  }

  lemma FirstReadKeeps(w: World, cfg: nat)
    requires Inv(w) && w.db.meta.None? && Enabled(w, ReadIndex(cfg))
    ensures Inv(Apply(w, ReadIndex(cfg)))
  {
    hide PagesOf, FirstBuild, PathOk, Rebuild, Reindex;
    var w' := Apply(w, ReadIndex(cfg));
    forall p ensures PathOk(w'.db.tables, w.hist, Tip(w), Floor(w'.db.meta.value), w.code, Everywhere, p) {
      FirstBuildPathOk(w.db.tables, w.hist, w.code, p);
    }
  }

  lemma TipReadKeeps(w: World, cfg: nat)
    requires Inv(w) && w.db.meta.Some? && w.db.meta.value.commit == Some(Tip(w)) && Enabled(w, ReadIndex(cfg))
    ensures Inv(Apply(w, ReadIndex(cfg)))
  {
    hide PagesOf, Rebuild, PathOk, NextCursor, Reindex, FirstBuild;
    var m, w' := w.db.meta.value, Apply(w, ReadIndex(cfg));
    if m.version < w.version {
      var f := FreshnessOf(w'.db.meta.value, w.version);
      forall p ensures PathOk(w'.db.tables, w.hist, w.since, Floor(m), w.code, f, p) {
        assert PathOk(w.db.tables, w.hist, w.since, Floor(m), w.code, FreshnessOf(m, w.version), p);
        RebuildPathOk(w.db.tables, w.hist, w.since, Floor(m), w.code, cfg, m.cursor, p);
      }
    }
  }

  lemma StaleReadKeeps(w: World, cfg: nat)
    requires Inv(w) && w.db.meta.Some? && w.db.meta.value.commit != Some(Tip(w)) && Enabled(w, ReadIndex(cfg))
    ensures Inv(Apply(w, ReadIndex(cfg)))
  {
    hide PagesOf, Rebuild, Reindex, PathOk, NextCursor, Complete, FirstBuild;
    var m, w' := w.db.meta.value, Apply(w, ReadIndex(cfg));
    var f, f' := FreshnessOf(m, w.version), FreshnessOf(w'.db.meta.value, w.version);
    var lo := Floor(w'.db.meta.value);
    forall p ensures PathOk(w'.db.tables, w.hist, w.since, lo, w.code, f', p) {
      assert PathOk(w.db.tables, w.hist, w.since, Floor(m), w.code, f, p);
      ReindexPathOk(w.db.tables, w.hist, w.since, Floor(m), w.code, f, p);
      if m.version < w.version {
        RebuildPathOk(BeforeRebuild(w), w.hist, w.since, lo, w.code, Tip(w), m.cursor, p);
      }
    }
  }

  lemma ReadKeeps(w: World, cfg: nat)
    requires Inv(w) && Enabled(w, ReadIndex(cfg))
    ensures Inv(Apply(w, ReadIndex(cfg)))
  {
    hide Apply;
    if w.db.meta.None? {
      FirstReadKeeps(w, cfg);
    } else if w.db.meta.value.commit == Some(Tip(w)) {
      TipReadKeeps(w, cfg);
    } else {
      StaleReadKeeps(w, cfg);
    }
  }

  lemma ReindexPathOkLow(t: Tables, hist: History, since: nat, lo: int, code: Code, f: Freshness, p: Path)
    requires HistoryOk(hist, since) && -1 <= lo < |hist|
    requires PathOk(t, hist, since, lo, code, f, p)
    ensures var rules := RulesAt(hist[|hist| - 1], code);
      PathOk(Reindex(t, PagesOf(hist[|hist| - 1].tree, rules), rules.derive), hist, since, lo, code, f, p)
  {
    hide PathOk, Reindex, PagesOf, Complete;
    var rules := RulesAt(hist[|hist| - 1], code);
    var es := PagesOf(hist[|hist| - 1].tree, rules);
    ReindexPathOk(t, hist, since, lo, code, f, p);
    PathOkLower(Reindex(t, es, rules.derive), hist, since, if Complete(t, es) then |hist| - 1 else lo, lo, code, f, p);
  }

  /** A reindex may stop wherever every page is either untouched or done. */
  lemma FailReindexKeeps(w: World, k: nat)
    requires Inv(w) && Enabled(w, FailReindex(k))
    ensures Inv(Apply(w, FailReindex(k)))
  {
    hide PathOk, ReindexGroups, Flatten, ExecAll, PagesOf, Cut;
    var m, w' := w.db.meta.value, Apply(w, FailReindex(k));
    var f, t, u := FreshnessOf(m, w.version), w.db.tables, w'.db.tables;
    var whole := BeforeRebuild(w);
    forall p ensures PathOk(u, w.hist, w.since, Floor(m), w.code, f, p) {
      assert PathOk(t, w.hist, w.since, Floor(m), w.code, f, p);
      assert At(u, p) in {At(t, p), At(whole, p)};
      if At(u, p) == At(t, p) {
        PathOkBySlice(t, u, w.hist, w.since, Floor(m), w.code, f, p);
      } else {
        ReindexPathOkLow(t, w.hist, w.since, Floor(m), w.code, f, p);
        PathOkBySlice(whole, u, w.hist, w.since, Floor(m), w.code, f, p);
      }
    }
  }

  lemma BeforeRebuildPathOk(w: World, p: Path)
    requires Inv(w) && w.db.meta.Some? && w.db.meta.value.version < w.version
    ensures var m := w.db.meta.value;
      PathOk(BeforeRebuild(w), w.hist, w.since, Floor(m), w.code, UpTo(m.cursor), p)
  {
    hide PathOk, Reindex, PagesOf;
    var m := w.db.meta.value;
    assert PathOk(w.db.tables, w.hist, w.since, Floor(m), w.code, UpTo(m.cursor), p);
    if m.commit != Some(Tip(w)) {
      ReindexPathOkLow(w.db.tables, w.hist, w.since, Floor(m), w.code, UpTo(m.cursor), p);
    }
  }

  lemma FailRebuildKeeps(w: World, cfg: nat, n: nat)
    requires Inv(w) && Enabled(w, FailRebuild(cfg, n))
    ensures Inv(Apply(w, FailRebuild(cfg, n)))
  {
    hide PathOk, BeforeRebuild, RebuildGroups;
    var m, w' := w.db.meta.value, Apply(w, FailRebuild(cfg, n));
    forall p ensures PathOk(w'.db.tables, w.hist, w.since, Floor(m), w.code, UpTo(m.cursor), p) {
      BeforeRebuildPathOk(w, p);
      CutRebuildPathOk(BeforeRebuild(w), w.hist, w.since, Floor(m), w.code, ReadRules(w, cfg).derive, m.cursor, n, p);
    }
  }

  lemma WriteThroughKeeps(w: World, base: Commit, x: Bundle, cfg: nat)
    requires Inv(w) && Enabled(w, LandWriteThrough(base, x, cfg))
    ensures Inv(Apply(w, LandWriteThrough(base, x, cfg)))
  {
    hide PathOk, BundleGroups, Flatten, ExecAll, AfterBundle;
    var w' := Apply(w, LandWriteThrough(base, x, cfg));
    if w'.db != w.db {
      var landed: int := base + 1;
      forall p ensures PathOk(w'.db.tables, w.hist, w.since, landed, w.code, Everywhere, p) {
        assert PathOk(w.db.tables, w.hist, w.since, base, w.code, Everywhere, p);
        WriteThroughPathOk(w.db.tables, w.hist, w.since, base, x, w.code, cfg, p);
      }
    }
  }

  lemma DeployKeeps(w: World, code: Code, version: nat)
    requires Inv(w) && Enabled(w, Deploy(code, version))
    ensures Inv(Apply(w, Deploy(code, version)))
  {
    hide DerivedBySome, Less;
    if w.db.meta.Some? {
      var m := w.db.meta.value;
      forall p ensures PathOk(w.db.tables, w.hist, w.since, Floor(m), code, UpTo(m.cursor), p) {
        assert PathOk(w.db.tables, w.hist, w.since, Floor(m), w.code, FreshnessOf(m, w.version), p);
      }
    }
  }

  lemma StepKeeps(w: World, s: Step)
    requires Inv(w) && Enabled(w, s)
    ensures Inv(Apply(w, s))
  {
    match s
    case Push(c) => PushKeeps(w, c);
    case ReadIndex(cfg) => ReadKeeps(w, cfg);
    case FailReindex(k) => FailReindexKeeps(w, k);
    case FailRebuild(cfg, n) => FailRebuildKeeps(w, cfg, n);
    case FailFirstBuild(n) =>
    case LandWriteThrough(base, x, cfg) => WriteThroughKeeps(w, base, x, cfg);
    case Deploy(code, version) => DeployKeeps(w, code, version);
    case Reset =>
  }

  // ---------- whole runs ----------

  /** A run: each world is what one enabled step makes of the one before. */
  ghost predicate Run(ws: seq<World>) {
    && |ws| > 0
    && Starts(ws[0])
    && forall i :: 0 < i < |ws| ==> StepAt(ws, i)
  }

  ghost predicate StepAt(ws: seq<World>, i: nat)
    requires 0 < i < |ws|
  {
    |ws[i - 1].hist| > 0 && Follows(ws[i - 1], ws[i])
  }

  /** Any database contents, no meta row, one commit on the branch. */
  ghost predicate Starts(w: World) {
    w.db.meta.None? && |w.hist| == 1 && w.since == 0 && Distinct(w.hist[0].tree)
  }

  ghost predicate Follows(w: World, w': World)
    requires |w.hist| > 0
  {
    exists s :: Enabled(w, s) && w' == Apply(w, s)
  }

  lemma {:induction false} RunKeepsInv(ws: seq<World>)
    requires Run(ws)
    ensures Inv(ws[|ws| - 1])
    decreases |ws|
  {
    hide Apply, TablesOk;
    if |ws| > 1 {
      var before := ws[..|ws| - 1];
      forall i | 0 < i < |before| ensures StepAt(before, i) {
        assert StepAt(ws, i);
      }
      RunKeepsInv(before);
      var w := before[|before| - 1];
      assert StepAt(ws, |ws| - 1);
      var s :| Enabled(w, s) && ws[|ws| - 1] == Apply(w, s);
      StepKeeps(w, s);
    }
  }

  /** THE INDEX IS A CACHE OF THE BRANCH. After any run, an index that reports itself
      current for the tip serves the tip, and so does the database that the next read
      leaves whenever it reports itself current. */
  lemma RunServesTheBranch(ws: seq<World>, cfg: nat)
    requires Run(ws) && Since(ws[|ws| - 1], cfg)
    ensures var w := ws[|ws| - 1];
      && (Current(w.db, Tip(w), w.version) ==> Serves(w))
      && var after := Apply(w, ReadIndex(cfg));
         Current(after.db, Tip(w), w.version) ==> Serves(after)
  {
    hide Read, TablesOk, Serves;
    var w := ws[|ws| - 1];
    RunKeepsInv(ws);
    if Current(w.db, Tip(w), w.version) { CurrentServes(w); }
    ReadKeeps(w, cfg);
    var after := Apply(w, ReadIndex(cfg));
    if Current(after.db, Tip(w), w.version) { CurrentServes(after); }
  }
}
