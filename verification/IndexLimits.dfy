/** Where the index stops being a faithful cache, and exactly when. */
module IndexLimits {
  // A branch put back to an old tip, a page torn across two batches, a deploy in the middle of
  // a rebuild, and two reads that overlap.

  import opened Options
  import opened Paths
  import opened IndexTables
  import opened ContentIndex
  import opened IndexRuns
  import opened IndexConvergence

  // ---------- a branch put back ----------

  /** After an over-budget read the index still reports itself current for the commit it
      left. Put the branch back there and reads serve the moved rows for good, unless the
      slice had nothing to write and nothing to drop. */
  lemma RevertedBranch(db: Db, was: Commit, prior: seq<Entry>, head: Commit, tree: seq<Entry>, rules: Rules, version: nat, n: nat)
    requires Distinct(tree) && was != head
    requires Current(db, was, version) && Truthful(db.tables, prior, rules)
    requires !Complete(db.tables, PagesOf(tree, rules))
    ensures var es, after := PagesOf(tree, rules), Read(db, head, tree, rules, version);
      && Repeat(Reader(was, prior, rules, version), after, n) == after
      && Current(after, was, version)
      && (Truthful(after.tables, prior, rules) <==> (Written(db.tables, es) == [] && Removed(db.tables, es) == []))
  {
    hide Reindex, Rebuild, Truthful, Written, Removed;
    var after := Read(db, head, tree, rules, version);
    PagesOfMembers(tree, rules);
    SliceLeavesPrior(db.tables, PagesOf(tree, rules), prior, rules);
    CurrentIsStable(after, was, prior, rules, version, n);
  }

  // ---------- a torn page ----------

  predicate DistinctRows(d: Derived) {
    && (forall i, j :: 0 <= i < j < |d.links| ==> d.links[i].0 != d.links[j].0)
    && (forall i, j :: 0 <= i < j < |d.fields| ==> d.fields[i] != d.fields[j])
  }

  lemma {:induction false} LinkRowKeys(ls: seq<(LinkKey, nat)>)
    ensures forall k :: k in LinkRows(ls) <==> exists i :: 0 <= i < |ls| && ls[i].0 == k
  {
    if ls != [] {
      var init := ls[..|ls| - 1];
      LinkRowKeys(init);
      forall k ensures k in LinkRows(ls) <==> exists i :: 0 <= i < |ls| && ls[i].0 == k {
        if k in LinkRows(init) {
          var i :| 0 <= i < |init| && init[i].0 == k;
          assert ls[i].0 == k;
        } else if i :| 0 <= i < |ls| && ls[i].0 == k {
          assert i == |ls| - 1 || init[i].0 == k;
        }
      }
    }
  }

  /** The rows of a page group cut after n statements: at first over what was there. */
  lemma CutPageSlice(x: Slice, p: Path, content: string, blob: Blob, d: Derived, n: nat)
    requires n <= |PageGroup(p, content, blob, d)|
    ensures var m := n - 3;
      ExecSlices(x, PageGroup(p, content, blob, d)[..n]) ==
        if n == 0 then x
        else Slice(Some(PageRow(d.title, blob, content)),
               if n == 1 then x.links else LinkRows(CutLinks(d, n)),
               if n <= 2 then x.fields else FieldRows(CutFields(d, n)))
  {
    var put := PutPage(p, PageRow(d.title, blob, content));
    if n >= 3 {
      var cut := Derived(d.title, CutLinks(d, n), CutFields(d, n));
      PageGroupSlices(x, p, content, blob, cut);
      assert PageGroup(p, content, blob, d)[..n] == PageGroup(p, content, blob, cut);
    } else if n == 2 {
      assert PageGroup(p, content, blob, d)[..n] == [put] + [DropLinks(p)];
      ExecSlicesAppend(x, [put], [DropLinks(p)]);
      assert LinkRows([]) == map[];
    } else if n == 1 {
      assert PageGroup(p, content, blob, d)[..n] == [put];
    }
  }

  lemma CutNone(d: Derived)
    ensures CutLinks(d, 2) == []
  {
  }

  function CutLinks(d: Derived, n: nat): seq<(LinkKey, nat)> {
    if n <= 3 then [] else if n - 3 <= |d.links| then d.links[..n - 3] else d.links
  }

  function CutFields(d: Derived, n: nat): seq<Field> {
    if n - 3 <= |d.links| then [] else if n - 3 - |d.links| <= |d.fields| then d.fields[..n - 3 - |d.links|] else d.fields
  }

  /** What a cut leaves out shows: past the clears the rows are whole exactly when nothing
      was cut. */
  lemma CutRowsWhole(d: Derived, n: nat)
    requires DistinctRows(d) && 3 <= n <= 3 + |d.links| + |d.fields|
    ensures LinkRows(CutLinks(d, n)) == LinkRows(d.links) && FieldRows(CutFields(d, n)) == FieldRows(d.fields)
        <==> n == 3 + |d.links| + |d.fields|
  {
    var m := n - 3;
    if m < |d.links| {
      LinkRowKeys(d.links[..m]);
      LinkRowKeys(d.links);
      assert d.links[m].0 in LinkRows(d.links) && d.links[m].0 !in LinkRows(d.links[..m]);
    } else {
      var k := m - |d.links|;
      assert m == |d.links| ==> d.links[..m] == d.links && d.fields[..k] == [];
      if k < |d.fields| {
        assert d.fields[k] in FieldRows(d.fields) && d.fields[k] !in FieldRows(d.fields[..k]);
      } else {
        assert d.fields[..k] == d.fields;
      }
    }
  }

  lemma NoLinkRows(ls: seq<(LinkKey, nat)>)
    ensures LinkRows(ls) == map[] <==> ls == []
  {
    LinkRowKeys(ls);
    if ls != [] { assert ls[0].0 in LinkRows(ls); }
  }

  /** When a cut after n statements leaves a page whole all the same: the rows it had not
      yet replaced were the right ones already. */
  predicate CutWhole(x: Slice, content: string, blob: Blob, d: Derived, n: nat) {
    if n == 0 then x == PageSlice(content, blob, d)
    else if n == 1 then x.links == LinkRows(d.links) && x.fields == FieldRows(d.fields)
    else if n == 2 then d.links == [] && x.fields == FieldRows(d.fields)
    else n == 3 + |d.links| + |d.fields|
  }

  /** A page replacement stopped after any number of its statements leaves the page whole
      exactly when every statement ran, or those left to run had nothing to change. */
  lemma TornPage(t: Tables, p: Path, content: string, blob: Blob, d: Derived, n: nat)
    requires DistinctRows(d) && n <= |PageGroup(p, content, blob, d)|
    ensures At(ExecAll(t, PageGroup(p, content, blob, d)[..n]), p) == PageSlice(content, blob, d)
        <==> CutWhole(At(t, p), content, blob, d, n)
  {
    hide LinkRows, FieldRows, ExecSlices, ExecAll, DistinctRows, CutLinks, CutFields;
    PageGroupConcerns(p, content, blob, d);
    ExecAllAt(t, PageGroup(p, content, blob, d)[..n], p);
    CutPageSlice(At(t, p), p, content, blob, d, n);
    if n >= 3 { CutRowsWhole(d, n); }
    NoLinkRows(d.links);
    NoLinkRows(CutLinks(d, n));
    CutNone(d);
  }

  /** When a page's deletion stopped after n statements has left no row of it. */
  predicate DropWhole(x: Slice, n: nat) {
    n >= 3 || (x.fields == {} && (n == 2 || (x.links == map[] && (n == 1 || x.page.None?))))
  }

  lemma TornDrop(t: Tables, p: Path, n: nat)
    requires n <= 3
    ensures At(ExecAll(t, DropGroup(p)[..n]), p).page.Some? ==> n == 0
    ensures At(ExecAll(t, DropGroup(p)[..n]), p) == EmptySlice <==> DropWhole(At(t, p), n)
  {
    ExecAllAt(t, DropGroup(p)[..n], p);
    var x := At(t, p);
    if n == 3 {
      assert DropGroup(p)[..n] == DropGroup(p);
      Three(x, DropPage(p), DropLinks(p), DropFields(p));
    } else if n == 2 {
      assert DropGroup(p)[..n] == [DropPage(p)] + [DropLinks(p)];
      ExecSlicesAppend(x, [DropPage(p)], [DropLinks(p)]);
    } else if n == 1 {
      assert DropGroup(p)[..n] == [DropPage(p)];
    }
  }

  /** No page that this reindex was to drop or to write is left torn by its failed batch. */
  predicate BatchEndsWhole(t: Tables, es: seq<Entry>, derive: Derive, n: nat)
    requires Distinct(es)
  {
    WrittenMembers(t, es);
    var gs, ps, ws := ReindexGroups(t, es, derive), Removed(t, es), Written(t, es);
    && |gs| == |ps| + |ws|
    && (forall i :: 0 <= i < |ps| ==> Ran(gs, n, i) == 0 || DropWhole(At(t, ps[i]), Ran(gs, n, i)))
    && (forall i :: 0 <= i < |ws| ==> Ran(gs, n, |ps| + i) == 0 || CutWhole(At(t, ws[i].path), ws[i].blob.content, ws[i].blob,
          derive(ws[i].path, ws[i].blob.content), Ran(gs, n, |ps| + i)))
  }

  lemma DropCut(t: Tables, es: seq<Entry>, derive: Derive, n: nat, i: nat)
    requires Distinct(es) && i < |Removed(t, es)|
    ensures var gs, p := ReindexGroups(t, es, derive), Removed(t, es)[i];
      i < |gs| && gs[i].path == p
      && (At(Cut(t, Flatten(gs), n), p) in {At(t, p), At(Reindex(t, es, derive), p)}
          <==> Ran(gs, n, i) == 0 || DropWhole(At(t, p), Ran(gs, n, i)))
  {
    hide Flatten, ExecAll, Cut, Ran, PageGroups, Written, ExecSlices, Less, Changed;
    var gs, p := ReindexGroups(t, es, derive), Removed(t, es)[i];
    assert p in Removed(t, es);
    ReindexGroupsShape(t, es, derive);
    DropGroupOf(t, es, derive, i);
    CutAt(t, gs, n, i);
    ReindexDrops(t, es, derive, p);
    var r := Ran(gs, n, i);
    ExecAllAt(t, DropGroup(p)[..r], p);
    TornDrop(t, p, r);
    NoStatements(At(t, p), DropGroup(p));
    assert At(t, p).page.Some?;
  }

  lemma NoStatements(x: Slice, ss: seq<Stmt>)
    ensures ExecSlices(x, ss[..0]) == x
  {
  }

  lemma DropGroupOf(t: Tables, es: seq<Entry>, derive: Derive, i: nat)
    requires i < |Removed(t, es)|
    ensures var gs := ReindexGroups(t, es, derive);
      i < |gs| && gs[i] == Group(Removed(t, es)[i], DropGroup(Removed(t, es)[i]))
  {
  }

  lemma PageCut(t: Tables, es: seq<Entry>, derive: Derive, n: nat, i: nat)
    requires Distinct(es) && i < |Written(t, es)| && Written(t, es)[i].blob.Text?
    requires DistinctRows(derive(Written(t, es)[i].path, Written(t, es)[i].blob.content))
    ensures var gs, e, k := ReindexGroups(t, es, derive), Written(t, es)[i], |Removed(t, es)| + i;
      k < |gs| && gs[k].path == e.path
      && (At(Cut(t, Flatten(gs), n), e.path) in {At(t, e.path), At(Reindex(t, es, derive), e.path)}
          <==> Ran(gs, n, k) == 0 || CutWhole(At(t, e.path), e.blob.content, e.blob, derive(e.path, e.blob.content), Ran(gs, n, k)))
  {
    hide Flatten, ExecAll, Cut, Ran, PageGroup, ExecSlices, Less, Changed, DistinctRows, CutWhole, Removed,
      PageGroups;
    var gs, e, k := ReindexGroups(t, es, derive), Written(t, es)[i], |Removed(t, es)| + i;
    var d := derive(e.path, e.blob.content);
    assert e in Written(t, es);
    WrittenMembers(t, es);
    ReindexGroupsShape(t, es, derive);
    WrittenGroup(t, es, derive, i);
    CutAt(t, gs, n, k);
    ReindexWrites(t, es, derive, e);
    var r := Ran(gs, n, k);
    PageGroupConcerns(e.path, e.blob.content, e.blob, d);
    ExecAllAt(t, PageGroup(e.path, e.blob.content, e.blob, d)[..r], e.path);
    TornPage(t, e.path, e.blob.content, e.blob, d, r);
    NoStatements(At(t, e.path), PageGroup(e.path, e.blob.content, e.blob, d));
    CutRowMoved(At(t, e.path), e.path, e.blob.content, e.blob, d, r);
  }

  /** From its first statement on a page group shows: the row has the new blob. */
  lemma CutRowMoved(x: Slice, p: Path, content: string, blob: Blob, d: Derived, n: nat)
    requires n <= |PageGroup(p, content, blob, d)|
    requires x.page.Some? ==> x.page.value.blob != blob
    ensures n > 0 ==> ExecSlices(x, PageGroup(p, content, blob, d)[..n]) != x
  {
    hide ExecSlices, PageGroup, LinkRows, FieldRows;
    CutPageSlice(x, p, content, blob, d, n);
  }

  /** A BATCH THAT FAILS leaves every page either untouched or done if and only if the statements
      it kept from the page they end in had nothing left to change there. */
  lemma FailedBatchIff(t: Tables, es: seq<Entry>, derive: Derive, n: nat)
    requires Distinct(es)
    requires forall e :: e in Written(t, es) && e.blob.Text? ==> DistinctRows(derive(e.path, e.blob.content))
    ensures CleanCut(t, ReindexGroups(t, es, derive), n) <==> BatchEndsWhole(t, es, derive, n)
  {
    hide Flatten, ExecAll, Cut, Ran, PageGroup, ExecSlices, Less, Changed, DistinctRows, CutWhole,
      DropWhole, Removed, Written, ReindexGroups;
    var gs, ps, ws := ReindexGroups(t, es, derive), Removed(t, es), Written(t, es);
    GroupCount(t, es, derive);
    WrittenMembers(t, es);
    forall i | 0 <= i < |ps|
      ensures At(Cut(t, Flatten(gs), n), ps[i]) in {At(t, ps[i]), At(Reindex(t, es, derive), ps[i])}
        <==> Ran(gs, n, i) == 0 || DropWhole(At(t, ps[i]), Ran(gs, n, i))
    {
      DropCut(t, es, derive, n, i);
    }
    forall i | 0 <= i < |ws|
      ensures At(Cut(t, Flatten(gs), n), ws[i].path) in {At(t, ws[i].path), At(Reindex(t, es, derive), ws[i].path)}
        <==> Ran(gs, n, |ps| + i) == 0 || CutWhole(At(t, ws[i].path), ws[i].blob.content, ws[i].blob,
              derive(ws[i].path, ws[i].blob.content), Ran(gs, n, |ps| + i))
    {
      assert ws[i] in ws;
      PageCut(t, es, derive, n, i);
    }
    if BatchEndsWhole(t, es, derive, n) {
      forall p ensures At(Cut(t, Flatten(gs), n), p) in {At(t, p), At(Reindex(t, es, derive), p)} {
        if i :| 0 <= i < |ps| && ps[i] == p {
        } else if i :| 0 <= i < |ws| && ws[i].path == p {
        } else {
          CutAside(t, es, derive, n, p);
        }
      }
    }
  }

  lemma GroupCount(t: Tables, es: seq<Entry>, derive: Derive)
    ensures |ReindexGroups(t, es, derive)| == |Removed(t, es)| + |Written(t, es)|
  {
  }

  lemma CutAside(t: Tables, es: seq<Entry>, derive: Derive, n: nat, p: Path)
    requires Distinct(es) && p !in Removed(t, es)
    requires forall i :: 0 <= i < |Written(t, es)| ==> Written(t, es)[i].path != p
    ensures At(Cut(t, Flatten(ReindexGroups(t, es, derive)), n), p) == At(t, p)
  {
    hide Flatten, Cut, Changed, PageGroup, DropGroup, ExecAll;
    var gs, ps := ReindexGroups(t, es, derive), Removed(t, es);
    ReindexGroupsShape(t, es, derive);
    WrittenMembers(t, es);
    forall i | 0 <= i < |gs| ensures gs[i].path != p {
      if i < |ps| {
        assert ps[i] in ps;
      } else {
        assert Written(t, es)[i - |ps|] in Written(t, es);
        WrittenGroup(t, es, derive, i - |ps|);
      }
    }
    CutElsewhere(t, gs, n, p);
  }

  /** What a torn deletion left is never cleared: with its page row gone nothing looks for
      the link and field rows. */
  lemma OrphanRowsStay(db: Db, head: Commit, tree: seq<Entry>, rules: Rules, version: nat, p: Path)
    requires Distinct(tree) && db.meta.Some? && p !in db.tables.pages
    requires forall e :: e in PagesOf(tree, rules) && e.path == p ==> !e.blob.Text?
    ensures At(Read(db, head, tree, rules, version).tables, p) == At(db.tables, p)
  {
    hide Reindex, Rebuild, RebuildPaths, NextCursor, Written, PagesOf, Removed;
    var es, t := PagesOf(tree, rules), db.tables;
    PagesOfMembers(tree, rules);
    WrittenMembers(t, es);
    ReindexKeeps(t, es, rules.derive, p);
    var u := Reindex(t, es, rules.derive);
    assert PageAt(u, p) == PageAt(t, p);
    RebuildAt(t, rules.derive, db.meta.value.cursor, p);
    RebuildAt(u, rules.derive, db.meta.value.cursor, p);
  }

  /** A torn page is never repaired: its blob already matches, so no later reindex looks
      at it, and a complete read then reports the tip over the torn rows. */
  lemma TornPageStays(db: Db, head: Commit, tree: seq<Entry>, rules: Rules, version: nat, e: Entry)
    requires Distinct(tree) && e in PagesOf(tree, rules) && e.blob.Text?
    requires db.meta.Some? && db.meta.value.version == version && db.meta.value.cursor.None?
    requires !AtCommit(db, head) && Complete(db.tables, PagesOf(tree, rules))
    requires Stored(db.tables, e)
    ensures var after := Read(db, head, tree, rules, version);
      && Current(after, head, version)
      && At(after.tables, e.path) == At(db.tables, e.path)
      && (Truthful(after.tables, tree, rules) ==>
            At(db.tables, e.path) == PageSlice(e.blob.content, e.blob, rules.derive(e.path, e.blob.content)))
  {
    PagesOfMembers(tree, rules);
    UnwrittenEntry(db.tables, PagesOf(tree, rules), rules.derive, e);
    WantFromEntry(tree, rules, e);
  }

  // ---------- a deploy in the middle of a rebuild ----------

  /** The resume cursor does not say which version its rows were derived by. Deploying a
      newer version mid-rebuild keeps the invariant exactly when the new code, under some
      settings met since the build, derives what the pages already rebuilt hold. */
  lemma MidRebuildDeployIff(w: World, code: Code, version: nat)
    requires Inv(w) && w.version < version
    requires w.db.meta.Some? && w.db.meta.value.version < w.version && w.db.meta.value.cursor.Some?
    ensures Inv(w.(code := code, version := version)) <==>
      forall p :: p in w.db.tables.pages && !Less(w.db.meta.value.cursor.value, p) ==>
        DerivedBySome(w.db.tables, w.hist, w.since, code, p)
  {
    hide DerivedBySome, HistoryOk, Less;
    var m, t := w.db.meta.value, w.db.tables;
    var w' := w.(code := code, version := version);
    if Inv(w') {
      forall p | p in t.pages && !Less(m.cursor.value, p) ensures DerivedBySome(t, w.hist, w.since, code, p) {
        assert PathOk(t, w.hist, w.since, Floor(m), code, UpTo(m.cursor), p);
      }
    }
    if forall p :: p in t.pages && !Less(m.cursor.value, p) ==> DerivedBySome(t, w.hist, w.since, code, p) {
      forall p ensures PathOk(t, w.hist, w.since, Floor(m), code, UpTo(m.cursor), p) {
        assert PathOk(t, w.hist, w.since, Floor(m), w.code, UpTo(m.cursor), p);
      }
    }
  }

  /** Reads that finish such a rebuild never revisit a page at or before the cursor, so
      they report the tip current over rows the running code would not derive. */
  lemma {:induction false} MidRebuildRowsStay(db: Db, head: Commit, tree: seq<Entry>, rules: Rules, version: nat, p: Path, n: nat)
    requires AtCommit(db, head) && db.meta.value.version < version
    requires db.meta.value.cursor.Some? && !Less(db.meta.value.cursor.value, p)
    ensures At(Repeat(Reader(head, tree, rules, version), db, n).tables, p) == At(db.tables, p)
    decreases n
  {
    hide Rebuild, Less, RebuildPaths, NextCursor, PagesOf, Reindex, FirstBuild;
    if n > 0 {
      var m := db.meta.value;
      var read := Reader(head, tree, rules, version);
      var next := read(db);
      RebuildAt(db.tables, rules.derive, m.cursor, p);
      RebuildPathsMembers(db.tables, m.cursor);
      assert p !in RebuildPaths(db.tables, m.cursor);
      assert At(next.tables, p) == At(db.tables, p);
      if next.meta.value.version < version {
        CursorMoves(db.tables, m.cursor, p);
        MidRebuildRowsStay(next, head, tree, rules, version, p, n - 1);
      } else {
        CurrentIsStable(next, head, tree, rules, version, n - 1);
      }
    }
  }

  lemma CursorMoves(t: Tables, cursor: Option<Path>, p: Path)
    requires cursor.Some? && !Less(cursor.value, p) && NextCursor(t, cursor).Some?
    ensures !Less(NextCursor(t, cursor).value, p)
  {
    var last := NextCursor(t, cursor).value;
    RebuildPathsMembers(t, cursor);
    assert last in RebuildPaths(t, cursor);
    if Less(last, p) { LessTransitive(cursor.value, last, p); }
  }

  // ---------- two reads that overlap ----------

  /** The statements of a slow read, planned on the tables `t` for an older tree, say at every
      path they touch what the tip says. */
  ghost predicate SlowReadAgrees(t: Tables, stale: seq<Entry>, tree: seq<Entry>, rules: Rules) {
    && (forall e :: e in Written(t, PagesOf(stale, rules)) ==> BlobAt(tree, e.path) == Some(e.blob))
    && (forall p :: p in Removed(t, PagesOf(stale, rules)) ==>
          !(rules.isPage(p) && BlobAt(tree, p).Some? && BlobAt(tree, p).value.Text?))
  }

  /** A slow read that planned its statements on `t` for an older tree, and applies them
      after another read has brought the index current for the tip, leaves the meta row
      naming the tip; and the rows are still the tip's if and only if every page it writes
      has its text there and every page it drops is not there to be read. Otherwise the
      index lies until the slow read writes its own meta row, and for good if that fails. */
  lemma OverlappingReads(t: Tables, stale: seq<Entry>, live: Db, head: Commit, tree: seq<Entry>, rules: Rules, version: nat)
    requires Distinct(stale)
    requires Current(live, head, version) && Truthful(live.tables, tree, rules)
    ensures var es := PagesOf(stale, rules);
      var after := live.(tables := ExecAll(live.tables, Flatten(ReindexGroups(t, es, rules.derive))));
      && Current(after, head, version)
      && (Truthful(after.tables, tree, rules) <==> SlowReadAgrees(t, stale, tree, rules))
  {
    hide PageSlice, ExecAll, Flatten, ReindexGroups, Written, Removed, PagesOf;
    var es := PagesOf(stale, rules);
    PagesOfMembers(stale, rules);
    WrittenMembers(t, es);
    var u := ExecAll(live.tables, Flatten(ReindexGroups(t, es, rules.derive)));
    forall p ensures At(u, p) == Want(tree, rules, p) <==> SlowRowAgrees(t, es, tree, rules, p) {
      assert At(live.tables, p) == Want(tree, rules, p);
      SlowRow(t, es, live.tables, tree, rules, p);
    }
    if SlowReadAgrees(t, stale, tree, rules) {
      forall p ensures At(u, p) == Want(tree, rules, p) { assert SlowRowAgrees(t, es, tree, rules, p); }
    }
    if Truthful(u, tree, rules) {
      forall p ensures SlowRowAgrees(t, es, tree, rules, p) { assert At(u, p) == Want(tree, rules, p); }
      forall e | e in Written(t, es) ensures BlobAt(tree, e.path) == Some(e.blob) {
        assert SlowRowAgrees(t, es, tree, rules, e.path);
      }
      forall p | p in Removed(t, es) ensures !(rules.isPage(p) && BlobAt(tree, p).Some? && BlobAt(tree, p).value.Text?) {
        assert SlowRowAgrees(t, es, tree, rules, p);
      }
    }
  }

  /** The same for one path. */
  ghost predicate SlowRowAgrees(t: Tables, es: seq<Entry>, tree: seq<Entry>, rules: Rules, p: Path) {
    && (forall e :: e in Written(t, es) && e.path == p ==> BlobAt(tree, p) == Some(e.blob))
    && (p in Removed(t, es) ==> !(rules.isPage(p) && BlobAt(tree, p).Some? && BlobAt(tree, p).value.Text?))
  }

  lemma SlowRow(t: Tables, es: seq<Entry>, u: Tables, tree: seq<Entry>, rules: Rules, p: Path)
    requires Distinct(es) && (forall e :: e in es ==> rules.isPage(e.path))
    requires At(u, p) == Want(tree, rules, p)
    ensures At(ExecAll(u, Flatten(ReindexGroups(t, es, rules.derive))), p) == Want(tree, rules, p)
        <==> SlowRowAgrees(t, es, tree, rules, p)
  {
    hide ExecAll, Flatten, ReindexGroups, Written, Changed;
    WrittenMembers(t, es);
    if p in Removed(t, es) {
      DroppedRowOver(t, u, es, rules.derive, p);
    } else if e :| e in Written(t, es) && e.path == p {
      WrittenRowOver(t, u, es, rules.derive, e);
      OneWrite(t, es, e);
    } else {
      KeptRowOver(t, u, es, rules.derive, p);
    }
  }

  lemma OneWrite(t: Tables, es: seq<Entry>, e: Entry)
    requires Distinct(es) && e in Written(t, es)
    ensures forall x :: x in Written(t, es) && x.path == e.path ==> x == e
  {
    WrittenMembers(t, es);
    forall x | x in Written(t, es) && x.path == e.path ensures x == e {
      BlobAtEntry(es, x);
      BlobAtEntry(es, e);
    }
  }

  // ---------- runs that come to rest ----------

  /** What every run leaves is what the reads that catch up start from. */
  lemma InvIsSane(w: World)
    requires Inv(w)
    ensures Sane(w.db, Tip(w), TipPages(w), w.version) && Distinct(w.hist[Tip(w)].tree)
  {
    hide DerivedBySome, PageSlice, Less;
    var tree, es := w.hist[Tip(w)].tree, TipPages(w);
    PagesOfMembers(tree, TipRules(w));
    if AtCommit(w.db, Tip(w)) {
      var m, t := w.db.meta.value, w.db.tables;
      forall p | p in t.pages ensures p in PathsOf(es) {
        assert PathOk(t, w.hist, w.since, Floor(m), w.code, FreshnessOf(m, w.version), p);
        var k :| Floor(m) <= k && Anchored(t, w.hist, w.since, k, p);
        EntryOfBlob(tree, p);
        assert Entry(p, BlobAt(tree, p).value) in es;
      }
    }
  }

  /** AFTER ANY RUN, with the branch at rest, reads alone bring the index current for the tip if and
      only if it names the tip already or no page it has to fetch stands behind six hundred
      that come back without text. */
  lemma RunConvergesIff(ws: seq<World>)
    requires Run(ws)
    ensures var w := ws[|ws| - 1];
      && |w.hist| > 0
      && var tree, rules := w.hist[Tip(w)].tree, TipRules(w);
         ((exists n: nat :: Current(Repeat(Reader(Tip(w), tree, rules, w.version), w.db, n), Tip(w), w.version))
           <==> (AtCommit(w.db, Tip(w)) || !Jammed(Left(w.db, PagesOf(tree, rules)))))
  {
    hide Sane, Jammed, Left, Repeat, Current, PagesOf, Distinct;
    var w := ws[|ws| - 1];
    RunKeepsInv(ws);
    InvIsSane(w);
    ConvergesIff(w.db, Tip(w), w.hist[Tip(w)].tree, TipRules(w), w.version);
  }
}
