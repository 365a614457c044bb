/** The index as the Worker runs it: statements over mutable tables, in batches that may fail.
    Each method is proved against the functions of ContentIndex and IndexRuns. */
module IndexStore {
  import opened Options
  import opened Paths
  import opened IndexTables
  import opened ContentIndex
  import opened IndexRuns

  lemma {:induction false} ExecAllLast(t: Tables, ss: seq<Stmt>, i: nat)
    requires i < |ss|
    ensures ExecAll(t, ss[..i + 1]) == Exec(ExecAll(t, ss[..i]), ss[i])
  {
    assert ss[..i + 1] == ss[..i] + [ss[i]];
    ExecAllAppend(t, ss[..i], [ss[i]]);
    assert ExecAll(ExecAll(t, ss[..i]), [ss[i]]) == Exec(ExecAll(t, ss[..i]), ss[i]);
  }

  lemma {:induction false} FlattenLast(gs: seq<Group>, i: nat)
    requires i < |gs|
    ensures Flatten(gs[..i + 1]) == Flatten(gs[..i]) + gs[i].stmts
  {
    assert gs[..i + 1] == gs[..i] + [gs[i]];
    FlattenAppend(gs[..i], [gs[i]]);
    assert Flatten([gs[i]]) == gs[i].stmts + Flatten([]);
  }

  class IndexDb {
    var pages: map<Path, PageRow>
    var links: map<Path, map<LinkKey, nat>>
    var fields: map<Path, set<Field>>
    var meta: Option<Meta>

    ghost function View(): Db
      reads this
    {
      Db(Tables(pages, links, fields), meta)
    }

    /** An unmigrated database holds nothing. */
    constructor ()
      ensures View() == Db(NoRows, None)
    {
      pages, links, fields, meta := map[], map[], map[], None;
    }

    method Run(s: Stmt)
      modifies this`pages, this`links, this`fields
      ensures View() == Db(Exec(old(View()).tables, s), old(meta))
    {
      match s
      case WipePages => pages := map[];
      case WipeLinks => links := map[];
      case WipeFields => fields := map[];
      case PutPage(p, row) => pages := pages[p := row];
      case SetTitle(p, title) => if p in pages { pages := pages[p := pages[p].(title := title)]; }
      case DropPage(p) => pages := pages - {p};
      case DropLinks(p) => links := links - {p};
      case DropFields(p) => fields := fields - {p};
      case PutLink(p, k, n) =>
        var row := if p in links then links[p] else map[];
        links := links[p := row[k := n]];
      case PutField(p, f) =>
        var row := if p in fields then fields[p] else {};
        fields := fields[p := row + {f}];
    }

    /** One batch is one transaction: a statement that fails takes the whole batch back. */
    method Batch(stmts: seq<Stmt>, failAt: Option<nat>) returns (ok: bool)
      modifies this`pages, this`links, this`fields
      ensures ok <==> failAt.None? || failAt.value >= |stmts|
      ensures View() == if ok then Db(ExecAll(old(View()).tables, stmts), old(meta)) else old(View())
    {
      var pages0, links0, fields0 := pages, links, fields;
      var i := 0;
      assert stmts[..0] == [];
      while i < |stmts|
        invariant i <= |stmts| && meta == old(meta)
        invariant failAt.Some? ==> i <= failAt.value
        invariant View().tables == ExecAll(old(View()).tables, stmts[..i])
      {
        if failAt == Some(i) {
          pages, links, fields := pages0, links0, fields0;
          return false;
        }
        ExecAllLast(old(View()).tables, stmts, i);
        Run(stmts[i]);
        i := i + 1;
      }
      assert stmts[..i] == stmts;
      return true;
    }

    /** Statements go out forty at a time. When a batch fails, the ones before it stay. */
    method RunBatched(stmts: seq<Stmt>, failBatch: Option<nat>) returns (ok: bool)
      modifies this`pages, this`links, this`fields
      ensures ok <==> failBatch.None? || BATCH_CHUNK * failBatch.value >= |stmts|
      ensures ok ==> View() == Db(ExecAll(old(View()).tables, stmts), old(meta))
      ensures !ok ==> View() == Db(ExecAll(old(View()).tables, stmts[..BATCH_CHUNK * failBatch.value]), old(meta))
    {
      var i, b := 0, 0;
      assert stmts[..0] == [];
      while i < |stmts|
        invariant i == BATCH_CHUNK * b && meta == old(meta)
        invariant failBatch.Some? && BATCH_CHUNK * failBatch.value < |stmts| ==> b <= failBatch.value
        invariant View().tables == ExecAll(old(View()).tables, if i <= |stmts| then stmts[..i] else stmts)
        decreases |stmts| - i
      {
        var end := if i + BATCH_CHUNK <= |stmts| then i + BATCH_CHUNK else |stmts|;
        var landed := Batch(stmts[i..end], if failBatch == Some(b) then Some(0) else None);
        if !landed {
          return false;
        }
        ExecAllAppend(old(View()).tables, stmts[..i], stmts[i..end]);
        assert stmts[..i] + stmts[i..end] == stmts[..end];
        assert stmts[..|stmts|] == stmts;
        i, b := i + BATCH_CHUNK, b + 1;
      }
      assert i == |stmts| ==> stmts[..i] == stmts;
      return true;
    }

    /** Pushes the statements of each path in turn. */
    method Gather(gs: seq<Group>) returns (stmts: seq<Stmt>)
      ensures stmts == Flatten(gs)
    {
      stmts := [];
      for i := 0 to |gs|
        invariant stmts == Flatten(gs[..i])
      {
        FlattenLast(gs, i);
        stmts := stmts + gs[i].stmts;
      }
      assert gs[..|gs|] == gs;
    }

    /** What a failed read leaves behind: the batches before the failed one, and the meta
        row as it was. */
    ghost predicate CutShort(db: Db, head: Commit, tree: seq<Entry>, rules: Rules, reindexFail: Option<nat>, rebuildFail: Option<nat>)
      reads this
    {
      var es := PagesOf(tree, rules);
      && meta == db.meta
      && if db.meta.None? then
           reindexFail.Some? && var ss := WIPE + Flatten(FirstBuildGroups(es, rules.derive));
           BATCH_CHUNK * reindexFail.value < |ss|
           && View().tables == ExecAll(db.tables, ss[..BATCH_CHUNK * reindexFail.value])
         else
           var stale := db.meta.value.commit != Some(head);
           var ss := Flatten(ReindexGroups(db.tables, es, rules.derive));
           var mid := if stale then ExecAll(db.tables, ss) else db.tables;
           var rs := Flatten(RebuildGroups(mid, rules.derive, db.meta.value.cursor));
           || (stale && reindexFail.Some? && BATCH_CHUNK * reindexFail.value < |ss|
               && View().tables == ExecAll(db.tables, ss[..BATCH_CHUNK * reindexFail.value]))
           || (rebuildFail.Some? && BATCH_CHUNK * rebuildFail.value < |rs|
               && View().tables == ExecAll(mid, rs[..BATCH_CHUNK * rebuildFail.value]))
    }

    /** The tip is already recorded: at most one rebuild slice. */
    method RefreshAtTip(rules: Rules, version: nat, rebuildFail: Option<nat>) returns (ok: bool)
      requires meta.Some?
      modifies this
      ensures var m, t := old(meta).value, old(View()).tables;
        var rs := Flatten(RebuildGroups(t, rules.derive, m.cursor));
        if m.version >= version then ok && View() == old(View())
        else
          && (ok <==> rebuildFail.None? || BATCH_CHUNK * rebuildFail.value >= |rs|)
          && (!ok ==> View() == Db(ExecAll(t, rs[..BATCH_CHUNK * rebuildFail.value]), old(meta)))
          && var next := NextCursor(t, m.cursor);
             (ok ==> View() == Db(Rebuild(t, rules.derive, m.cursor),
                       Some(m.(version := if next.None? then version else m.version, cursor := next))))
    {
      hide Less, Flatten, ExecAll, RebuildPaths;
      var m := meta.value;
      ok := true;
      if m.version < version {
        var t := Tables(pages, links, fields);
        var next := NextCursor(t, m.cursor);
        var stmts := Gather(RebuildGroups(t, rules.derive, m.cursor));
        ok := RunBatched(stmts, rebuildFail);
        if ok {
          meta := Some(m.(version := if next.None? then version else m.version, cursor := next));
        }
      }
    }

    /** ensureFresh: one read. Run to its end it does exactly what Read says. */
    method EnsureFresh(head: Commit, tree: seq<Entry>, rules: Rules, version: nat,
                       reindexFail: Option<nat>, rebuildFail: Option<nat>) returns (ok: bool, truncated: bool)
      modifies this
      ensures ok ==> View() == Read(old(View()), head, tree, rules, version)
      ensures ok ==> meta.Some? && truncated == meta.value.truncated
      ensures !ok ==> CutShort(old(View()), head, tree, rules, reindexFail, rebuildFail)
      ensures reindexFail.None? && rebuildFail.None? ==> ok
    {
      hide Less, Flatten, ExecAll, RebuildPaths, Select;
      if meta.Some? && meta.value.commit == Some(head) {
        truncated := meta.value.truncated;
        ok := RefreshAtTip(rules, version, rebuildFail);
        return;
      }
      var es := PagesOf(tree, rules);
      truncated := |es| > MAX_SCAN_PAGES;
      if meta.None? {
        var stmts := Gather(FirstBuildGroups(es, rules.derive));
        ok := RunBatched(WIPE + stmts, reindexFail);
        if ok {
          meta := Some(Meta(if |es| <= REINDEX_PAGE_BUDGET then Some(head) else None, truncated, version, None));
        }
        return;
      }
      ok := Reconcile(head, es, truncated, rules, version, reindexFail, rebuildFail);
    }

    /** A built index whose commit is not the tip: one reindex slice, then one rebuild
        slice when its rows are of an older version. */
    method Reconcile(head: Commit, es: seq<Entry>, truncated: bool, rules: Rules, version: nat,
                     reindexFail: Option<nat>, rebuildFail: Option<nat>) returns (ok: bool)
      requires meta.Some?
      modifies this
      ensures var m, t := old(meta).value, old(View()).tables;
        var u := Reindex(t, es, rules.derive);
        var ss, rs := Flatten(ReindexGroups(t, es, rules.derive)), Flatten(RebuildGroups(u, rules.derive, m.cursor));
        var next := NextCursor(u, m.cursor);
        var commit := if Complete(t, es) then Some(head) else m.commit;
        if reindexFail.Some? && BATCH_CHUNK * reindexFail.value < |ss| then
          !ok && View() == Db(ExecAll(t, ss[..BATCH_CHUNK * reindexFail.value]), old(meta))
        else if m.version >= version then
          ok && View() == Db(u, Some(Meta(commit, truncated, version, None)))
        else if rebuildFail.Some? && BATCH_CHUNK * rebuildFail.value < |rs| then
          !ok && View() == Db(ExecAll(u, rs[..BATCH_CHUNK * rebuildFail.value]), old(meta))
        else
          ok && View() == Db(Rebuild(u, rules.derive, m.cursor),
            Some(Meta(commit, truncated, if next.None? then version else m.version, next)))
    {
      hide Less, Flatten, ExecAll, RebuildPaths, Select;
      var m, t := meta.value, Tables(pages, links, fields);
      var commit := if Complete(t, es) then Some(head) else m.commit;
      var stmts := Gather(ReindexGroups(t, es, rules.derive));
      ok := RunBatched(stmts, reindexFail);
      if !ok {
        return;
      }
      if m.version < version {
        var u := Tables(pages, links, fields);
        var next := NextCursor(u, m.cursor);
        var rebuild := Gather(RebuildGroups(u, rules.derive, m.cursor));
        ok := RunBatched(rebuild, rebuildFail);
        if ok {
          meta := Some(Meta(commit, truncated, if next.None? then version else m.version, next));
        }
      } else {
        meta := Some(Meta(commit, truncated, version, None));
      }
    }

    /** The guarded batch: every statement, and the meta row last, checks the generation
        the bundle was planned against. */
    method GuardedBatch(stmts: seq<Stmt>, base: Commit, landed: Commit, version: nat, failAt: Option<nat>)
      returns (ok: bool, advanced: bool)
      modifies this
      ensures ok <==> failAt.None? || failAt.value > |stmts|
      ensures advanced <==> ok && Guard(old(View()), base, version)
      ensures View() ==
        if !advanced then old(View())
        else
          var t := ExecAll(old(View()).tables, stmts);
          Db(t, Some(old(meta).value.(commit := Some(landed), truncated := |t.pages| > MAX_SCAN_PAGES)))
    {
      var pages0, links0, fields0 := pages, links, fields;
      var i := 0;
      assert stmts[..0] == [];
      while i < |stmts|
        invariant i <= |stmts| && meta == old(meta)
        invariant failAt.Some? ==> i <= failAt.value
        invariant View().tables ==
          if Guard(old(View()), base, version) then ExecAll(old(View()).tables, stmts[..i]) else old(View()).tables
      {
        if failAt == Some(i) {
          pages, links, fields := pages0, links0, fields0;
          return false, false;
        }
        ExecAllLast(old(View()).tables, stmts, i);
        if IsCurrent(base, version) {
          Run(stmts[i]);
        }
        i := i + 1;
      }
      assert stmts[..i] == stmts;
      if failAt == Some(i) {
        pages, links, fields := pages0, links0, fields0;
        return false, false;
      }
      advanced := IsCurrent(base, version);
      if advanced {
        meta := Some(meta.value.(commit := Some(landed), truncated := |pages| > MAX_SCAN_PAGES));
      }
      return true, advanced;
    }

    predicate IsCurrent(base: Commit, version: nat)
      reads this`meta
      ensures IsCurrent(base, version) <==> Guard(View(), base, version)
    {
      meta.Some? && meta.value.commit == Some(base) && meta.value.version == version && meta.value.cursor.None?
    }

    /** writeThroughIndex, from the pre-read to the batch. Other requests may leave the
        database as `race` in between. A bundle planned on another generation, or too long
        for one transaction, stops before the batch; a lost race or a failed statement
        makes the batch nothing at all. */
    method WriteThroughIndex(base: Commit, landed: Commit, x: Bundle, rules: Rules, version: nat,
                             race: Option<Db>, failAt: Option<nat>) returns (advanced: bool)
      modifies this
      ensures var n := |Flatten(BundleGroups(x, rules))|;
        var before := if race.Some? then race.value else old(View());
        if !Guard(old(View()), base, version) || n + 1 > BATCH_CHUNK then
          !advanced && View() == old(View())
        else
          && (advanced <==> Guard(before, base, version) && (failAt.None? || failAt.value > n))
          && View() == (if advanced then WriteThrough(before, base, landed, x, rules, version) else before)
    {
      if !IsCurrent(base, version) {
        return false;
      }
      var stmts := GatherBundle(x, rules);
      if |stmts| + 1 > BATCH_CHUNK {
        return false;
      }
      if race.Some? {
        pages, links, fields := race.value.tables.pages, race.value.tables.links, race.value.tables.fields;
        meta := race.value.meta;
      }
      var _, moved := GuardedBatch(stmts, base, landed, version, failAt);
      return moved;
    }

    /** The bundle's statements: each written page, then each deleted one; other files in
        the bundle have no rows. */
    method GatherBundle(x: Bundle, rules: Rules) returns (stmts: seq<Stmt>)
      ensures stmts == Flatten(BundleGroups(x, rules))
    {
      stmts := [];
      for i := 0 to |x.writes|
        invariant stmts == Flatten(WriteGroups(x.writes[..i], rules))
      {
        var w := x.writes[i];
        WriteGroupsLast(x.writes, rules, i);
        if rules.isPage(w.path) && w.blob.Text? {
          stmts := stmts + PageGroup(w.path, w.blob.content, w.blob, rules.derive(w.path, w.blob.content));
        }
      }
      assert x.writes[..|x.writes|] == x.writes;
      for i := 0 to |x.deletes|
        invariant stmts == Flatten(WriteGroups(x.writes, rules)) + Flatten(DeleteGroups(x.deletes[..i], rules))
      {
        DeleteGroupsLast(x.deletes, rules, i);
        if rules.isPage(x.deletes[i]) {
          stmts := stmts + DropGroup(x.deletes[i]);
        }
      }
      assert x.deletes[..|x.deletes|] == x.deletes;
      FlattenAppend(WriteGroups(x.writes, rules), DeleteGroups(x.deletes, rules));
    }

    /** resetIndex: the next read builds from scratch. */
    method Reset()
      modifies this
      ensures View() == Db(NoRows, None)
    {
      pages, links, fields, meta := map[], map[], map[], None;
    }
  }

  lemma {:induction false} WriteGroupsAppend(a: seq<FileWrite>, b: seq<FileWrite>, rules: Rules)
    ensures WriteGroups(a + b, rules) == WriteGroups(a, rules) + WriteGroups(b, rules)
    decreases |a|
  {
    if a == [] {
      assert a + b == b;
    } else {
      assert (a + b)[1..] == a[1..] + b;
      WriteGroupsAppend(a[1..], b, rules);
    }
  }

  lemma WriteGroupsLast(ws: seq<FileWrite>, rules: Rules, i: nat)
    requires i < |ws|
    ensures Flatten(WriteGroups(ws[..i + 1], rules)) == Flatten(WriteGroups(ws[..i], rules))
      + (if rules.isPage(ws[i].path) && ws[i].blob.Text?
         then PageGroup(ws[i].path, ws[i].blob.content, ws[i].blob, rules.derive(ws[i].path, ws[i].blob.content))
         else [])
  {
    hide PageGroup;
    assert ws[..i + 1] == ws[..i] + [ws[i]];
    WriteGroupsAppend(ws[..i], [ws[i]], rules);
    var one := WriteGroups([ws[i]], rules);
    FlattenAppend(WriteGroups(ws[..i], rules), one);
    assert WriteGroups([ws[i]][1..], rules) == [];
    if one != [] { assert Flatten(one) == one[0].stmts + Flatten(one[1..]); }
  }

  lemma {:induction false} DeleteGroupsAppend(a: seq<Path>, b: seq<Path>, rules: Rules)
    ensures DeleteGroups(a + b, rules) == DeleteGroups(a, rules) + DeleteGroups(b, rules)
    decreases |a|
  {
    if a == [] {
      assert a + b == b;
    } else {
      assert (a + b)[1..] == a[1..] + b;
      DeleteGroupsAppend(a[1..], b, rules);
    }
  }

  lemma DeleteGroupsLast(ps: seq<Path>, rules: Rules, i: nat)
    requires i < |ps|
    ensures Flatten(DeleteGroups(ps[..i + 1], rules)) == Flatten(DeleteGroups(ps[..i], rules))
      + (if rules.isPage(ps[i]) then DropGroup(ps[i]) else [])
  {
    assert ps[..i + 1] == ps[..i] + [ps[i]];
    DeleteGroupsAppend(ps[..i], [ps[i]], rules);
    var one := DeleteGroups([ps[i]], rules);
    FlattenAppend(DeleteGroups(ps[..i], rules), one);
    assert DeleteGroups([ps[i]][1..], rules) == [];
    if one != [] { assert Flatten(one) == one[0].stmts + Flatten(one[1..]); }
  }
}
