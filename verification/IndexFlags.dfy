/** The flag that tells a reader the brain is too big to scan: what it counts, and when. */
module IndexFlags {
  // ensureFresh returns nothing but this flag (src/lib/brain-index.ts). A read that reconciles counts
  // the pages of the tree it reads; a read at the tip repeats the stored flag; a write-through counts
  // the stored rows. Over a whole run the stored flag is that of the last of these.

  import opened Options
  import opened Paths
  import opened IndexTables
  import opened ContentIndex
  import opened IndexRuns

  /** The paths of a tree that are pages. */
  function PagePaths(tree: seq<Entry>, isPage: Path -> bool): set<Path> {
    set e | e in tree && isPage(e.path) :: e.path
  }

  lemma {:induction false} DistinctCount(es: seq<Entry>)
    requires Distinct(es)
    ensures |PathsOf(es)| == |es|
  {
    if es != [] {
      var init, last := es[..|es| - 1], es[|es| - 1];
      DistinctCount(init);
      assert PathsOf(es) == PathsOf(init) + {last.path} by { assert es == init + [last]; }
      assert last.path !in PathsOf(init);
    }
  }

  lemma PagesCounted(tree: seq<Entry>, rules: Rules)
    requires Distinct(tree)
    ensures |PagesOf(tree, rules)| == |PagePaths(tree, rules.isPage)|
  {
    PagesOfMembers(tree, rules);
    DistinctCount(PagesOf(tree, rules));
    assert PathsOf(PagesOf(tree, rules)) == PagePaths(tree, rules.isPage);
  }

  predicate AtTip(db: Db, head: Commit) {
    db.meta.Some? && db.meta.value.commit == Some(head)
  }

  /** WHAT A READ REPORTS. A first or a stale read reports a partial index exactly when more than five
      thousand paths of the tree are pages under its settings; a read at the tip what is stored. */
  lemma ReadFlag(db: Db, head: Commit, tree: seq<Entry>, rules: Rules, version: nat)
    requires Distinct(tree)
    ensures var after := Read(db, head, tree, rules, version);
      && after.meta.Some?
      && (after.meta.value.truncated <==>
            if AtTip(db, head) then db.meta.value.truncated else |PagePaths(tree, rules.isPage)| > 5000)
  {
    hide FirstBuild, Reindex, Rebuild, NextCursor, Complete, PagePaths;
    PagesCounted(tree, rules);
  }

  // ---------- whole runs ----------

  /** What a stored flag was counted on: the pages of a commit, or the rows a write-through left. */
  datatype Basis = PagesAt(commit: Commit) | RowsLeft(rows: nat)

  ghost predicate Lands(w: World, s: Step)
    requires |w.hist| > 0 && Enabled(w, s)
  {
    s.LandWriteThrough? && Guard(w.db, s.base, w.version)
    && |Flatten(BundleGroups(s.bundle, RulesAt(w.hist[s.cfg], w.code)))| + 1 <= BATCH_CHUNK
  }

  ghost function NextBasis(w: World, s: Step, b: Option<Basis>): Option<Basis>
    requires |w.hist| > 0 && Enabled(w, s)
  {
    if s.ReadIndex? && !AtTip(w.db, Tip(w)) then Some(PagesAt(Tip(w)))
    else if Lands(w, s) then Some(RowsLeft(|Apply(w, s).db.tables.pages|))
    else if s.Reset? then None
    else b
  }

  /** A run with the steps it took. */
  ghost predicate RunBy(ws: seq<World>, ss: seq<Step>) {
    |ws| == |ss| + 1 && Starts(ws[0]) && forall i :: 0 <= i < |ss| ==> StepBy(ws, ss, i)
  }

  ghost predicate StepBy(ws: seq<World>, ss: seq<Step>, i: nat)
    requires i < |ss| && i + 1 < |ws|
  {
    |ws[i].hist| > 0 && Enabled(ws[i], ss[i]) && ws[i + 1] == Apply(ws[i], ss[i])
  }

  lemma RunBefore(ws: seq<World>, ss: seq<Step>)
    requires RunBy(ws, ss) && ss != []
    ensures RunBy(ws[..|ss|], ss[..|ss| - 1]) && StepBy(ws, ss, |ss| - 1)
  {
    hide Apply, Enabled;
    var us, rs := ws[..|ss|], ss[..|ss| - 1];
    forall i | 0 <= i < |rs| ensures StepBy(us, rs, i) { assert StepBy(ws, ss, i); }
  }

  ghost function BasisOf(ws: seq<World>, ss: seq<Step>): Option<Basis>
    requires RunBy(ws, ss)
    decreases |ss|
  {
    if ss == [] then None
    else
      var n := |ss| - 1;
      RunBefore(ws, ss);
      NextBasis(ws[n], ss[n], BasisOf(ws[..n + 1], ss[..n]))
  }

  /** The flag says what it was counted on. */
  ghost predicate FlagIs(w: World, b: Option<Basis>) {
    && (w.db.meta.Some? <==> b.Some?)
    && (b.Some? && b.value.PagesAt? ==>
          b.value.commit < |w.hist| &&
          var c := w.hist[b.value.commit]; w.db.meta.value.truncated <==> |PagePaths(c.tree, c.isPage)| > 5000)
    && (b.Some? && b.value.RowsLeft? ==> (w.db.meta.value.truncated <==> b.value.rows > 5000))
  }

  lemma StepFlag(w: World, s: Step, b: Option<Basis>)
    requires Inv(w) && Enabled(w, s) && FlagIs(w, b)
    ensures FlagIs(Apply(w, s), NextBasis(w, s, b))
  {
    hide TablesOk, Read, Cut, Reindex, Rebuild, FirstBuild, PagesOf, Truthful, PagePaths, ExecAll, Flatten, BundleGroups, Seamless,
      SamePages, CleanCut;
    match s
    case ReadIndex(cfg) => ReadFlag(w.db, Tip(w), w.hist[Tip(w)].tree, ReadRules(w, cfg), w.version);
    case Push(c) =>
    case LandWriteThrough(base, x, cfg) => assert MAX_SCAN_PAGES == 5000;
    case _ =>
  }

  /** OVER EVERY RUN the stored flag is that of the tree last reconciled with, or of the rows the last
      write-through left, whichever came later; and there is none exactly when the index was
      never built or was reset since. */
  lemma {:induction false} RunFlag(ws: seq<World>, ss: seq<Step>)
    requires RunBy(ws, ss)
    ensures Inv(ws[|ws| - 1]) && FlagIs(ws[|ws| - 1], BasisOf(ws, ss))
    decreases |ss|
  {
    hide Apply, TablesOk, FlagIs;
    var n := |ss|;
    IsRun(ws, ss);
    RunKeepsInv(ws);
    if n == 0 {
      StartFlag(ws[0]);
    } else {
      var us, rs := ws[..n], ss[..n - 1];
      RunBefore(ws, ss);
      RunFlag(us, rs);
      assert us[|us| - 1] == ws[n - 1];
      StepFlag(ws[n - 1], ss[n - 1], BasisOf(us, rs));
    }
  }

  lemma StartFlag(w: World)
    requires Starts(w)
    ensures FlagIs(w, None)
  {
  }

  lemma IsRun(ws: seq<World>, ss: seq<Step>)
    requires RunBy(ws, ss)
    ensures Run(ws)
  {
    hide Apply, Enabled;
    forall i | 0 < i < |ws| ensures StepAt(ws, i) {
      assert StepBy(ws, ss, i - 1);
    }
  }

  /** And every run is one with steps. */
  lemma {:induction false} StepsOf(ws: seq<World>) returns (ss: seq<Step>)
    requires Run(ws)
    ensures RunBy(ws, ss)
    decreases |ws|
  {
    hide Apply, Enabled;
    if |ws| == 1 {
      ss := [];
    } else {
      var us := ws[..|ws| - 1];
      forall i | 0 < i < |us| ensures StepAt(us, i) { assert StepAt(ws, i); }
      var rs := StepsOf(us);
      assert StepAt(ws, |ws| - 1);
      var s :| Enabled(ws[|ws| - 2], s) && ws[|ws| - 1] == Apply(ws[|ws| - 2], s);
      ss := rs + [s];
      forall i | 0 <= i < |ss| ensures StepBy(ws, ss, i) {
        if i < |rs| { assert StepBy(us, rs, i); }
      }
    }
  }
}
