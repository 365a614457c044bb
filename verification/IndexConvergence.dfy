/** How many reads bring an index up to the tip and to the running row version: with the branch
    still, a number fixed by the budgets. */
module IndexConvergence {
  import opened Options
  import opened Paths
  import opened IndexTables
  import opened ContentIndex

  /** One read at a fixed branch tip, as a function of the database. */
  function Reader(head: Commit, tree: seq<Entry>, rules: Rules, version: nat): Db -> Db {
    (db: Db) => Read(db, head, tree, rules, version)
  }

  /** n requests in a row. */
  function Repeat(read: Db -> Db, db: Db, n: nat): Db
    decreases n
  {
    if n == 0 then db else Repeat(read, read(db), n - 1)
  }

  lemma {:induction false} RepeatSum(read: Db -> Db, db: Db, a: nat, b: nat)
    ensures Repeat(read, db, a + b) == Repeat(read, Repeat(read, db, a), b)
    decreases a
  {
    if a > 0 { RepeatSum(read, read(db), a - 1, b); }
  }

  /** Rows are recorded for this commit, though maybe not yet at the running version. */
  predicate AtCommit(db: Db, head: Commit) {
    db.meta.Some? && db.meta.value.commit == Some(head)
  }

  /** A current index is left alone. */
  lemma {:induction false} CurrentIsStable(db: Db, head: Commit, tree: seq<Entry>, rules: Rules, version: nat, n: nat)
    requires Current(db, head, version)
    ensures Repeat(Reader(head, tree, rules, version), db, n) == db
    decreases n
  {
    if n > 0 { CurrentIsStable(db, head, tree, rules, version, n - 1); }
  }

  // ---------- rebuild slices ----------

  lemma RebuildKeepsPaths(t: Tables, derive: Derive, cursor: Option<Path>)
    ensures Rebuild(t, derive, cursor).pages.Keys == t.pages.Keys
  {
    forall p ensures p in Rebuild(t, derive, cursor).pages <==> p in t.pages {
      RebuildAt(t, derive, cursor, p);
      assert PageAt(Rebuild(t, derive, cursor), p).Some? <==> PageAt(t, p).Some?;
    }
  }

  lemma RebuildShrinks(t: Tables, derive: Derive, cursor: Option<Path>)
    requires NextCursor(t, cursor).Some?
    ensures |Remaining(t, cursor)| >= REBUILD_PAGE_BUDGET
    ensures |Remaining(Rebuild(t, derive, cursor), NextCursor(t, cursor))|
         == |Remaining(t, cursor)| - REBUILD_PAGE_BUDGET
  {
    hide Rebuild, Less;
    var u, next := Rebuild(t, derive, cursor), NextCursor(t, cursor);
    var ps := RebuildPaths(t, cursor);
    RebuildKeepsPaths(t, derive, cursor);
    RebuildPathsMembers(t, cursor);
    IncreasingCount(ps);
    var done := set p | p in ps;
    forall p ensures p in Remaining(u, next) <==> p in Remaining(t, cursor) - done {
      if p in Remaining(u, next) {
        var last := next.value;
        assert last in ps;
        if cursor.Some? { LessTransitive(cursor.value, last, p); }
      }
    }
    assert Remaining(u, next) == Remaining(t, cursor) - done;
    assert done <= Remaining(t, cursor);
  }

  /** One read of an index at the tip with rows of an older version. */
  lemma RebuildRead(db: Db, head: Commit, tree: seq<Entry>, rules: Rules, version: nat)
    requires AtCommit(db, head) && db.meta.value.version < version
    ensures var after := Read(db, head, tree, rules, version);
      var n := |Remaining(db.tables, db.meta.value.cursor)|;
      && AtCommit(after, head)
      && (n < REBUILD_PAGE_BUDGET ==> Current(after, head, version))
      && (n >= REBUILD_PAGE_BUDGET ==>
            && after.meta.value.version == db.meta.value.version
            && |Remaining(after.tables, after.meta.value.cursor)| == n - REBUILD_PAGE_BUDGET)
  {
    var m := db.meta.value;
    if NextCursor(db.tables, m.cursor).Some? {
      RebuildShrinks(db.tables, rules.derive, m.cursor);
    }
  }

  /** Rebuilding n remaining pages takes exactly n / 300 + 1 reads: the version advances
      only on the read whose slice comes back short. That is one more than the number of
      slices n pages fill exactly when n is a multiple of the slice. */
  lemma {:induction false} RebuildTakesExactly(db: Db, head: Commit, tree: seq<Entry>, rules: Rules, version: nat, k: nat)
    requires AtCommit(db, head) && db.meta.value.version < version
    ensures var n := |Remaining(db.tables, db.meta.value.cursor)|;
      var after := Repeat(Reader(head, tree, rules, version), db, k);
      && (k <= n / REBUILD_PAGE_BUDGET ==> AtCommit(after, head) && after.meta.value.version < version)
      && (k > n / REBUILD_PAGE_BUDGET ==> Current(after, head, version))
    decreases k
  {
    hide Read, Remaining;
    if k > 0 {
      RebuildRead(db, head, tree, rules, version);
      var next := Reader(head, tree, rules, version)(db);
      if next.meta.value.version < version {
        RebuildTakesExactly(next, head, tree, rules, version, k - 1);
      } else {
        CurrentIsStable(next, head, tree, rules, version, k - 1);
      }
    }
  }

  // ---------- reindex slices ----------

  /** What a read still has to fetch, in the tree's order. Before any build that is
      every page. */
  function Left(db: Db, es: seq<Entry>): seq<Entry> {
    if db.meta.None? then es else Changed(db.tables, es)
  }

  predicate NoText(e: Entry) {
    !e.blob.Text?
  }

  /** The pages among these that no fetch returns text for. */
  function Unreadable(c: seq<Entry>): seq<Entry> {
    Select(c, NoText)
  }

  /** What one slice leaves of what it had to fetch: it takes the readable pages out of its
      first six hundred, and the others keep their places. */
  function NextLeft(c: seq<Entry>): seq<Entry> {
    Unreadable(Budgeted(c)) + c[|Budgeted(c)|..]
  }

  /** Six hundred unreadable pages stand ahead of some page: no slice ever gets to it. */
  predicate Jammed(c: seq<Entry>) {
    c != [] && |Unreadable(c[..|c| - 1])| >= REINDEX_PAGE_BUDGET
  }

  lemma {:induction false} SelectConcat(a: seq<Entry>, b: seq<Entry>, keep: Entry -> bool)
    ensures Select(a + b, keep) == Select(a, keep) + Select(b, keep)
  {
    if a == [] {
      assert a + b == b;
    } else {
      assert (a + b)[1..] == a[1..] + b;
      SelectConcat(a[1..], b, keep);
    }
  }

  /** Selecting by one test and then another. */
  lemma {:induction false} SelectTwice(es: seq<Entry>, f: Entry -> bool, g: Entry -> bool, both: Entry -> bool)
    requires forall e :: e in es ==> (both(e) <==> f(e) && g(e))
    ensures Select(Select(es, f), g) == Select(es, both)
  {
    if es != [] {
      SelectTwice(es[1..], f, g, both);
      SelectConcat(if f(es[0]) then [es[0]] else [], Select(es[1..], f), g);
      assert es[0] in es;
      assert Select([es[0]], g) == (if g(es[0]) then [es[0]] else []) + Select([es[0]][1..], g);
    }
  }

  lemma SelectByFacts(es: seq<Entry>, f: Entry -> bool, g: Entry -> bool)
    requires forall e :: e in es ==> f(e) == g(e)
    ensures Select(es, f) == Select(es, g)
  {
    if es != [] { SelectByFacts(es[1..], f, g); }
  }

  lemma {:induction false} SelectSplits(c: seq<Entry>)
    ensures |Select(c, HasText)| + |Unreadable(c)| == |c|
  {
    if c != [] { SelectSplits(c[1..]); }
  }

  /** After a slice, an entry is stored when it was, or when the slice wrote it. */
  lemma StoredAfterReindex(t: Tables, es: seq<Entry>, derive: Derive, e: Entry)
    requires Distinct(es) && e in es
    ensures Stored(Reindex(t, es, derive), e) <==> Stored(t, e) || e in Written(t, es)
  {
    hide Reindex, Written, PageGroup, Distinct, BlobAt;
    var u := Reindex(t, es, derive);
    WrittenMembers(t, es);
    if e in Written(t, es) {
      ReindexWrites(t, es, derive, e);
      assert PageAt(u, e.path).Some?;
    } else {
      forall x | x in Written(t, es) ensures x.path != e.path {
        if x.path == e.path {
          BlobAtEntry(es, x);
          BlobAtEntry(es, e);
        }
      }
      ReindexKeeps(t, es, derive, e.path);
      assert PageAt(u, e.path) == PageAt(t, e.path);
    }
  }

  function NotIn(ws: seq<Entry>): Entry -> bool {
    (e: Entry) => e !in ws
  }

  /** A slice takes exactly the readable pages out of its budget. */
  lemma ReindexShrinks(t: Tables, es: seq<Entry>, derive: Derive)
    requires Distinct(es)
    ensures Changed(Reindex(t, es, derive), es) == NextLeft(Changed(t, es))
  {
    hide Reindex;
    var u, c := Reindex(t, es, derive), Changed(t, es);
    var ws := Written(t, es);
    WrittenMembers(t, es);
    forall e | e in es ensures NotStored(u)(e) <==> NotStored(t)(e) && NotIn(ws)(e) {
      StoredAfterReindex(t, es, derive, e);
    }
    SelectTwice(es, NotStored(t), NotIn(ws), NotStored(u));
    WrittenOut(c);
  }

  /** Taking the readable pages of the first slice out of a list. */
  lemma WrittenOut(c: seq<Entry>)
    requires Distinct(c)
    ensures Select(c, NotIn(Fetched(Budgeted(c)))) == NextLeft(c)
  {
    var b, rest := Budgeted(c), c[|Budgeted(c)|..];
    var ws := Fetched(b);
    assert c == b + rest;
    SelectMembers(b, HasText);
    SelectConcat(b, rest, NotIn(ws));
    SelectByFacts(b, NotIn(ws), NoText);
    Apart(b, rest);
    SelectAll(rest, NotIn(ws));
  }

  lemma Apart(b: seq<Entry>, rest: seq<Entry>)
    requires Distinct(b + rest)
    ensures forall e :: e in rest ==> e !in b
  {
    forall i, j | 0 <= i < |b| && 0 <= j < |rest| ensures rest[j] != b[i] {
      assert (b + rest)[|b| + j] == rest[j] && (b + rest)[i] == b[i];
    }
  }

  /** A jam neither forms nor clears, and without one every cut slice takes something. */
  lemma NextLeftFacts(c: seq<Entry>)
    requires |c| > REINDEX_PAGE_BUDGET
    ensures Jammed(NextLeft(c)) <==> Jammed(c)
    ensures |Unreadable(NextLeft(c))| == |Unreadable(c)|
    ensures |NextLeft(c)| == |c| - (REINDEX_PAGE_BUDGET - |Unreadable(Budgeted(c))|)
    ensures !Jammed(c) ==> |NextLeft(c)| < |c|
  {
    var b, rest := Budgeted(c), c[|Budgeted(c)|..];
    var init := rest[..|rest| - 1];
    assert c == b + rest && c[..|c| - 1] == b + init;
    SelectConcat(b, rest, NoText);
    SelectConcat(b, init, NoText);
    UnreadableTwice(b);
    SelectConcat(Unreadable(b), rest, NoText);
    SelectConcat(Unreadable(b), init, NoText);
    assert NextLeft(c)[..|NextLeft(c)| - 1] == Unreadable(b) + init;
  }

  lemma UnreadableTwice(b: seq<Entry>)
    ensures Unreadable(Unreadable(b)) == Unreadable(b)
  {
    SelectTwice(b, NoText, NoText, NoText);
  }

  /** A list that fits one slice is not jammed. */
  lemma ShortIsFree(c: seq<Entry>)
    requires Jammed(c)
    ensures |c| > REINDEX_PAGE_BUDGET
  {
    SelectSplits(c[..|c| - 1]);
  }

  /** A rebuild slice moves no blob, so what is left to fetch is unchanged. */
  lemma RebuildKeepsLeft(t: Tables, derive: Derive, cursor: Option<Path>, es: seq<Entry>)
    ensures Changed(Rebuild(t, derive, cursor), es) == Changed(t, es)
  {
    var u := Rebuild(t, derive, cursor);
    forall e | e in es ensures NotStored(u)(e) == NotStored(t)(e) {
      RebuildAt(t, derive, cursor, e.path);
      assert PageAt(u, e.path).Some? <==> PageAt(t, e.path).Some?;
    }
    SelectByFacts(es, NotStored(u), NotStored(t));
  }

  /** After a complete slice the stored paths are among the tree's pages. */
  lemma CompletePaths(t: Tables, es: seq<Entry>, derive: Derive)
    requires Distinct(es)
    ensures Reindex(t, es, derive).pages.Keys <= PathsOf(es)
  {
    var u := Reindex(t, es, derive);
    WrittenMembers(t, es);
    forall p | p in u.pages ensures p in PathsOf(es) {
      if p in t.pages && p !in PathsOf(es) {
        ReindexDrops(t, es, derive, p);
        assert false;
      } else if e :| e in Written(t, es) && e.path == p {
      } else {
        ReindexKeeps(t, es, derive, p);
        assert PageAt(u, p) == PageAt(t, p);
      }
    }
  }

  /** One read of an index not recorded for the tip. */
  lemma StaleRead(db: Db, head: Commit, tree: seq<Entry>, rules: Rules, version: nat)
    requires Distinct(tree) && !AtCommit(db, head)
    requires db.meta.Some? ==> db.meta.value.version <= version
    ensures var es, after := PagesOf(tree, rules), Read(db, head, tree, rules, version);
      && after.meta.Some? && after.meta.value.version <= version
      && (after.meta.value.version == version ==> after.meta.value.cursor.None?)
      && (AtCommit(after, head) <==> |Left(db, es)| <= REINDEX_PAGE_BUDGET)
      && Left(after, es) == NextLeft(Left(db, es))
      && after.tables.pages.Keys <= PathsOf(es)
  {
    hide PagesOf, Reindex, Rebuild, FirstBuild, Changed, NextCursor, NextLeft;
    var es := PagesOf(tree, rules);
    PagesOfMembers(tree, rules);
    match db.meta
    case None =>
      FirstIsReindex(db.tables, es, rules.derive);
      ReindexShrinks(NoRows, es, rules.derive);
      CompletePaths(NoRows, es, rules.derive);
    case Some(m) =>
      var u := Reindex(db.tables, es, rules.derive);
      ReindexShrinks(db.tables, es, rules.derive);
      CompletePaths(db.tables, es, rules.derive);
      RebuildKeepsLeft(u, rules.derive, m.cursor, es);
      RebuildKeepsPaths(u, rules.derive, m.cursor);
  }

  /** Slices it takes until what is left fits one: none when it is jammed. */
  function StaleReads(c: seq<Entry>): Option<nat>
    decreases |c|
  {
    if Jammed(c) then None
    else if |c| <= REINDEX_PAGE_BUDGET then Some(1)
    else
      NextLeftFacts(c);
      var rest := StaleReads(NextLeft(c));
      if rest.None? then None else Some(1 + rest.value)
  }

  /** Without a jam every slice but the last takes at least its budget less the unreadable
      pages, so that many reads suffice; with no unreadable page it takes exactly so many. */
  lemma {:induction false} StaleReadsBound(c: seq<Entry>)
    requires |Unreadable(c)| < REINDEX_PAGE_BUDGET
    ensures StaleReads(c).Some?
    ensures var n, gain := StaleReads(c).value, REINDEX_PAGE_BUDGET - |Unreadable(c)|;
      && n >= 1
      && (|c| > REINDEX_PAGE_BUDGET ==> n <= 1 + (|c| - REINDEX_PAGE_BUDGET + gain - 1) / gain)
      && (|c| <= REINDEX_PAGE_BUDGET ==> n == 1)
      && (Unreadable(c) == [] && |c| > 0 ==> n == 1 + (|c| - 1) / REINDEX_PAGE_BUDGET)
    decreases |c|
  {
    UnreadablePrefix(c);
    if |c| > REINDEX_PAGE_BUDGET {
      NextLeftFacts(c);
      var d, b := NextLeft(c), Budgeted(c);
      assert c == b + c[|b|..];
      SelectConcat(b, c[|b|..], NoText);
      StaleReadsBound(d);
      var gain, less := REINDEX_PAGE_BUDGET - |Unreadable(c)|, |c| - |d|;
      CeilingStep(|c| - REINDEX_PAGE_BUDGET, less, gain);
      if |d| > REINDEX_PAGE_BUDGET {
        assert |d| - REINDEX_PAGE_BUDGET == |c| - REINDEX_PAGE_BUDGET - less;
      }
    }
  }

  lemma CeilingStep(x: int, less: int, gain: int)
    requires x > 0 && less >= gain > 0
    ensures (x + gain - 1) / gain >= 1
    ensures x - less > 0 ==> 1 + (x - less + gain - 1) / gain <= (x + gain - 1) / gain
  {
    var q := (x + gain - 1) / gain;
    assert x <= q * gain;
    if x - less > 0 {
      var r := (x - less + gain - 1) / gain;
      assert r * gain <= x - less + gain - 1 <= x - 1 < q * gain;
      TimesGain(r, q, gain);
    }
  }

  lemma TimesGain(r: int, q: int, gain: int)
    requires gain > 0
    ensures r >= q ==> r * gain >= q * gain
  {
  }

  lemma UnreadablePrefix(c: seq<Entry>)
    requires |Unreadable(c)| < REINDEX_PAGE_BUDGET
    ensures !Jammed(c)
  {
    if c != [] {
      assert c == c[..|c| - 1] + [c[|c| - 1]];
      SelectConcat(c[..|c| - 1], [c[|c| - 1]], NoText);
    }
  }

  /** It is the jam alone that stops the slices. */
  lemma {:induction false} StaleReadsIff(c: seq<Entry>)
    ensures StaleReads(c).Some? <==> !Jammed(c)
    decreases |c|
  {
    if !Jammed(c) && |c| > REINDEX_PAGE_BUDGET {
      NextLeftFacts(c);
      StaleReadsIff(NextLeft(c));
    }
  }

  /** Reaching the tip takes exactly one read per reindex slice; a jammed index never
      reaches it. */
  lemma {:induction false} ReindexTakesExactly(db: Db, head: Commit, tree: seq<Entry>, rules: Rules, version: nat, k: nat)
    requires Distinct(tree) && !AtCommit(db, head)
    requires db.meta.Some? ==> db.meta.value.version <= version
    ensures var es, need := PagesOf(tree, rules), StaleReads(Left(db, PagesOf(tree, rules)));
      var after := Repeat(Reader(head, tree, rules, version), db, k);
      && (need.None? || k < need.value ==> !AtCommit(after, head))
      && (need.Some? && k == need.value ==>
            && AtCommit(after, head) && after.meta.value.version <= version
            && (after.meta.value.version == version ==> after.meta.value.cursor.None?)
            && after.tables.pages.Keys <= PathsOf(es))
    decreases k
  {
    hide Read, PagesOf, Jammed, Left, NextLeft;
    var c := Left(db, PagesOf(tree, rules));
    StaleReadsIff(c);
    if k > 0 {
      StaleRead(db, head, tree, rules, version);
      if Jammed(c) { ShortIsFree(c); }
      if |c| > REINDEX_PAGE_BUDGET { NextLeftFacts(c); StaleReadsIff(NextLeft(c)); }
      var next := Reader(head, tree, rules, version)(db);
      if !AtCommit(next, head) {
        ReindexTakesExactly(next, head, tree, rules, version, k - 1);
      } else if k == 1 {
        assert Repeat(Reader(head, tree, rules, version), next, 0) == next;
      }
    }
  }

  /** What every history leaves of a meta row and its rows: never ahead of the running
      version, and recorded for the tip only over paths of the tip. */
  predicate Sane(db: Db, head: Commit, es: seq<Entry>, version: nat) {
    && (db.meta.Some? ==>
          db.meta.value.version <= version && (db.meta.value.version == version ==> db.meta.value.cursor.None?))
    && (AtCommit(db, head) ==> db.tables.pages.Keys <= PathsOf(es))
  }

  /** With the branch still, an index that is not jammed becomes current within one read per
      reindex slice plus one read per rebuild slice (rounded up past an exact multiple),
      and stays so. */
  lemma Converges(db: Db, head: Commit, tree: seq<Entry>, rules: Rules, version: nat, n: nat)
    requires Distinct(tree) && Sane(db, head, PagesOf(tree, rules), version)
    requires AtCommit(db, head) || !Jammed(Left(db, PagesOf(tree, rules)))
    requires var es := PagesOf(tree, rules);
      var slices := if AtCommit(db, head) then Some(0) else StaleReads(Left(db, es));
      slices.Some? ==> n >= slices.value + |es| / REBUILD_PAGE_BUDGET + 1
    ensures Current(Repeat(Reader(head, tree, rules, version), db, n), head, version)
  {
    hide Read, Left, PagesOf, StaleReads;
    var es := PagesOf(tree, rules);
    StaleReadsIff(Left(db, es));
    var s := if AtCommit(db, head) then 0 else StaleReads(Left(db, es)).value;
    if !AtCommit(db, head) { ReindexTakesExactly(db, head, tree, rules, version, s); }
    RepeatSum(Reader(head, tree, rules, version), db, s, n - s);
    var mid := Repeat(Reader(head, tree, rules, version), db, s);
    if mid.meta.value.version < version {
      RemainingBound(mid.tables, mid.meta.value.cursor, es);
      RebuildTakesExactly(mid, head, tree, rules, version, n - s);
    } else {
      CurrentIsStable(mid, head, tree, rules, version, n - s);
    }
  }

  /** THE INDEX CATCHES UP if and only if no page it has to fetch stands behind six hundred that
      come back without text. */
  lemma ConvergesIff(db: Db, head: Commit, tree: seq<Entry>, rules: Rules, version: nat)
    requires Distinct(tree) && Sane(db, head, PagesOf(tree, rules), version)
    ensures (exists n: nat :: Current(Repeat(Reader(head, tree, rules, version), db, n), head, version))
        <==> (AtCommit(db, head) || !Jammed(Left(db, PagesOf(tree, rules))))
  {
    hide Left, PagesOf, StaleReads, Jammed, Current, Repeat;
    var es := PagesOf(tree, rules);
    StaleReadsIff(Left(db, es));
    if AtCommit(db, head) || !Jammed(Left(db, es)) {
      var slices := if AtCommit(db, head) then 0 else StaleReads(Left(db, es)).value;
      Converges(db, head, tree, rules, version, slices + |es| / REBUILD_PAGE_BUDGET + 1);
    } else {
      forall n: nat ensures !Current(Repeat(Reader(head, tree, rules, version), db, n), head, version) {
        ReindexTakesExactly(db, head, tree, rules, version, n);
        CurrentNamesTip(Repeat(Reader(head, tree, rules, version), db, n), head, version);
      }
    }
  }

  lemma CurrentNamesTip(db: Db, head: Commit, version: nat)
    ensures Current(db, head, version) ==> AtCommit(db, head)
  {
  }

  lemma RemainingBound(t: Tables, cursor: Option<Path>, es: seq<Entry>)
    requires t.pages.Keys <= PathsOf(es)
    ensures |Remaining(t, cursor)| <= |es|
  {
    PathsBound(es);
    Subset(Remaining(t, cursor), PathsOf(es));
  }

  lemma {:induction false} PathsBound(es: seq<Entry>)
    ensures |PathsOf(es)| <= |es|
  {
    if es != [] {
      PathsBound(es[1..]);
      assert PathsOf(es) == {es[0].path} + PathsOf(es[1..]);
    }
  }

  lemma Subset(a: set<Path>, b: set<Path>)
    requires a <= b
    ensures |a| <= |b|
  {
    assert b == a + (b - a);
  }
}
