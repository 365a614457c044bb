/** The importer inside whole runs: syncs, human edits, moves and deletes, and the
    decisions that answer a sync's questions (src/tools/importer.ts). What one sync writes,
    and what it keeps of the pages that were there. */
module ImportRuns {
  import opened Options
  import opened Paths
  import opened Texts
  import opened Frontmatter
  import opened FrontmatterValues
  import opened FrontmatterPages
  import opened FrontmatterReads
  import opened ImportPlanner
  import opened ImportReads
  import opened ImportClaims

  /** The pages of a brain as texts, and the settings they are indexed under. */
  datatype Brain = Brain(pages: map<Path, string>, indexed: Indexed)

  // ---------- which keys a page claims ----------

  function KeysAt(brain: Brain, p: Path): seq<string>
    requires p in brain.pages
  {
    KeysOf(brain.indexed, ReadPage(brain.pages[p]))
  }

  predicate Claims(brain: Brain, p: Path, k: string) {
    p in brain.pages && k in KeysAt(brain, p)
  }

  /** The page holds the key: it claims it, and no later page does. */
  ghost predicate Holds(brain: Brain, p: Path, k: string) {
    Claims(brain, p, k) && forall q :: Claims(brain, q, k) ==> q == p || Less(q, p)
  }

  function ClaimedAmong(brain: Brain, ps: seq<Path>): seq<ClaimedPage>
    requires forall p :: p in ps ==> p in brain.pages
  {
    if ps == [] then []
    else
      var p := ps[|ps| - 1];
      ClaimedAmong(brain, ps[..|ps| - 1])
      + (if KeysAt(brain, p) != [] then [ClaimedPage(p, KeysAt(brain, p), brain.pages[p])] else [])
  }

  function ClaimedOf(brain: Brain): seq<ClaimedPage> {
    ClaimedAmong(brain, Ascending(brain.pages.Keys))
  }

  // ---------- one sync ----------

  datatype Batch = Batch(records: seq<Record>, manifest: Option<set<string>>, owned: seq<string>, adopt: bool, today: Day)

  datatype World = World(brain: Brain, ledger: Ledger)

  function WithoutReserved(order: seq<string>): (r: seq<string>)
    requires NoRepeats(order)
    ensures NoRepeats(r) && forall k :: k in r <==> k in order && k !in RESERVED
  {
    if order == [] then []
    else
      var init, k := order[..|order| - 1], order[|order| - 1];
      assert order == init + [k];
      WithoutReserved(init) + (if k in RESERVED then [] else [k])
  }

  function Unreserved(fields: Ordered<Flat>): (r: Ordered<Flat>)
    ensures r.at == fields.at - RESERVED
  {
    OrderedMap(fields.at - RESERVED, WithoutReserved(fields.order))
  }

  /** A source may not claim keys or forge bindings through its fields. */
  function CleanRecord(r: Record): Record {
    r.(fields := Unreserved(r.fields))
  }

  function CleanRecords(rs: seq<Record>): seq<Record> {
    seq(|rs|, i requires 0 <= i < |rs| => CleanRecord(rs[i]))
  }

  predicate OwnsReserved(b: Batch) {
    exists k :: k in b.owned && k in RESERVED
  }

  predicate IsRecordPath(rs: seq<Record>, p: Path) {
    exists i :: 0 <= i < |rs| && rs[i].path.Some? && PathOf(rs[i]) == p
  }

  function InputOf(w: World, b: Batch): Input {
    Input(CleanRecords(b.records), b.manifest, b.owned, ClaimedOf(w.brain), w.ledger, Some(w.brain.pages.Keys),
      if b.adopt then Some(map p | p in w.brain.pages && KeysAt(w.brain, p) == [] && IsRecordPath(b.records, p) :: w.brain.pages[p])
      else None,
      b.today)
  }

  function ApplyWrites(brain: Brain, ws: seq<PlannedWrite>): Brain {
    if ws == [] then brain
    else
      var before := ApplyWrites(brain, ws[..|ws| - 1]);
      before.(pages := before.pages[ws[|ws| - 1].path := PageText(ws[|ws| - 1].page)])
  }

  function Sync(w: World, b: Batch): World {
    if OwnsReserved(b) then w
    else
      var p := PlanOf(InputOf(w, b));
      World(ApplyWrites(w.brain, p.writes), p.ledgerAfter)
  }

  // ---------- what claims amount to ----------

  lemma {:induction false} ClaimedAmongMembers(brain: Brain, ps: seq<Path>)
    requires forall p :: p in ps ==> p in brain.pages
    ensures forall c :: c in ClaimedAmong(brain, ps) <==>
      c.path in ps && KeysAt(brain, c.path) != [] && c == ClaimedPage(c.path, KeysAt(brain, c.path), brain.pages[c.path])
    decreases |ps|
  {
    if ps != [] {
      var init, p := ps[..|ps| - 1], ps[|ps| - 1];
      ClaimedAmongMembers(brain, init);
      assert forall q :: q in ps <==> q in init || q == p by { assert ps == init + [p]; }
    }
  }

  lemma ClaimedOfMembers(brain: Brain)
    ensures forall c :: c in ClaimedOf(brain) <==>
      c.path in brain.pages && KeysAt(brain, c.path) != [] && c == ClaimedPage(c.path, KeysAt(brain, c.path), brain.pages[c.path])
    ensures forall p :: IsClaimedPath(ClaimedOf(brain), p) <==> p in brain.pages && KeysAt(brain, p) != []
  {
    ClaimedAmongMembers(brain, Ascending(brain.pages.Keys));
    forall p | p in brain.pages && KeysAt(brain, p) != [] ensures IsClaimedPath(ClaimedOf(brain), p) {
      assert ClaimedPage(p, KeysAt(brain, p), brain.pages[p]) in ClaimedOf(brain);
    }
  }

  /** The last of these pages, in their order, that claims the key. */
  ghost predicate IsLastClaimer(brain: Brain, ps: seq<Path>, k: string, c: Option<ClaimedPage>) {
    && (c.None? <==> forall p :: p in ps ==> !Claims(brain, p, k))
    && (c.Some? ==> c.value.path in ps && Claims(brain, c.value.path, k) && c.value.text == brain.pages[c.value.path])
    && (c.Some? ==> forall q :: q in ps && Claims(brain, q, k) ==> q == c.value.path || Less(q, c.value.path))
  }

  lemma PageByKeyLast(cs: seq<ClaimedPage>, c: ClaimedPage, k: string)
    ensures PageByKey(cs + [c], k) == if k in c.keys then Some(c) else PageByKey(cs, k)
  {
    assert (cs + [c])[..|cs + [c]| - 1] == cs;
  }

  lemma NoClaims(k: string)
    ensures PageByKey([], k) == None
  {
  }

  lemma {:induction false} PageByKeyAmong(brain: Brain, ps: seq<Path>, k: string, c: Option<ClaimedPage>)
    requires forall p :: p in ps ==> p in brain.pages
    requires Increasing(ps) && c == PageByKey(ClaimedAmong(brain, ps), k)
    ensures IsLastClaimer(brain, ps, k, c)
    decreases |ps|
  {
    hide Less, KeysAt, PageByKey;
    if ps == [] {
      NoClaims(k);
    } else {
      var init, p := ps[..|ps| - 1], ps[|ps| - 1];
      PageByKeyAmong(brain, init, k, PageByKey(ClaimedAmong(brain, init), k));
      assert ps == init + [p];
      forall q | q in init ensures Less(q, p) {
        var i :| 0 <= i < |init| && init[i] == q;
        assert ps[i] == q;
      }
      assert forall q :: q in ps <==> q in init || q == p;
      PageByKeyLast(ClaimedAmong(brain, init), ClaimedPage(p, KeysAt(brain, p), brain.pages[p]), k);
      assert ClaimedAmong(brain, init) + [] == ClaimedAmong(brain, init);
    }
  }

  lemma Resolved(brain: Brain, k: string)
    ensures var c := PageByKey(ClaimedOf(brain), k);
      && (c.None? <==> forall p :: !Claims(brain, p, k))
      && (c.Some? ==> Claims(brain, c.value.path, k) && c.value.text == brain.pages[c.value.path])
      && (c.Some? ==> forall q :: Claims(brain, q, k) ==> q == c.value.path || Less(q, c.value.path))
  {
    PageByKeyAmong(brain, Ascending(brain.pages.Keys), k, PageByKey(ClaimedOf(brain), k));
    assert forall q :: Claims(brain, q, k) ==> q in Ascending(brain.pages.Keys);
  }

  /** Two brains in which the same pages claim a key resolve it to the same path. */
  lemma SameClaimsSamePath(a: Brain, b: Brain, k: string)
    requires forall p :: Claims(a, p, k) <==> Claims(b, p, k)
    ensures PageByKey(ClaimedOf(a), k).Some? <==> PageByKey(ClaimedOf(b), k).Some?
    ensures PageByKey(ClaimedOf(a), k).Some? ==>
      PageByKey(ClaimedOf(a), k).value.path == PageByKey(ClaimedOf(b), k).value.path
  {
    Resolved(a, k);
    Resolved(b, k);
    if PageByKey(ClaimedOf(a), k).Some? {
      var p, q := PageByKey(ClaimedOf(a), k).value.path, PageByKey(ClaimedOf(b), k).value.path;
      assert Claims(b, p, k) && Claims(a, q, k);
      if p != q {
        LessTransitive(p, q, p);
        LessIrreflexive(p);
      }
    }
  }

  // ---------- the writes of a plan ----------

  lemma {:induction false} BucketWrites(x: Input, n: nat, w: PlannedWrite)
    requires n <= |x.records|
    ensures w in Buckets(x, n).writes <==> exists i :: 0 <= i < n && OutcomeOf(x, i) == Writes(w)
  {
    hide *;
    if n == 0 {
      NoWritesYet(x);
    } else {
      BucketWrites(x, n - 1, w);
      BucketStep(x, n, w);
      if i :| 0 <= i < n && OutcomeOf(x, i) == Writes(w) {
        if i < n - 1 { assert w in Buckets(x, n - 1).writes; }
      }
    }
  }

  lemma NoWritesYet(x: Input)
    ensures Buckets(x, 0).writes == []
  {
  }

  lemma BucketStep(x: Input, n: nat, w: PlannedWrite)
    requires 0 < n <= |x.records|
    ensures w in Buckets(x, n).writes <==> w in Buckets(x, n - 1).writes || OutcomeOf(x, n - 1) == Writes(w)
  {
    hide OutcomeOf, ImportedUpTo;
  }

  lemma WriteOf(x: Input, w: PlannedWrite) returns (i: nat)
    requires w in PlanOf(x).writes
    ensures i < |x.records| && OutcomeOf(x, i) == Writes(w)
  {
    hide OutcomeOf, Buckets, Proposed, Carried;
    BucketWrites(x, |x.records|, w);
    i :| 0 <= i < |x.records| && OutcomeOf(x, i) == Writes(w);
  }

  /** Every record is counted once, in one list of the plan. */
  lemma {:induction false} EachRecordOnce(x: Input, n: nat)
    requires n <= |x.records|
    ensures var b := Buckets(x, n);
      |b.writes| + |b.same| + |b.suppressed| + |b.needsDecision| + |b.errors| == n
  {
    hide OutcomeOf, ImportedUpTo;
    if n > 0 { EachRecordOnce(x, n - 1); }
  }

  lemma {:induction false} ApplyAt(brain: Brain, ws: seq<PlannedWrite>, p: Path)
    ensures ApplyWrites(brain, ws).indexed == brain.indexed
    ensures p in brain.pages ==> p in ApplyWrites(brain, ws).pages
    ensures p in ApplyWrites(brain, ws).pages ==>
      || (p in brain.pages && ApplyWrites(brain, ws).pages[p] == brain.pages[p])
      || (exists w :: w in ws && w.path == p && ApplyWrites(brain, ws).pages[p] == PageText(w.page))
    ensures (forall w :: w in ws ==> w.path != p) ==>
      (p in ApplyWrites(brain, ws).pages <==> p in brain.pages) && (p in brain.pages ==> ApplyWrites(brain, ws).pages[p] == brain.pages[p])
    decreases |ws|
  {
    hide PageText;
    if ws != [] {
      var init, last := ws[..|ws| - 1], ws[|ws| - 1];
      ApplyAt(brain, init, p);
      assert forall w :: w in ws <==> w in init || w == last by { assert ws == init + [last]; }
    }
  }

  /** The only write to its path is what stays there. */
  lemma {:induction false} ApplySole(brain: Brain, ws: seq<PlannedWrite>, w: PlannedWrite)
    requires w in ws && forall v :: v in ws && v.path == w.path ==> v == w
    ensures w.path in ApplyWrites(brain, ws).pages && ApplyWrites(brain, ws).pages[w.path] == PageText(w.page)
    decreases |ws|
  {
    hide PageText;
    var init, last := ws[..|ws| - 1], ws[|ws| - 1];
    assert ws == init + [last];
    if last.path == w.path {
      assert last in ws;
    } else {
      assert w in init;
      ApplySole(brain, init, w);
    }
  }

  // ---------- what a sync changes ----------

  /** The fields a sync may touch on a page that was there before. */
  predicate MayWrite(b: Batch, k: string) {
    k in b.owned || k == SOURCE_KEY || k == UPDATED
  }

  /** Whether the caps leave room for the key a planned record binds to a page: counted are the names
      the page is left with that come back. */
  predicate BindingSeen(w: World, b: Batch, i: nat, pw: PlannedWrite)
    requires i < |b.records|
  {
    var r := CleanRecord(b.records[i]);
    Room(if pw.path in w.brain.pages then Merged(ReadPage(w.brain.pages[pw.path]).fm, r.fields, b.owned) else ToFront(r.fields),
         w.brain.indexed, SOURCE_KEY)
  }

  /** The write touches no binding but its own: the names it sets are ones the reader knows or passes
      over, and the page's own bindings are in sight and read as they are. */
  predicate CalmWrite(w: World, b: Batch, i: nat, pw: PlannedWrite)
    requires i < |b.records|
  {
    var r := CleanRecord(b.records[i]);
    if pw.path in w.brain.pages then
      var page := ReadPage(w.brain.pages[pw.path]);
      TameMoves(page, r, b.owned) && CalmPage(page, r, b.owned, w.brain.indexed)
    else forall k :: k in r.fields.at ==> Tame(k)
  }

  predicate Calm(w: World, b: Batch) {
    forall i :: 0 <= i < |b.records| && OutcomeOf(InputOf(w, b), i).Writes? ==> CalmWrite(w, b, i, OutcomeOf(InputOf(w, b), i).write)
  }

  /** What a planned write is, of the page it lands on, if there is one: its body and every field
      the source does not own are kept. A write that is not an update is for a key the ledger had
      never imported and no page claimed, and lands on a page that claimed none. */
  lemma WriteRespects(w: World, b: Batch, i: nat, pw: PlannedWrite)
    requires !OwnsReserved(b) && i < |b.records|
    requires OutcomeOf(InputOf(w, b), i) == Writes(pw)
    ensures pw.key == KeyOf(b.records[i]) != ""
    ensures pw.kind.Create? <==> pw.path !in w.brain.pages
    ensures pw.kind.Create? ==> pw.page == CreatedPage(CleanRecord(b.records[i]), b.today)
    ensures pw.path in w.brain.pages ==>
      var page, r := ReadPage(w.brain.pages[pw.path]), CleanRecord(b.records[i]);
      && pw.page.body == page.body
      && (forall k :: !MayWrite(b, k) ==> Get(pw.page.fm, k) == Get(page.fm, k))
      && (KeysAt(w.brain, pw.path) != [] ==> pw.kind.Update? && pw.page == UpdatedPage(page, r, b.owned, b.today))
      && (KeysAt(w.brain, pw.path) == [] ==> pw.kind.Adopt? && b.adopt && pw.page == AdoptedPage(page, r, b.owned, b.today))
    ensures !pw.kind.Update? ==>
      && pw.key !in w.ledger.imported && pw.key !in w.ledger.suppressed
      && (forall p :: !Claims(w.brain, p, pw.key))
  {
    hide KeysOf, Moved, Merged, SeenIn, IsRecordPath, Trim, FieldValues, ClaimedOf, PageByKey, CreatedPage,
      AdoptedPage, UpdatedPage, ReadPage, Unreserved;
    var x := InputOf(w, b);
    var r := x.records[i];
    assert r == CleanRecord(b.records[i]) && KeyOf(r) == KeyOf(b.records[i]);
    ClaimedOfMembers(w.brain);
    Resolved(w.brain, KeyOf(r));
    if pw.kind.Update? {
      var c := PageByKey(x.claimed, KeyOf(r)).value;
      FieldsRespected(ReadPage(w.brain.pages[c.path]), r, b);
      assert KeysAt(w.brain, c.path) != [] by { assert Claims(w.brain, c.path, KeyOf(r)); }
    } else if pw.kind.Adopt? {
      FieldsRespected(ReadPage(w.brain.pages[pw.path]), r, b);
    }
  }

  lemma FieldsRespected(page: Page, r: Record, b: Batch)
    ensures var u, a := UpdatedPage(page, r, b.owned, b.today), AdoptedPage(page, r, b.owned, b.today);
      && u.body == page.body && a.body == page.body
      && (forall k :: !MayWrite(b, k) ==> Get(u.fm, k) == Get(page.fm, k) && Get(a.fm, k) == Get(page.fm, k))
  {
    hide Merged;
    forall k | !MayWrite(b, k)
      ensures Get(UpdatedPage(page, r, b.owned, b.today).fm, k) == Get(page.fm, k)
      ensures Get(AdoptedPage(page, r, b.owned, b.today).fm, k) == Get(page.fm, k)
    {
      MergedAt(page.fm, r.fields, b.owned, k);
    }
  }

  lemma CleanFields(b: Batch, i: nat)
    requires i < |b.records|
    ensures CleanRecord(b.records[i]).fields.at.Keys !! RESERVED && KeyOf(CleanRecord(b.records[i])) == KeyOf(b.records[i])
  {
  }

  /** WHAT A WRITE LEAVES A PAGE CLAIMING, once it is read again: an update what it claimed before, any
      other the key as it reads back, or nothing when the caps leave no room. */
  lemma WriteClaims(w: World, b: Batch, i: nat, pw: PlannedWrite)
    requires !OwnsReserved(b) && i < |b.records|
    requires OutcomeOf(InputOf(w, b), i) == Writes(pw) && CalmWrite(w, b, i, pw)
    ensures TameFront(pw.page.fm)
    ensures pw.kind.Update? ==> pw.path in w.brain.pages && KeysOf(w.brain.indexed, Reread(pw.page)) == KeysAt(w.brain, pw.path)
    ensures !pw.kind.Update? ==>
      KeysOf(w.brain.indexed, Reread(pw.page)) == if BindingSeen(w, b, i, pw) then ReadKeys(KeyOf(b.records[i])) else []
  {
    var r := CleanRecord(b.records[i]);
    WriteRespects(w, b, i, pw);
    CleanFields(b, i);
    assert OwnsNoReserved(b.owned);
    hide KeysOf, Moved, Merged, FieldValues, CreatedPage, AdoptedPage, UpdatedPage, ReadPage, Reread, OutcomeOf, InputOf, Room,
      TameMoves, CalmPage, ParsedFront, TameFront, ReadKeys, KeyBack, Unreserved, OwnsReserved, Tame, MayWrite;
    ReadKeysIs(r.key);
    if pw.path in w.brain.pages {
      var page := ReadPage(w.brain.pages[pw.path]);
      ReadPageParsed(w.brain.pages[pw.path]);
      TameWrites(page, r, b.owned, b.today);
      if pw.kind.Update? {
        UpdatedKeys(page, r, b.owned, w.brain.indexed, b.today);
      } else {
        AdoptedKeys(page, r, b.owned, w.brain.indexed, b.today);
      }
    } else {
      TameCreated(r, b.today);
      CreatedKeys(r, w.brain.indexed, b.today);
    }
  }

  /** A field as it was read, or as it reads after it was written once more. */
  predicate KeptField(before: Page, after: Page, k: string) {
    Get(after.fm, k) == Get(before.fm, k) || Get(after.fm, k) == AgainOf(Get(before.fm, k))
  }

  /** What a calm write leaves of a page that was there. */
  lemma WriteKeeps(w: World, b: Batch, i: nat, pw: PlannedWrite)
    requires !OwnsReserved(b) && i < |b.records| && pw.path in w.brain.pages
    requires OutcomeOf(InputOf(w, b), i) == Writes(pw) && CalmWrite(w, b, i, pw)
    ensures var page, after := ReadPage(w.brain.pages[pw.path]), Reread(pw.page);
      && after.body == DropNewlines(page.body)
      && (forall k :: !MayWrite(b, k) ==> KeptField(page, after, k))
  {
    WriteRespects(w, b, i, pw);
    WriteClaims(w, b, i, pw);
    hide CalmWrite, OutcomeOf, InputOf, KeysOf, TameFront, ReadPage, Reread, UpdatedPage, AdoptedPage,
      CreatedPage, ParsedValue, Usable, MayWrite, BindingSeen;
    var page := ReadPage(w.brain.pages[pw.path]);
    ReadPageParsed(w.brain.pages[pw.path]);
    RereadAt(pw.page, "");
    forall k | !MayWrite(b, k) ensures KeptField(page, Reread(pw.page), k) {
      RereadAt(pw.page, k);
      BackOfParsed(page, k);
    }
  }

  lemma {:induction false} BackOfParsed(page: Page, k: string)
    requires ParsedFront(page.fm)
    ensures Back(k, Get(page.fm, k)) == AgainOf(Get(page.fm, k))
  {
    ParsedIsTame(page.fm);
    hide ParsedValue, Usable, Again, ReadBack;
    if k in page.fm.at { ParsedReads(page.fm.at[k]); }
  }

  /** IMPORT CONSERVATION. After a sync every page is still where it was, and its text is the one it
      had unless a record was written to it. When the writes are calm, its body as it reads is
      the one it had, less leading newlines; each field the source does not own reads as it
      did, up to what a second reading loses; the keys it claimed it still claims and nobody
      else's were added, unless it claimed none and the caller asked to adopt. A page that is new
      was created for a key the ledger had never imported and no page claimed, and claims at
      most what that key reads back as. */
  lemma SyncConserves(w: World, b: Batch, p: Path)
    ensures Sync(w, b).brain.indexed == w.brain.indexed
    ensures p in w.brain.pages ==> p in Sync(w, b).brain.pages
    ensures p in w.brain.pages && !IsWritten(w, b, p) ==> Sync(w, b).brain.pages[p] == w.brain.pages[p]
    ensures p in w.brain.pages && Calm(w, b) ==>
      var before, after := ReadPage(w.brain.pages[p]), ReadPage(Sync(w, b).brain.pages[p]);
      && after.body in {before.body, DropNewlines(before.body)}
      && (forall k :: !MayWrite(b, k) ==> KeptField(before, after, k))
      && (KeysAt(Sync(w, b).brain, p) == KeysAt(w.brain, p) || (b.adopt && KeysAt(w.brain, p) == []))
    ensures p in Sync(w, b).brain.pages && p !in w.brain.pages ==>
      exists i :: 0 <= i < |b.records|
        && Sync(w, b).brain.pages[p] == PageText(CreatedPage(CleanRecord(b.records[i]), b.today))
        && (Calm(w, b) ==> KeysAt(Sync(w, b).brain, p) in {[], ReadKeys(KeyOf(b.records[i]))})
        && KeyOf(b.records[i]) !in w.ledger.imported
        && forall q :: !Claims(w.brain, q, KeyOf(b.records[i]))
  {
    hide KeysOf, PlanOf, DropNewlines, OutcomeOf, KeyOf, BindingSeen, ReadPage, PageText, CalmWrite,
      ReadKeys, MayWrite;
    if OwnsReserved(b) {
      assert forall k, page :: KeptField(page, page, k);
    } else {
      var x := InputOf(w, b);
      var ws := PlanOf(x).writes;
      ApplyAt(w.brain, ws, p);
      var after := ApplyWrites(w.brain, ws);
      if !IsWritten(w, b, p) { NoWrites(w, b, p); }
      if p in after.pages && !(p in w.brain.pages && after.pages[p] == w.brain.pages[p]) {
        var pw :| pw in ws && pw.path == p && after.pages[p] == PageText(pw.page);
        var i := WriteOf(x, pw);
        WriteRespects(w, b, i, pw);
        if Calm(w, b) {
          WriteClaims(w, b, i, pw);
          if p in w.brain.pages { WriteKeeps(w, b, i, pw); }
        }
      } else {
        assert forall k, page :: KeptField(page, page, k);
      }
    }
  }

  /** Some record is written to the page. */
  predicate IsWritten(w: World, b: Batch, p: Path) {
    !OwnsReserved(b) && exists i :: 0 <= i < |b.records| && OutcomeOf(InputOf(w, b), i).Writes? && OutcomeOf(InputOf(w, b), i).write.path == p
  }

  lemma NoWrites(w: World, b: Batch, p: Path)
    requires !OwnsReserved(b) && !IsWritten(w, b, p)
    ensures forall pw :: pw in PlanOf(InputOf(w, b)).writes ==> pw.path != p
  {
    hide PlanOf, OutcomeOf;
    var x := InputOf(w, b);
    forall pw | pw in PlanOf(x).writes ensures pw.path != p {
      var i := WriteOf(x, pw);
      assert |x.records| == |b.records|;
    }
  }

  // ---------- frontmatter nobody reads ----------

  /** A REWRITE LOSES WHAT IS NOT READ. Lines of a person's frontmatter that set no field are as good as
      absent to the write of a record: what is written is the same without them. And a line among them
      that is not indented is in no block that is written under usable names. */
  lemma {:induction false} RewriteLoses(a: seq<string>, lost: seq<string>, c: seq<string>, body: string, r: Record, owned: seq<string>, today: Day)
    requires forall i :: 0 <= i < |a + lost + c| ==> !IsFence((a + lost + c)[i]) && '\n' !in (a + lost + c)[i]
    requires forall i :: 0 <= i < |lost| ==> !WordColon(lost[i])
    requires StartsFresh(lost + c) && StartsFresh(c)
    ensures var page := ReadPage(Fenced(a + lost + c, body));
      && page == ReadPage(Fenced(a + c, body))
      && ((forall k :: k in Moved(page.fm, r.fields, owned) ==> Usable(k)) ==>
            forall i :: 0 <= i < |lost| && !Indented(lost[i]) ==> lost[i] !in BlockOf(UpdatedPage(page, r, owned, today)))
  {
    hide WordColon, Indented, IsFence, ReadPage, UpdatedPage, Usable, Moved, StartsFresh;
    UnreadLines(a, lost, c, body);
    var page := ReadPage(Fenced(a + lost + c, body));
    ReadPageParsed(Fenced(a + lost + c, body));
    if forall k :: k in Moved(page.fm, r.fields, owned) ==> Usable(k) {
      UpdatedUsable(page, r, owned, today);
      forall i | 0 <= i < |lost| && !Indented(lost[i]) ensures lost[i] !in BlockOf(UpdatedPage(page, r, owned, today)) {
        NotInBlock(UpdatedPage(page, r, owned, today), lost[i]);
      }
    }
  }

  /** A page's text, from the lines of its block and its body. */
  function Fenced(block: seq<string>, body: string): string {
    JoinLines(["---"] + block + ["---"]) + "\n\n" + body
  }

  function BlockOf(page: Page): seq<string> {
    BlockLines(page.fm, |page.fm.order|)
  }

  lemma {:induction false} NotInBlock(page: Page, line: string)
    requires (forall k :: k in page.fm.at ==> Usable(k) && Proper(page.fm.at[k])) && !WordColon(line) && !Indented(line)
    ensures line !in BlockOf(page)
  {
    hide Usable, Proper, WordColon, Indented, BlockLines;
    var n := |page.fm.order|;
    forall i | 0 <= i < |BlockOf(page)| ensures BlockOf(page)[i] != line { WrittenLines(page.fm, n, i); }
  }

  lemma {:induction false} UpdatedUsable(page: Page, r: Record, owned: seq<string>, today: Day)
    requires ParsedFront(page.fm) && forall k :: k in Moved(page.fm, r.fields, owned) ==> Usable(k)
    ensures var after := UpdatedPage(page, r, owned, today); forall k :: k in after.fm.at ==> Usable(k) && Proper(after.fm.at[k])
  {
    ReservedUsable();
    ParsedIsTame(page.fm);
    var after := UpdatedPage(page, r, owned, today);
    hide Usable, Moved, Merged, ParsedValue, ReadBack;
    forall k | k in after.fm.at ensures Usable(k) && Proper(after.fm.at[k]) {
      MergedAt(page.fm, r.fields, owned, k);
      if k != UPDATED && k !in Moved(page.fm, r.fields, owned) { ParsedReads(page.fm.at[k]); }
    }
  }
}
