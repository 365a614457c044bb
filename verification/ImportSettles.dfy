/** Running the same sync again: exactly when it settles. The second run resolves every
    record to the page the first left it, plans nothing when all that was written reads
    back, and otherwise writes or asks again; the questions and the deletions proposed are
    the same throughout. */
module ImportSettles {
  import opened Options
  import opened Paths
  import opened Texts
  import opened Frontmatter
  import opened FrontmatterValues
  import opened FrontmatterPages
  import opened FrontmatterReads
  import opened ImportPlanner
  import opened ImportReads
  import opened ImportClaims
  import opened ImportRuns

  /** The page a record lands on. */
  function Target(x: Input, i: nat): Option<Path>
    requires i < |x.records|
  {
    match OutcomeOf(x, i)
    case Writes(w) => Some(w.path)
    case Unchanged => Some(PageByKey(x.claimed, KeyOf(x.records[i])).value.path)
    case _ => None
  }

  /** No two records of the batch land on one page. */
  predicate OnePageEach(x: Input) {
    forall i, j :: 0 <= i < j < |x.records| && Target(x, i).Some? ==> Target(x, i) != Target(x, j)
  }

  /** A complete manifest lists every key the batch makes the source's own. */
  predicate ManifestCovers(x: Input) {
    x.manifest.Some? ==> forall i :: 0 <= i < |x.records| && Imports(x, i) ==> KeyOf(x.records[i]) in x.manifest.value
  }

  // ---------- what the second input looks like ----------

  lemma SoleWrite(x: Input, i: nat, pw: PlannedWrite)
    requires i < |x.records| && OutcomeOf(x, i) == Writes(pw) && OnePageEach(x)
    ensures pw in PlanOf(x).writes
    ensures forall v :: v in PlanOf(x).writes && v.path == pw.path ==> v == pw
  {
    hide OutcomeOf, PlanOf, ImportedUpTo;
    BucketWrites(x, |x.records|, pw);
    PlanWrites(x);
    assert Target(x, i) == Some(pw.path);
    forall v | v in PlanOf(x).writes && v.path == pw.path ensures v == pw {
      var j := WriteOf(x, v);
      assert Target(x, j) == Some(v.path);
      assert i == j;
    }
  }

  lemma PlanWrites(x: Input)
    ensures PlanOf(x).writes == Buckets(x, |x.records|).writes
    ensures PlanOf(x).ledgerAfter.imported == ImportedUpTo(x, |x.records|)
  {
  }

  lemma {:induction false} SuppressedKept(x: Input, n: nat)
    requires n <= |x.records|
    ensures Buckets(x, n).ledgerAfter.suppressed == x.ledger.suppressed
  {
    hide OutcomeOf, ImportedUpTo;
    if n > 0 { SuppressedKept(x, n - 1); }
  }

  lemma {:induction false} ImportedMembers(x: Input, n: nat, k: string)
    requires n <= |x.records|
    ensures k in ImportedUpTo(x, n) <==>
      k in x.ledger.imported || exists i :: 0 <= i < n && Imports(x, i) && KeyOf(x.records[i]) == k
  {
    hide Imports, KeyOf;
    if n > 0 {
      ImportedMembers(x, n - 1, k);
      if i :| 0 <= i < n && Imports(x, i) && KeyOf(x.records[i]) == k {
        if i < n - 1 { assert k in ImportedUpTo(x, n - 1); }
      }
    }
  }

  /** Of two records with one key, the later is an error and imports nothing. */
  lemma LaterIsDuplicate(x: Input, i: nat, j: nat)
    requires i < j < |x.records| && KeyOf(x.records[i]) == KeyOf(x.records[j]) != ""
    ensures OutcomeOf(x, j) == Fails(DuplicateKey) && !Imports(x, j)
  {
    assert SeenBefore(x.records, j);
  }

  /** A record that is not an empty key or a repeat is the only one its key binds or imports by. */
  lemma KeyOnce(x: Input, i: nat, j: nat)
    requires i < |x.records| && j < |x.records| && i != j
    requires KeyOf(x.records[i]) == KeyOf(x.records[j]) != ""
    requires OutcomeOf(x, i) != Fails(DuplicateKey)
    ensures OutcomeOf(x, j).Fails? && !Imports(x, j)
  {
    if j < i { LaterIsDuplicate(x, j, i); } else { LaterIsDuplicate(x, i, j); }
  }

  /** Record i writes to a page that claimed nothing. */
  predicate Lands(x: Input, i: nat)
    requires i < |x.records|
  {
    OutcomeOf(x, i).Writes? && !OutcomeOf(x, i).write.kind.Update?
  }

  /** And leaves it claiming the key k. */
  predicate Binds(x: Input, indexed: Indexed, i: nat, p: Path, k: string)
    requires i < |x.records|
  {
    Lands(x, i) && OutcomeOf(x, i).write.path == p && k in KeysOf(indexed, Reread(OutcomeOf(x, i).write.page))
  }

  /** What the index holds of a page that was just written. */
  lemma WrittenKeys(w: World, b: Batch, i: nat, pw: PlannedWrite)
    requires !OwnsReserved(b) && OnePageEach(InputOf(w, b)) && i < |b.records|
    requires OutcomeOf(InputOf(w, b), i) == Writes(pw)
    ensures pw.path in Sync(w, b).brain.pages && Sync(w, b).brain.pages[pw.path] == PageText(pw.page)
    ensures KeysAt(Sync(w, b).brain, pw.path) == KeysOf(w.brain.indexed, Reread(pw.page))
  {
    hide PlanOf, OutcomeOf, OnePageEach, PageText, KeysOf, ReadPage;
    SoleWrite(InputOf(w, b), i, pw);
    ApplySole(w.brain, PlanOf(InputOf(w, b)).writes, pw);
    ApplyAt(w.brain, PlanOf(InputOf(w, b)).writes, pw.path);
  }

  /** After a sync the pages that claim a key are those that did, and those whose new key reads back as
      it. */
  lemma ClaimsAfter(w: World, b: Batch, p: Path, k: string)
    requires !OwnsReserved(b) && OnePageEach(InputOf(w, b)) && Calm(w, b)
    ensures var x := InputOf(w, b);
      Claims(Sync(w, b).brain, p, k) <==>
        Claims(w.brain, p, k) || exists i :: 0 <= i < |x.records| && Binds(x, w.brain.indexed, i, p, k)
  {
    hide PlanOf, OutcomeOf, KeysOf, KeyOf, OnePageEach, BindingSeen, MayWrite, CreatedPage, UpdatedPage,
      AdoptedPage, CalmWrite, ReadPage, PageText, Reread, Sync, ReadKeys, TameFront;
    var x := InputOf(w, b);
    assert |x.records| == |b.records|;
    if IsWritten(w, b, p) {
      var i :| 0 <= i < |b.records| && OutcomeOf(x, i).Writes? && OutcomeOf(x, i).write.path == p;
      var pw := OutcomeOf(x, i).write;
      WrittenKeys(w, b, i, pw);
      WriteRespects(w, b, i, pw);
      WriteClaims(w, b, i, pw);
      forall j | 0 <= j < |x.records| && Binds(x, w.brain.indexed, j, p, k) ensures j == i { SamePage(x, i, j); }
      if !pw.kind.Update? { assert Claims(Sync(w, b).brain, p, k) <==> Binds(x, w.brain.indexed, i, p, k); }
    } else {
      UnwrittenClaims(w, b, p);
    }
  }

  lemma SamePage(x: Input, i: nat, j: nat)
    requires OnePageEach(x) && i < |x.records| && j < |x.records|
    requires OutcomeOf(x, i).Writes? && OutcomeOf(x, j).Writes? && OutcomeOf(x, i).write.path == OutcomeOf(x, j).write.path
    ensures i == j
  {
    hide OutcomeOf;
    assert Target(x, i) == Target(x, j) && Target(x, i).Some?;
  }

  lemma UnwrittenClaims(w: World, b: Batch, p: Path)
    requires !OwnsReserved(b) && !IsWritten(w, b, p)
    ensures p in Sync(w, b).brain.pages <==> p in w.brain.pages
    ensures p in w.brain.pages ==> KeysAt(Sync(w, b).brain, p) == KeysAt(w.brain, p)
  {
    hide PlanOf, OutcomeOf, ReadPage, PageText, KeysOf;
    NoWrites(w, b, p);
    ApplyAt(w.brain, PlanOf(InputOf(w, b)).writes, p);
  }

  /** The index will see every key the batch binds: the caps leave room for the binding, and the
      key reads back as itself. */
  predicate KeysSeen(w: World, b: Batch) {
    forall i :: 0 <= i < |b.records| && Lands(InputOf(w, b), i) ==>
      BindingSeen(w, b, i, OutcomeOf(InputOf(w, b), i).write) && KeyBack(KeyOf(b.records[i]))
  }

  /** Every field the batch leaves on a page it writes reads back as sent. */
  predicate FieldsRead(w: World, b: Batch) {
    forall i :: 0 <= i < |b.records| && OutcomeOf(InputOf(w, b), i).Writes? ==>
      FieldsBack(OutcomeOf(InputOf(w, b), i).write.page.fm, CleanRecord(b.records[i]).fields, b.owned)
  }

  predicate AllBack(w: World, b: Batch) {
    KeysSeen(w, b) && FieldsRead(w, b)
  }

  lemma SeenKey(w: World, b: Batch, i: nat)
    requires !OwnsReserved(b) && KeysSeen(w, b) && Calm(w, b) && i < |b.records| && Lands(InputOf(w, b), i)
    ensures KeysOf(w.brain.indexed, Reread(OutcomeOf(InputOf(w, b), i).write.page)) == [KeyOf(b.records[i])]
  {
    hide OutcomeOf, KeysOf, BindingSeen, InputOf, MayWrite, CreatedPage, AdoptedPage, UpdatedPage,
      CalmWrite, Reread, ReadPage, ReadKeys, KeyBack, TameFront, Trim;
    assert |InputOf(w, b).records| == |b.records| by { SameCount(w, b); }
    var pw := OutcomeOf(InputOf(w, b), i).write;
    WriteRespects(w, b, i, pw);
    WriteClaims(w, b, i, pw);
    TrimTwice(b.records[i].key);
    ReadKeysIs(KeyOf(b.records[i]));
  }

  lemma SameCount(w: World, b: Batch)
    ensures |InputOf(w, b).records| == |b.records|
  {
  }

  lemma UnchangedPage(w: World, b: Batch, i: nat)
    requires i < |b.records| && OutcomeOf(InputOf(w, b), i).Unchanged?
    ensures var x := InputOf(w, b);
      var c := PageByKey(x.claimed, KeyOf(x.records[i]));
      && c.Some? && Target(x, i) == Some(c.value.path)
      && Claims(w.brain, c.value.path, KeyOf(x.records[i])) && c.value.text == w.brain.pages[c.value.path]
  {
    hide KeysOf, Moved, Trim, IsRecordPath, SeenBefore, ClaimedOf, ReadPage;
    Resolved(w.brain, KeyOf(InputOf(w, b).records[i]));
  }

  /** A page an unchanged record resolves to is not written. */
  lemma PageLeftAlone(w: World, b: Batch, i: nat, p: Path)
    requires !OwnsReserved(b) && OnePageEach(InputOf(w, b)) && i < |b.records|
    requires OutcomeOf(InputOf(w, b), i).Unchanged? && Target(InputOf(w, b), i) == Some(p) && p in w.brain.pages
    ensures p in Sync(w, b).brain.pages && Sync(w, b).brain.pages[p] == w.brain.pages[p]
  {
    hide PlanOf, OutcomeOf, KeyOf, ClaimedOf, PageByKey;
    var x := InputOf(w, b);
    var ws := PlanOf(x).writes;
    forall v | v in ws ensures v.path != p {
      var j := WriteOf(x, v);
      assert Target(x, j) == Some(v.path);
      assert i != j;
    }
    ApplyAt(w.brain, ws, p);
  }

  // ---------- the second run, record by record ----------

  /** A record that has a page resolves to it again. */
  lemma ResolvesAgain(w: World, b: Batch, i: nat)
    requires !OwnsReserved(b) && OnePageEach(InputOf(w, b)) && KeysSeen(w, b) && Calm(w, b) && i < |b.records|
    requires Target(InputOf(w, b), i).Some?
    ensures var x2, p := InputOf(Sync(w, b), b), Target(InputOf(w, b), i).value;
      && p in Sync(w, b).brain.pages
      && PageByKey(x2.claimed, KeyOf(x2.records[i])).Some?
      && PageByKey(x2.claimed, KeyOf(x2.records[i])).value.path == p
      && PageByKey(x2.claimed, KeyOf(x2.records[i])).value.text == Sync(w, b).brain.pages[p]
  {
    hide PlanOf, KeysOf, ClaimedOf, PageByKey, Trim, IsRecordPath, SeenBefore, OutcomeOf, OnePageEach, Sync,
      ReadPage, Reread, Claims, KeysSeen, Calm, Binds;
    var x, w2 := InputOf(w, b), Sync(w, b);
    var k := KeyOf(x.records[i]);
    assert k == KeyOf(b.records[i]) == KeyOf(InputOf(w2, b).records[i]);
    Resolved(w.brain, k);
    Resolved(w2.brain, k);
    if Lands(x, i) {
      forall p ensures Claims(w2.brain, p, k) <==> p == Target(x, i).value { BoundAlone(w, b, i, p); }
      assert Claims(w2.brain, Target(x, i).value, k);
    } else {
      OldTarget(w, b, i);
      forall p ensures Claims(w.brain, p, k) <==> Claims(w2.brain, p, k) {
        ClaimsAfter(w, b, p, k);
        NotBound(w, b, i, p);
      }
      SameClaimsSamePath(w.brain, w2.brain, k);
    }
    ClaimedHere(w2.brain, PageByKey(ClaimedOf(w2.brain), k).value.path, k);
  }

  lemma ClaimedHere(brain: Brain, p: Path, k: string)
    requires Claims(brain, p, k)
    ensures p in brain.pages
  {
  }

  /** The page of a record that lands nowhere new is the one its key resolved to. */
  lemma OldTarget(w: World, b: Batch, i: nat)
    requires i < |b.records| && Target(InputOf(w, b), i).Some? && !Lands(InputOf(w, b), i)
    ensures var x, k := InputOf(w, b), KeyOf(b.records[i]);
      && k != "" && OutcomeOf(x, i) != Fails(DuplicateKey) && (OutcomeOf(x, i).Writes? ==> OutcomeOf(x, i).write.kind.Update?)
      && PageByKey(x.claimed, k).Some? && Target(x, i).value == PageByKey(x.claimed, k).value.path
  {
    hide ClaimedOf, PageByKey, Trim, IsRecordPath, SeenBefore, Moved, EndsWithMd, IsClaimedPath, ReadPage,
      UpdatedPage, CreatedPage, AdoptedPage;
    assert KeyOf(InputOf(w, b).records[i]) == KeyOf(b.records[i]);
  }

  /** The key of a record that lands is claimed by its page alone. */
  lemma BoundAlone(w: World, b: Batch, i: nat, p: Path)
    requires !OwnsReserved(b) && OnePageEach(InputOf(w, b)) && KeysSeen(w, b) && Calm(w, b) && i < |b.records|
    requires Lands(InputOf(w, b), i)
    ensures Claims(Sync(w, b).brain, p, KeyOf(b.records[i])) <==> Target(InputOf(w, b), i) == Some(p)
  {
    hide PlanOf, KeysOf, ClaimedOf, PageByKey, Trim, IsRecordPath, SeenBefore, OutcomeOf, OnePageEach, Sync,
      ReadPage, Reread, KeysSeen, Calm, CreatedPage, UpdatedPage, AdoptedPage, MayWrite, Claims;
    var x, k := InputOf(w, b), KeyOf(b.records[i]);
    NotRefused(x, i);
    WriteRespects(w, b, i, OutcomeOf(x, i).write);
    ClaimsAfter(w, b, p, k);
    SeenKey(w, b, i);
    if j :| 0 <= j < |x.records| && Binds(x, w.brain.indexed, j, p, k) {
      SeenKey(w, b, j);
      if j != i { KeyOnce(x, i, j); }
    }
    if Target(x, i) == Some(p) { assert Binds(x, w.brain.indexed, i, p, k); }
  }

  lemma ResolvedOutcome(x: Input, i: nat, c: ClaimedPage)
    requires i < |x.records| && KeyOf(x.records[i]) != "" && !SeenBefore(x.records, i)
    requires KeyOf(x.records[i]) !in x.ledger.suppressed
    requires PageByKey(x.claimed, KeyOf(x.records[i])) == Some(c)
    ensures if Moved(ReadPage(c.text).fm, x.records[i].fields, x.owned) == {} then OutcomeOf(x, i).Unchanged? else OutcomeOf(x, i).Writes?
  {
    hide Moved, ReadPage, Trim, SeenBefore, PageByKey;
  }

  /** What a record moves on the page it was written to. */
  lemma WriteMoves(w: World, b: Batch, i: nat, pw: PlannedWrite)
    requires !OwnsReserved(b) && i < |b.records|
    requires OutcomeOf(InputOf(w, b), i) == Writes(pw) && CalmWrite(w, b, i, pw)
    ensures var r := CleanRecord(b.records[i]);
      Moved(Reread(pw.page).fm, r.fields, b.owned) == {} <==> FieldsBack(pw.page.fm, r.fields, b.owned)
  {
    var r := CleanRecord(b.records[i]);
    WriteRespects(w, b, i, pw);
    WriteClaims(w, b, i, pw);
    CleanFields(b, i);
    assert OwnsNoReserved(b.owned);
    hide OutcomeOf, InputOf, KeysOf, Reread, ReadPage, TameFront, FieldBack, Unreserved, CalmWrite,
      BindingSeen, OwnsReserved, SameValue;
    if pw.path in w.brain.pages {
      var fm := ReadPage(w.brain.pages[pw.path]).fm;
      WrittenFields(ReadPage(w.brain.pages[pw.path]), r, b.owned, b.today);
      hide Merged, UpdatedPage, AdoptedPage;
      MergeSettles(fm, pw.page, r.fields, b.owned);
    } else {
      CreatedOwned(r, b.owned, b.today);
      hide Merged, CreatedPage;
      MergeSettles(ToFront(r.fields), pw.page, r.fields, b.owned);
    }
  }

  lemma WrittenFields(page: Page, r: Record, owned: seq<string>, today: Day)
    requires OwnsNoReserved(owned)
    ensures forall k :: k in owned ==> Get(UpdatedPage(page, r, owned, today).fm, k) == Get(Merged(page.fm, r.fields, owned), k)
    ensures forall k :: k in owned ==> Get(AdoptedPage(page, r, owned, today).fm, k) == Get(Merged(page.fm, r.fields, owned), k)
  {
    hide Merged, Trim;
  }

  lemma CreatedOwned(r: Record, owned: seq<string>, today: Day)
    requires OwnsNoReserved(owned)
    ensures forall k :: k in owned && k in r.fields.at ==>
      Get(CreatedPage(r, today).fm, k) == Get(Merged(ToFront(r.fields), r.fields, owned), k)
  {
    hide Merged;
    forall k | k in owned && k in r.fields.at
      ensures Get(CreatedPage(r, today).fm, k) == Get(Merged(ToFront(r.fields), r.fields, owned), k)
    {
      MergedAt(ToFront(r.fields), r.fields, owned, k);
    }
  }

  /** A record that has a page writes to it again exactly when a field of it does not read back. */
  lemma PlacedAgain(w: World, b: Batch, i: nat)
    requires !OwnsReserved(b) && OnePageEach(InputOf(w, b)) && KeysSeen(w, b) && Calm(w, b) && i < |b.records|
    requires Target(InputOf(w, b), i).Some?
    ensures var o, o2 := OutcomeOf(InputOf(w, b), i), OutcomeOf(InputOf(Sync(w, b), b), i);
      if o.Writes? && !FieldsBack(o.write.page.fm, CleanRecord(b.records[i]).fields, b.owned) then o2.Writes? else o2.Unchanged?
  {
    hide PlanOf, KeysOf, ClaimedOf, PageByKey, Trim, IsRecordPath, SeenBefore, OutcomeOf, OnePageEach, Sync,
      ReadPage, Claims, KeysSeen, CalmWrite, PageText, Moved, CleanRecord, FieldsBack;
    var x, w2 := InputOf(w, b), Sync(w, b);
    var x2, p := InputOf(w2, b), Target(x, i).value;
    ResolvesAgain(w, b, i);
    SameSuppressed(w, b);
    PlacedIsSound(x, i);
    assert x2.records[i] == x.records[i] == CleanRecord(b.records[i]);
    ResolvedOutcome(x2, i, PageByKey(x2.claimed, KeyOf(x2.records[i])).value);
    if OutcomeOf(x, i).Writes? {
      var pw := OutcomeOf(x, i).write;
      WrittenKeys(w, b, i, pw);
      WriteMoves(w, b, i, pw);
    } else {
      UnchangedPage(w, b, i);
      ClaimedHere(w.brain, p, KeyOf(x.records[i]));
      PageLeftAlone(w, b, i, p);
      UnchangedMoves(x, i);
    }
  }

  lemma PlacedIsSound(x: Input, i: nat)
    requires i < |x.records| && Target(x, i).Some?
    ensures KeyOf(x.records[i]) != "" && !SeenBefore(x.records, i) && KeyOf(x.records[i]) !in x.ledger.suppressed
  {
    hide PageByKey, Trim, SeenBefore, Moved, EndsWithMd, IsClaimedPath, ReadPage, UpdatedPage, CreatedPage,
      AdoptedPage;
  }

  lemma UnchangedMoves(x: Input, i: nat)
    requires i < |x.records| && OutcomeOf(x, i).Unchanged?
    ensures PageByKey(x.claimed, KeyOf(x.records[i])).Some?
    ensures Moved(ReadPage(PageByKey(x.claimed, KeyOf(x.records[i])).value.text).fm, x.records[i].fields, x.owned) == {}
  {
    hide PageByKey, Trim, SeenBefore, Moved, EndsWithMd, IsClaimedPath, ReadPage, UpdatedPage, CreatedPage,
      AdoptedPage;
  }

  lemma NotRefused(x: Input, i: nat)
    requires i < |x.records| && OutcomeOf(x, i).Writes?
    ensures KeyOf(x.records[i]) != "" && !SeenBefore(x.records, i)
  {
  }

  lemma SameSuppressed(w: World, b: Batch)
    ensures Sync(w, b).ledger.suppressed == w.ledger.suppressed
  {
    hide OutcomeOf, Buckets;
    var x := InputOf(w, b);
    SuppressedKept(x, |x.records|);
  }

  /** No other record binds the key of a record that is not itself a repeat. */
  lemma NotBound(w: World, b: Batch, i: nat, p: Path)
    requires i < |b.records| && KeyOf(b.records[i]) != ""
    requires !OwnsReserved(b) && KeysSeen(w, b) && Calm(w, b)
    requires var o := OutcomeOf(InputOf(w, b), i); o != Fails(DuplicateKey) && (o.Writes? ==> o.write.kind.Update?)
    ensures var x := InputOf(w, b);
      forall j :: 0 <= j < |x.records| ==> !Binds(x, w.brain.indexed, j, p, KeyOf(b.records[i]))
  {
    hide OutcomeOf, Trim, ClaimedOf, IsRecordPath, KeysSeen, KeysOf, Calm, Reread;
    var x := InputOf(w, b);
    forall j | 0 <= j < |x.records| ensures !Binds(x, w.brain.indexed, j, p, KeyOf(b.records[i])) {
      if Binds(x, w.brain.indexed, j, p, KeyOf(b.records[i])) {
        SeenKey(w, b, j);
        if j != i { KeyOnce(x, i, j); }
      }
    }
  }

  /** A record that was asked about, or failed, does so again. */
  lemma UnplacedSettles(w: World, b: Batch, i: nat)
    requires !OwnsReserved(b) && OnePageEach(InputOf(w, b)) && KeysSeen(w, b) && Calm(w, b) && i < |b.records|
    requires var o := OutcomeOf(InputOf(w, b), i); o.Asks? || o.Fails? || o.Suppressed?
    ensures OutcomeOf(InputOf(Sync(w, b), b), i) == OutcomeOf(InputOf(w, b), i)
    ensures !Imports(InputOf(Sync(w, b), b), i)
  {
    hide PlanOf, KeysOf, ApplyWrites, ClaimedOf, PageByKey, Trim, IsRecordPath, SeenBefore, OnePageEach,
      Moved, EndsWithMd, ImportedUpTo;
    var x, w2 := InputOf(w, b), Sync(w, b);
    var x2 := InputOf(w2, b);
    var r, k := x.records[i], KeyOf(x.records[i]);
    var o := OutcomeOf(x, i);
    assert k == KeyOf(b.records[i]);
    SameSuppressed(w, b);
    if k != "" && o != Fails(DuplicateKey) && !o.Suppressed? {
      Resolved(w.brain, k);
      Resolved(w2.brain, k);
      forall p ensures Claims(w.brain, p, k) <==> Claims(w2.brain, p, k) {
        ClaimsAfter(w, b, p, k);
        NotBound(w, b, i, p);
      }
      SameImported(w, b, i);
      if o == Fails(BoundElsewhere) || o == Fails(PathTaken) { BoundPathStays(w, b, PathOf(r)); }
      if o == Fails(PathTaken) { TakenMeansNoAdoption(w, b, i); }
    }
  }

  /** A record that imports nothing leaves its key's place in the ledger as it was. */
  lemma SameImported(w: World, b: Batch, i: nat)
    requires !OwnsReserved(b) && i < |b.records|
    requires var o := OutcomeOf(InputOf(w, b), i); (o.Asks? || o.Fails?) && o != Fails(DuplicateKey)
    requires KeyOf(b.records[i]) != ""
    ensures KeyOf(b.records[i]) in Sync(w, b).ledger.imported <==> KeyOf(b.records[i]) in w.ledger.imported
  {
    hide OutcomeOf, PlanOf, Trim, ClaimedOf;
    var x, k := InputOf(w, b), KeyOf(b.records[i]);
    assert KeyOf(x.records[i]) == k;
    PlanWrites(x);
    ImportedMembers(x, |x.records|, k);
    if j :| 0 <= j < |x.records| && Imports(x, j) && KeyOf(x.records[j]) == k {
      if j != i { KeyOnce(x, i, j); }
    }
  }

  /** A bound path stays bound; without adoption an unbound page stays unbound. */
  lemma BoundPathStays(w: World, b: Batch, p: Path)
    requires Calm(w, b)
    ensures IsClaimedPath(ClaimedOf(w.brain), p) ==> IsClaimedPath(ClaimedOf(Sync(w, b).brain), p)
    ensures p in w.brain.pages && !b.adopt ==> p in Sync(w, b).brain.pages
    ensures p in w.brain.pages && !b.adopt && !IsClaimedPath(ClaimedOf(w.brain), p) ==>
      !IsClaimedPath(ClaimedOf(Sync(w, b).brain), p)
  {
    hide PlanOf, KeysOf, ClaimedOf, Sync, IsClaimedPath;
    ClaimedOfMembers(w.brain);
    ClaimedOfMembers(Sync(w, b).brain);
    SyncConserves(w, b, p);
  }

  /** A page in the way is adopted when the caller asked to adopt. */
  lemma TakenMeansNoAdoption(w: World, b: Batch, i: nat)
    requires i < |b.records| && OutcomeOf(InputOf(w, b), i) == Fails(PathTaken)
    ensures !b.adopt
  {
    hide KeysOf, ClaimedOf, PageByKey, Trim, SeenBefore, Moved, EndsWithMd;
    var x := InputOf(w, b);
    ClaimedOfMembers(w.brain);
    assert x.records[i].path == b.records[i].path;
    assert IsRecordPath(b.records, PathOf(b.records[i]));
  }

  /** A key a record placed is in the ledger afterwards. */
  lemma SecondImportsNothing(w: World, b: Batch, i: nat)
    requires !OwnsReserved(b) && OnePageEach(InputOf(w, b)) && KeysSeen(w, b) && Calm(w, b) && i < |b.records|
    ensures !Imports(InputOf(Sync(w, b), b), i)
  {
    var x := InputOf(w, b);
    var o := OutcomeOf(x, i);
    if o.Asks? || o.Fails? || o.Suppressed? {
      UnplacedSettles(w, b, i);
    } else {
      PlacedIsImported(w, b, i);
    }
  }

  lemma PlacedImports(x: Input, i: nat)
    requires i < |x.records| && (OutcomeOf(x, i).Unchanged? || OutcomeOf(x, i).Writes?)
    ensures KeyOf(x.records[i]) in x.ledger.imported || Imports(x, i)
  {
    hide Trim, Moved, Merged, ReadPage, SeenBefore, CreatedPage, AdoptedPage, UpdatedPage, IsClaimedPath,
      EndsWithMd, DropSlashes, PageByKey;
  }

  lemma PlacedIsImported(w: World, b: Batch, i: nat)
    requires !OwnsReserved(b) && i < |b.records|
    requires var o := OutcomeOf(InputOf(w, b), i); o.Unchanged? || o.Writes?
    ensures KeyOf(b.records[i]) in Sync(w, b).ledger.imported
  {
    hide PlanOf, Trim, ClaimedOf, OutcomeOf, Imports;
    var x, k := InputOf(w, b), KeyOf(b.records[i]);
    assert KeyOf(x.records[i]) == k;
    PlanWrites(x);
    PlacedImports(x, i);
    ImportedMembers(x, |x.records|, k);
  }

  // ---------- the second plan ----------

  /** Record by record, the second run writes nothing, imports nothing and asks the same. */
  lemma {:induction false} SecondBuckets(w: World, b: Batch, n: nat)
    requires !OwnsReserved(b) && OnePageEach(InputOf(w, b)) && AllBack(w, b) && Calm(w, b) && n <= |b.records|
    ensures var x, x2 := InputOf(w, b), InputOf(Sync(w, b), b);
      && Buckets(x2, n).writes == []
      && Buckets(x2, n).needsDecision == Buckets(x, n).needsDecision
      && ImportedUpTo(x2, n) == Sync(w, b).ledger.imported
  {
    hide OutcomeOf, InputOf, Sync, ClaimedOf, OnePageEach, KeysSeen, FieldsRead, Calm, KeyOf, Imports;
    SameRecords(w, b);
    if n > 0 {
      SecondBuckets(w, b, n - 1);
      SecondOutcome(w, b, n - 1);
      SecondImportsNothing(w, b, n - 1);
    }
  }

  lemma SameRecords(w: World, b: Batch)
    ensures var x, x2 := InputOf(w, b), InputOf(Sync(w, b), b);
      |x.records| == |b.records| && x2.records == x.records && x2.ledger == Sync(w, b).ledger
  {
    hide Sync, ClaimedOf;
  }

  lemma SecondOutcome(w: World, b: Batch, i: nat)
    requires !OwnsReserved(b) && OnePageEach(InputOf(w, b)) && AllBack(w, b) && Calm(w, b) && i < |b.records|
    ensures var o, o2 := OutcomeOf(InputOf(w, b), i), OutcomeOf(InputOf(Sync(w, b), b), i);
      !o2.Writes? && (o2.Asks? <==> o.Asks?)
    ensures KeyOf(InputOf(Sync(w, b), b).records[i]) == KeyOf(InputOf(w, b).records[i])
  {
    hide OutcomeOf, Sync, ClaimedOf, OnePageEach, KeysSeen, Calm, FieldsBack, CleanRecord;
    var x := InputOf(w, b);
    var o := OutcomeOf(x, i);
    assert KeyOf(InputOf(Sync(w, b), b).records[i]) == KeyOf(x.records[i]);
    if o.Asks? || o.Fails? || o.Suppressed? {
      UnplacedSettles(w, b, i);
    } else {
      PlacedAgain(w, b, i);
    }
  }

  // ---------- the second run's questions ----------

  lemma {:induction false} CarriedTwice(x: Input, x2: Input, qs: seq<Question>)
    requires x2.records == x.records && x2.manifest == x.manifest
    ensures Carried(x2, Carried(x, qs)) == Carried(x, qs)
    decreases |qs|
  {
    if qs != [] {
      CarriedTwice(x, x2, qs[1..]);
      assert Carries(x2, qs[0]) <==> Carries(x, qs[0]);
      var head := if Carries(x, qs[0]) then [qs[0]] else [];
      CarriedAppend(x2, head, Carried(x, qs[1..]));
      if head != [] { assert head[1..] == []; }
    }
  }

  lemma {:induction false} NotCarried(x: Input, qs: seq<Question>)
    requires forall q :: q in qs ==> !Carries(x, q)
    ensures Carried(x, qs) == []
  {
    if qs != [] { NotCarried(x, qs[1..]); }
  }

  lemma {:induction false} AskedAreRecords(x: Input, n: nat, k: string)
    requires n <= |x.records| && k in Buckets(x, n).needsDecision
    ensures exists i :: 0 <= i < n && KeyOf(x.records[i]) == k && k != ""
  {
    hide Moved, PageByKey, Trim, EndsWithMd, IsClaimedPath, ImportedUpTo;
    if k in Buckets(x, n - 1).needsDecision {
      AskedAreRecords(x, n - 1, k);
    } else {
      assert OutcomeOf(x, n - 1).Asks? && KeyOf(x.records[n - 1]) == k;
    }
  }

  /** The questions a sync leaves are the ones the same sync would leave again. */
  lemma PendingSettles(x: Input, x2: Input)
    requires x2.records == x.records && x2.manifest == x.manifest
    requires x2.ledger.pending == PlanOf(x).ledgerAfter.pending
    requires Buckets(x2, |x2.records|).needsDecision == Buckets(x, |x.records|).needsDecision
    requires x.manifest.Some? ==> Proposed(x2, |x2.claimed|) == Proposed(x, |x.claimed|)
    ensures PlanOf(x2).ledgerAfter.pending == PlanOf(x).ledgerAfter.pending
  {
    hide OutcomeOf, ImportedUpTo, Trim;
    var nd := Buckets(x, |x.records|).needsDecision;
    var ds := if x.manifest.Some? then Proposed(x, |x.claimed|) else [];
    var a, c, d := Carried(x, x.ledger.pending), AskQuestions(nd), DeletionQuestions(ds);
    CarriedTwice(x, x2, x.ledger.pending);
    forall q | q in c ensures !Carries(x2, q) {
      AskedAreRecords(x, |x.records|, q.key);
    }
    NotCarried(x2, c);
    NotCarried(x2, d);
    CarriedAppend(x2, a, c);
    CarriedAppend(x2, a + c, d);
    assert a + [] + [] == a;
  }

  // ---------- proposed deletions do not move ----------

  function FlatOver<T>(ps: seq<Path>, f: Path -> seq<T>): seq<T> {
    if ps == [] then [] else f(ps[0]) + FlatOver(ps[1..], f)
  }

  lemma {:induction false} FlatOverLast<T>(ps: seq<Path>, p: Path, f: Path -> seq<T>)
    ensures FlatOver(ps + [p], f) == FlatOver(ps, f) + f(p)
  {
    if ps == [] {
      assert ([p])[1..] == [];
    } else {
      assert (ps + [p])[1..] == ps[1..] + [p];
      FlatOverLast(ps[1..], p, f);
    }
  }

  /** Paths that contribute nothing may join the walk without changing it. */
  lemma {:induction false} FlatOverGrows<T>(s: set<Path>, t: set<Path>, f: Path -> seq<T>, g: Path -> seq<T>)
    requires s <= t
    requires forall p :: p in s ==> f(p) == g(p)
    requires forall p :: p in t - s ==> g(p) == []
    ensures FlatOver(Ascending(t), g) == FlatOver(Ascending(s), f)
    decreases t
  {
    hide Less, IsLeast, Increasing, Least, FlatOver, Ascending;
    if t != {} {
      FlatOverHead(t, g);
      var m := Least(t);
      if m in s {
        LeastOfSubset(s, t);
        FlatOverHead(s, f);
        FlatOverGrows(s - {m}, t - {m}, f, g);
      } else {
        FlatOverGrows(s, t - {m}, f, g);
      }
    } else {
      assert s == t;
      assert Ascending(t) == [];
      FlatOverNone(f);
      FlatOverNone(g);
    }
  }

  lemma FlatOverNone<T>(f: Path -> seq<T>)
    ensures FlatOver([], f) == []
  {
  }

  lemma FlatOverHead<T>(t: set<Path>, f: Path -> seq<T>)
    requires t != {}
    ensures Least(t) in t
    ensures FlatOver(Ascending(t), f) == f(Least(t)) + FlatOver(Ascending(t - {Least(t)}), f)
  {
    hide Less, IsLeast, Increasing;
    var m := Least(t);
    assert Ascending(t) == [m] + Ascending(t - {m});
    assert Ascending(t)[1..] == Ascending(t - {m});
  }

  lemma LeastOfSubset(s: set<Path>, t: set<Path>)
    requires s <= t && t != {} && Least(t) in s
    ensures Least(s) == Least(t)
  {
    assert IsLeast(Least(t), s);
    LeastUnique(s, Least(t), Least(s));
  }

  /** The deletions proposed for one page. */
  function ProposalsAt(brain: Brain, imported: seq<string>, manifest: set<string>): Path -> seq<(string, Path)> {
    (p: Path) => if p in brain.pages then ProposedKeys(KeysAt(brain, p), p, imported, manifest) else []
  }

  function ProposedKeys(keys: seq<string>, p: Path, imported: seq<string>, manifest: set<string>): seq<(string, Path)> {
    if keys == [] then []
    else
      var k := keys[|keys| - 1];
      ProposedKeys(keys[..|keys| - 1], p, imported, manifest) + (if k in imported && k !in manifest then [(k, p)] else [])
  }

  lemma {:induction false} ProposedForKeys(x: Input, c: ClaimedPage, n: nat)
    requires n <= |c.keys| && x.manifest.Some?
    ensures ProposedFor(x, c, n) == ProposedKeys(c.keys[..n], c.path, x.ledger.imported, x.manifest.value)
  {
    if n > 0 {
      ProposedForKeys(x, c, n - 1);
      assert c.keys[..n][..n - 1] == c.keys[..n - 1];
    }
  }

  lemma {:induction false} ProposedPrefix(x: Input, y: Input, n: nat)
    requires x.manifest.Some? && y == x.(claimed := y.claimed)
    requires n <= |x.claimed| && n <= |y.claimed| && x.claimed[..n] == y.claimed[..n]
    ensures Proposed(x, n) == Proposed(y, n)
  {
    if n > 0 {
      assert x.claimed[n - 1] == x.claimed[..n][n - 1] == y.claimed[n - 1];
      assert x.claimed[..n][..n - 1] == x.claimed[..n - 1] && y.claimed[..n][..n - 1] == y.claimed[..n - 1];
      ProposedPrefix(x, y, n - 1);
      ProposedForKeys(x, x.claimed[n - 1], |x.claimed[n - 1].keys|);
      ProposedForKeys(y, y.claimed[n - 1], |y.claimed[n - 1].keys|);
    }
  }

  lemma ProposedLast(x: Input, n: nat)
    requires 0 < n <= |x.claimed| && x.manifest.Some?
    ensures Proposed(x, n) == Proposed(x, n - 1) + ProposedFor(x, x.claimed[n - 1], |x.claimed[n - 1].keys|)
  {
    hide ProposedFor;
  }

  /** One more claimed page adds the deletions proposed for it. */
  lemma ProposedStep(y0: Input, y: Input, c: ClaimedPage)
    requires y.manifest.Some? && y == y0.(claimed := y.claimed) && y.claimed == y0.claimed + [c]
    ensures Proposed(y, |y.claimed|)
         == Proposed(y0, |y0.claimed|) + ProposedKeys(c.keys, c.path, y.ledger.imported, y.manifest.value)
  {
    var n := |y0.claimed|;
    ProposedLast(y, n + 1);
    hide ProposedKeys, Proposed, ProposedFor;
    assert y0.claimed[..n] == y0.claimed && y.claimed[..n] == y0.claimed;
    ProposedPrefix(y, y0, n);
    ProposedForKeys(y, c, |c.keys|);
    assert c.keys[..|c.keys|] == c.keys;
  }

  lemma {:induction false} ProposedIsFlat(x: Input, brain: Brain, ps: seq<Path>)
    requires x.manifest.Some? && (forall p :: p in ps ==> p in brain.pages)
    ensures Proposed(x.(claimed := ClaimedAmong(brain, ps)), |ClaimedAmong(brain, ps)|)
         == FlatOver(ps, ProposalsAt(brain, x.ledger.imported, x.manifest.value))
    decreases |ps|
  {
    hide KeysAt, Ascending, ProposedFor;
    if ps != [] {
      var init, p := ps[..|ps| - 1], ps[|ps| - 1];
      var f := ProposalsAt(brain, x.ledger.imported, x.manifest.value);
      assert ps == init + [p] && p in ps;
      ProposedIsFlat(x, brain, init);
      FlatOverLast(init, p, f);
      var cs, cs0 := ClaimedAmong(brain, ps), ClaimedAmong(brain, init);
      hide Proposed, FlatOver;
      if KeysAt(brain, p) != [] {
        var c := ClaimedPage(p, KeysAt(brain, p), brain.pages[p]);
        assert cs == cs0 + [c] && |cs| == |cs0| + 1;
        ProposedStep(x.(claimed := cs0), x.(claimed := cs), c);
      } else {
        assert cs == cs0 && f(p) == [];
      }
    }
  }

  lemma {:induction false} ProposedKeysSame(keys: seq<string>, p: Path, a: seq<string>, c: seq<string>, manifest: set<string>)
    requires forall k :: k in keys && k !in manifest ==> (k in a <==> k in c)
    ensures ProposedKeys(keys, p, a, manifest) == ProposedKeys(keys, p, c, manifest)
    decreases |keys|
  {
    if keys != [] { ProposedKeysSame(keys[..|keys| - 1], p, a, c, manifest); }
  }

  lemma ProposalsSettle(w: World, b: Batch)
    requires !OwnsReserved(b) && OnePageEach(InputOf(w, b)) && KeysSeen(w, b) && Calm(w, b) && ManifestCovers(InputOf(w, b)) && b.manifest.Some?
    ensures var x, x2 := InputOf(w, b), InputOf(Sync(w, b), b);
      Proposed(x2, |x2.claimed|) == Proposed(x, |x.claimed|)
  {
    hide OutcomeOf, PlanOf, KeysOf, ApplyWrites, ProposedKeys, OnePageEach, Imports, KeyOf, Ascending;
    var x, w2 := InputOf(w, b), Sync(w, b);
    var x2, m := InputOf(w2, b), b.manifest.value;
    ProposedIsFlat(x, w.brain, Ascending(w.brain.pages.Keys));
    ProposedIsFlat(x2, w2.brain, Ascending(w2.brain.pages.Keys));
    assert x == x.(claimed := ClaimedOf(w.brain)) && x2 == x2.(claimed := ClaimedOf(w2.brain));
    var f, g := ProposalsAt(w.brain, w.ledger.imported, m), ProposalsAt(w2.brain, w2.ledger.imported, m);
    forall p ensures p in w.brain.pages ==> p in w2.brain.pages && f(p) == g(p) {
      if p in w.brain.pages { ProposalsAtOldPage(w, b, p); }
    }
    forall p | p in w2.brain.pages && p !in w.brain.pages ensures g(p) == [] {
      ProposalsAtNewPage(w, b, p);
    }
    FlatOverGrows(w.brain.pages.Keys, w2.brain.pages.Keys, f, g);
  }

  /** What joined the ledger is in the manifest. */
  lemma NewKeysCovered(w: World, b: Batch, k: string)
    requires !OwnsReserved(b) && ManifestCovers(InputOf(w, b)) && b.manifest.Some? && k !in b.manifest.value
    ensures k in Sync(w, b).ledger.imported <==> k in w.ledger.imported
  {
    hide OutcomeOf, PlanOf, Imports, KeyOf, ClaimedOf;
    var x := InputOf(w, b);
    PlanWrites(x);
    ImportedMembers(x, |x.records|, k);
  }

  lemma ProposalsAtOldPage(w: World, b: Batch, p: Path)
    requires !OwnsReserved(b) && OnePageEach(InputOf(w, b)) && KeysSeen(w, b) && Calm(w, b) && ManifestCovers(InputOf(w, b)) && b.manifest.Some?
    requires p in w.brain.pages
    ensures p in Sync(w, b).brain.pages
    ensures ProposalsAt(w.brain, w.ledger.imported, b.manifest.value)(p)
         == ProposalsAt(Sync(w, b).brain, Sync(w, b).ledger.imported, b.manifest.value)(p)
  {
    hide PlanOf, ApplyWrites, OutcomeOf, OnePageEach, ManifestCovers, Sync;
    SyncConserves(w, b, p);
    var w2 := Sync(w, b);
    forall k | k !in b.manifest.value ensures k in w2.ledger.imported <==> k in w.ledger.imported {
      NewKeysCovered(w, b, k);
    }
    ProposedKeysSame(KeysAt(w.brain, p), p, w.ledger.imported, w2.ledger.imported, b.manifest.value);
    if KeysAt(w2.brain, p) != KeysAt(w.brain, p) {
      NewlyBoundCovered(w, b, p);
    }
  }

  lemma ProposalsAtNewPage(w: World, b: Batch, p: Path)
    requires !OwnsReserved(b) && OnePageEach(InputOf(w, b)) && KeysSeen(w, b) && Calm(w, b) && ManifestCovers(InputOf(w, b)) && b.manifest.Some?
    requires p !in w.brain.pages && p in Sync(w, b).brain.pages
    ensures ProposalsAt(Sync(w, b).brain, Sync(w, b).ledger.imported, b.manifest.value)(p) == []
  {
    hide PlanOf, ApplyWrites, OutcomeOf, OnePageEach, ManifestCovers, Sync, KeysOf;
    NewlyBoundCovered(w, b, p);
  }

  /** Every key a page claims only now was imported by this batch, so the manifest has it. */
  lemma NewlyBoundCovered(w: World, b: Batch, p: Path)
    requires !OwnsReserved(b) && OnePageEach(InputOf(w, b)) && KeysSeen(w, b) && Calm(w, b) && ManifestCovers(InputOf(w, b)) && b.manifest.Some?
    requires p in Sync(w, b).brain.pages && (p in w.brain.pages ==> KeysAt(w.brain, p) == [])
    ensures ProposedKeys(KeysAt(Sync(w, b).brain, p), p, Sync(w, b).ledger.imported, b.manifest.value) == []
  {
    hide Sync, KeysAt, ProposedKeys, OnePageEach, InputOf, Calm, KeysSeen, ManifestCovers;
    var w2 := Sync(w, b);
    forall k | k in KeysAt(w2.brain, p) ensures k in b.manifest.value { BoundInManifest(w, b, p, k); }
    ProposesNothing(KeysAt(w2.brain, p), p, w2.ledger.imported, b.manifest.value);
  }

  lemma BoundInManifest(w: World, b: Batch, p: Path, k: string)
    requires !OwnsReserved(b) && OnePageEach(InputOf(w, b)) && KeysSeen(w, b) && Calm(w, b) && ManifestCovers(InputOf(w, b)) && b.manifest.Some?
    requires p in w.brain.pages ==> KeysAt(w.brain, p) == []
    requires Claims(Sync(w, b).brain, p, k)
    ensures k in b.manifest.value
  {
    hide OutcomeOf, OnePageEach, Sync, KeysOf, KeysAt, KeyOf, Reread, Calm, KeysSeen, Imports, Lands,
      Claims, ManifestCovers, InputOf;
    SameCount(w, b);
    NotClaimedBefore(w, p, k);
    ClaimsAfter(w, b, p, k);
    var i :| 0 <= i < |InputOf(w, b).records| && Binds(InputOf(w, b), w.brain.indexed, i, p, k);
    NewKey(w, b, i);
    SeenKey(w, b, i);
  }

  lemma NotClaimedBefore(w: World, p: Path, k: string)
    requires p in w.brain.pages ==> KeysAt(w.brain, p) == []
    ensures !Claims(w.brain, p, k)
  {
    hide KeysAt;
  }

  /** The key of a record that lands joins the ledger, so a manifest that covers the batch has it. */
  lemma NewKey(w: World, b: Batch, i: nat)
    requires !OwnsReserved(b) && ManifestCovers(InputOf(w, b)) && b.manifest.Some?
    requires i < |b.records| == |InputOf(w, b).records| && Lands(InputOf(w, b), i)
    ensures KeyOf(b.records[i]) in b.manifest.value
  {
    hide OutcomeOf, KeyOf, ReadPage, UpdatedPage, AdoptedPage, CreatedPage, MayWrite, KeysOf, PageByKey,
      ClaimedOf;
    var x := InputOf(w, b);
    assert KeyOf(x.records[i]) == KeyOf(b.records[i]) by { CleanFields(b, i); }
    WriteRespects(w, b, i, OutcomeOf(x, i).write);
    assert Imports(x, i);
  }

  lemma {:induction false} ProposesNothing(keys: seq<string>, p: Path, imported: seq<string>, manifest: set<string>)
    requires forall k :: k in keys ==> k in manifest
    ensures ProposedKeys(keys, p, imported, manifest) == []
    decreases |keys|
  {
    if keys != [] { ProposesNothing(keys[..|keys| - 1], p, imported, manifest); }
  }

  lemma BackSettles(w: World, b: Batch)
    requires !OwnsReserved(b) && OnePageEach(InputOf(w, b)) && ManifestCovers(InputOf(w, b)) && AllBack(w, b) && Calm(w, b)
    ensures var w2 := Sync(w, b);
      && PlanOf(InputOf(w2, b)).writes == []
      && PlanOf(InputOf(w2, b)).ledgerAfter == w2.ledger
      && Sync(w2, b) == w2
  {
    hide OutcomeOf, OnePageEach, ManifestCovers, Buckets, Carried, Proposed, ClaimedOf, ImportedUpTo,
      KeysSeen, FieldsRead, Calm;
    var w2 := Sync(w, b);
    var x, x2 := InputOf(w, b), InputOf(w2, b);
    SecondBuckets(w, b, |b.records|);
    if b.manifest.Some? { ProposalsSettle(w, b); }
    PendingSettles(x, x2);
    PlanWrites(x2);
    SuppressedKept(x2, |x2.records|);
    assert PlanOf(x2).ledgerAfter == w2.ledger;
  }

  // ---------- a binding the index does not see ----------

  /** A record whose key no page will be seen to claim: one whose key does not read back as itself,
      if there is. */
  predicate Unseen(w: World, b: Batch, i: nat) {
    && i < |b.records| && Lands(InputOf(w, b), i)
    && (!KeyBack(KeyOf(b.records[i]))
        || (!BindingSeen(w, b, i, OutcomeOf(InputOf(w, b), i).write)
            && forall j :: 0 <= j < |b.records| && Lands(InputOf(w, b), j) ==> KeyBack(KeyOf(b.records[j]))))
  }

  lemma UnseenOne(w: World, b: Batch) returns (i: nat)
    requires !KeysSeen(w, b)
    ensures Unseen(w, b, i)
  {
    hide OutcomeOf, BindingSeen, KeyOf, InputOf, KeyBack;
    SameCount(w, b);
    if j :| 0 <= j < |b.records| && Lands(InputOf(w, b), j) && !KeyBack(KeyOf(b.records[j])) {
      i := j;
    } else {
      i :| 0 <= i < |b.records| && Lands(InputOf(w, b), i)
        && !(BindingSeen(w, b, i, OutcomeOf(InputOf(w, b), i).write) && KeyBack(KeyOf(b.records[i])));
    }
  }

  /** Nothing claims that key after the sync. */
  lemma UnseenUnclaimed(w: World, b: Batch, i: nat, q: Path)
    requires !OwnsReserved(b) && OnePageEach(InputOf(w, b)) && Calm(w, b) && Unseen(w, b, i)
    ensures !Claims(Sync(w, b).brain, q, KeyOf(b.records[i]))
  {
    hide OutcomeOf, BindingSeen, Trim, Sync, Claims, KeysOf, OnePageEach, ClaimedOf, IsRecordPath, MayWrite, CreatedPage, UpdatedPage, AdoptedPage,
      Calm, ReadPage, Reread, ReadKeys, KeyBack;
    var x, k := InputOf(w, b), KeyOf(b.records[i]);
    WriteRespects(w, b, i, OutcomeOf(x, i).write);
    ClaimsAfter(w, b, q, k);
    if j :| 0 <= j < |x.records| && Binds(x, w.brain.indexed, j, q, k) {
      ReadAs(w, b, j, k);
      TrimTwice(b.records[i].key);
      TrimTwice(b.records[j].key);
      ReadKeysIs(KeyOf(b.records[j]));
      NotRefused(x, i);
      if j != i && KeyOf(b.records[j]) == k { KeyOnce(x, i, j); }
    }
  }

  /** What a record that lands binds its page to is its key as it reads back. */
  lemma ReadAs(w: World, b: Batch, j: nat, k: string)
    requires !OwnsReserved(b) && Calm(w, b) && j < |b.records| == |InputOf(w, b).records| && Lands(InputOf(w, b), j)
    requires k in KeysOf(w.brain.indexed, Reread(OutcomeOf(InputOf(w, b), j).write.page))
    ensures BindingSeen(w, b, j, OutcomeOf(InputOf(w, b), j).write) && k in ReadKeys(KeyOf(b.records[j])) && KeyOf(b.records[j]) != ""
  {
    hide OutcomeOf, BindingSeen, KeyOf, KeysOf, InputOf, MayWrite, CreatedPage, UpdatedPage, AdoptedPage,
      CalmWrite, ReadPage, Reread, ReadKeys, TameFront;
    WriteRespects(w, b, j, OutcomeOf(InputOf(w, b), j).write);
    WriteClaims(w, b, j, OutcomeOf(InputOf(w, b), j).write);
  }

  /** So the next sync asks about it, which it did not before. */
  lemma UnseenIsAsked(w: World, b: Batch, i: nat)
    requires !OwnsReserved(b) && i < |b.records| && Lands(InputOf(w, b), i)
    requires forall q :: !Claims(Sync(w, b).brain, q, KeyOf(b.records[i]))
    ensures OutcomeOf(InputOf(Sync(w, b), b), i).Asks?
    ensures KeyOf(b.records[i]) in PlanOf(InputOf(Sync(w, b), b)).needsDecision
    ensures !AtRest(w, b) && Sync(Sync(w, b), b) != Sync(w, b)
  {
    hide OutcomeOf, Trim, Sync, Claims, KeysOf, ClaimedOf, IsRecordPath, PlanOf, Buckets, BindingSeen,
      MayWrite, CreatedPage;
    var x, w2, k := InputOf(w, b), Sync(w, b), KeyOf(b.records[i]);
    var x2 := InputOf(w2, b);
    WriteRespects(w, b, i, OutcomeOf(x, i).write);
    NotRefused(x, i);
    PlacedIsImported(w, b, i);
    SameSuppressed(w, b);
    Resolved(w2.brain, k);
    AsksFor(x2, i);
    AskedAt(x2, |x2.records|, i);
    NewQuestion(w, b, i);
    SyncLedger(w, b);
    SyncLedger(w2, b);
  }

  lemma AsksFor(x: Input, i: nat)
    requires i < |x.records| && KeyOf(x.records[i]) != "" && !SeenBefore(x.records, i)
    requires KeyOf(x.records[i]) !in x.ledger.suppressed && KeyOf(x.records[i]) in x.ledger.imported
    requires PageByKey(x.claimed, KeyOf(x.records[i])).None?
    ensures OutcomeOf(x, i).Asks?
  {
  }

  lemma SyncLedger(w: World, b: Batch)
    requires !OwnsReserved(b)
    ensures Sync(w, b).ledger == PlanOf(InputOf(w, b)).ledgerAfter
  {
    hide PlanOf, InputOf;
  }

  lemma {:induction false} AskedAt(x: Input, n: nat, i: nat)
    requires i < n <= |x.records| && OutcomeOf(x, i).Asks?
    ensures KeyOf(x.records[i]) in Buckets(x, n).needsDecision
    ensures n == |x.records| ==> KeyOf(x.records[i]) in PlanOf(x).needsDecision
  {
    hide OutcomeOf, ImportedUpTo, KeyOf, Proposed, Carried;
    if i < n - 1 { AskedAt(x, n - 1, i); }
  }

  /** A question for a record that was placed is none the first sync left. */
  lemma NewQuestion(w: World, b: Batch, i: nat)
    requires !OwnsReserved(b) && i < |b.records| && OutcomeOf(InputOf(w, b), i).Writes?
    requires KeyOf(b.records[i]) in PlanOf(InputOf(Sync(w, b), b)).needsDecision
    ensures var q := Question(KeyOf(b.records[i]), NeedsDecision, None);
      q in PlanOf(InputOf(Sync(w, b), b)).ledgerAfter.pending && q !in PlanOf(InputOf(w, b)).ledgerAfter.pending
  {
    hide OutcomeOf, Trim, Sync, ClaimedOf, IsRecordPath, Buckets, Proposed, BindingSeen;
    var x, x2, k := InputOf(w, b), InputOf(Sync(w, b), b), KeyOf(b.records[i]);
    var q := Question(k, NeedsDecision, None);
    NotRefused(x, i);
    CarriedKeeps(x, x.ledger.pending, q);
    assert KeyOf(x.records[i]) == q.key;
    if k in Buckets(x, |x.records|).needsDecision {
      AskedAreAsked(x, |x.records|, k);
      var j :| 0 <= j < |x.records| && KeyOf(x.records[j]) == k && OutcomeOf(x, j).Asks?;
      KeyOnce(x, i, j);
    }
    QuestionsAre(x, q);
    QuestionsAre(x2, q);
  }

  lemma QuestionsAre(x: Input, q: Question)
    requires q.kind.NeedsDecision? && q.path.None?
    ensures q in PlanOf(x).ledgerAfter.pending <==> q in Carried(x, x.ledger.pending) || q.key in Buckets(x, |x.records|).needsDecision
    ensures PlanOf(x).needsDecision == Buckets(x, |x.records|).needsDecision
  {
    hide Carried, Buckets, Proposed;
    var nd := Buckets(x, |x.records|).needsDecision;
    if q.key in nd {
      var i :| 0 <= i < |nd| && nd[i] == q.key;
      assert AskQuestions(nd)[i] == q;
    }
  }

  lemma {:induction false} CarriedKeeps(x: Input, qs: seq<Question>, q: Question)
    ensures q in Carried(x, qs) ==> Carries(x, q)
  {
    hide Carries;
    if qs != [] { CarriedKeeps(x, qs[1..], q); }
  }

  lemma {:induction false} AskedAreAsked(x: Input, n: nat, k: string)
    requires n <= |x.records| && k in Buckets(x, n).needsDecision
    ensures exists i :: 0 <= i < n && KeyOf(x.records[i]) == k && OutcomeOf(x, i).Asks?
  {
    hide OutcomeOf, KeyOf, ImportedUpTo;
    if k in Buckets(x, n - 1).needsDecision { AskedAreAsked(x, n - 1, k); }
  }

  // ---------- a field that does not read back ----------

  /** A record that was written and has no page, or another value there, is not done with. */
  lemma WritesAgain(w: World, b: Batch, i: nat)
    requires i < |b.records| && OutcomeOf(InputOf(Sync(w, b), b), i).Writes?
    ensures PlanOf(InputOf(Sync(w, b), b)).writes != []
  {
    hide OutcomeOf, Sync, ImportedUpTo, Proposed, Carried;
    var x2 := InputOf(Sync(w, b), b);
    SameRecords(w, b);
    BucketWrites(x2, |x2.records|, OutcomeOf(x2, i).write);
    PlanWrites(x2);
  }

  /** The same sync, run again, has nothing to do. */
  predicate AtRest(w: World, b: Batch) {
    && PlanOf(InputOf(Sync(w, b), b)).writes == []
    && PlanOf(InputOf(Sync(w, b), b)).ledgerAfter == Sync(w, b).ledger
  }

  lemma SettledStays(w: World, b: Batch)
    requires !OwnsReserved(b) && AtRest(w, b)
    ensures Sync(Sync(w, b), b) == Sync(w, b)
  {
    hide PlanOf, InputOf;
    var w2 := Sync(w, b);
    assert ApplyWrites(w2.brain, []) == w2.brain;
  }

  /** IDEMPOTENCE. When no two records of the batch land on one page, a manifest, if sent, lists what
      the batch imports, and each write touches no binding but its own, the same sync run again
      plans no write and leaves the ledger exactly as it is if and only if everything it wrote
      reads back: every key the sync bound is seen as it is, on a page whose caps leave room for
      it, and every field it left on a page it wrote comes back as sent, under a name the reader
      knows. */
  lemma SyncSettles(w: World, b: Batch)
    requires !OwnsReserved(b) && OnePageEach(InputOf(w, b)) && ManifestCovers(InputOf(w, b)) && Calm(w, b)
    ensures AtRest(w, b) <==> AllBack(w, b)
    ensures AllBack(w, b) ==> Sync(Sync(w, b), b) == Sync(w, b)
  {
    hide OutcomeOf, Sync, PlanOf, OnePageEach, ManifestCovers, Calm, KeysSeen, FieldsRead, Claims, InputOf,
      KeyOf, Unseen;
    if AllBack(w, b) {
      BackSettles(w, b);
    } else if !KeysSeen(w, b) {
      var i := UnseenOne(w, b);
      UnseenIsNew(w, b, i);
      forall q ensures !Claims(Sync(w, b).brain, q, KeyOf(b.records[i])) { UnseenUnclaimed(w, b, i, q); }
      UnseenIsAsked(w, b, i);
    } else {
      var i := UnreadOne(w, b);
      PlacedAgain(w, b, i);
      WritesAgain(w, b, i);
    }
  }

  lemma UnseenIsNew(w: World, b: Batch, i: nat)
    requires Unseen(w, b, i)
    ensures i < |b.records| && Lands(InputOf(w, b), i) && OutcomeOf(InputOf(w, b), i).Writes?
  {
    hide OutcomeOf, InputOf, KeyOf, BindingSeen;
    SameCount(w, b);
  }

  lemma UnreadOne(w: World, b: Batch) returns (i: nat)
    requires !FieldsRead(w, b)
    ensures i < |b.records| && OutcomeOf(InputOf(w, b), i).Writes? && Target(InputOf(w, b), i).Some?
    ensures !FieldsBack(OutcomeOf(InputOf(w, b), i).write.page.fm, CleanRecord(b.records[i]).fields, b.owned)
  {
    hide OutcomeOf, FieldsBack, CleanRecord;
    i :| 0 <= i < |b.records| && OutcomeOf(InputOf(w, b), i).Writes?
      && !FieldsBack(OutcomeOf(InputOf(w, b), i).write.page.fm, CleanRecord(b.records[i]).fields, b.owned);
  }

  /** A COLUMN THE READER DOES NOT KNOW IS WRITTEN FOR EVER. Whatever else the batch does and whatever the
      pages hold: a record that is written and sends, as the source's own, a value that is not
      empty under a name with anything but letters, digits, underscores and dashes in it, or one
      that starts with a fence, is written again or asked about by the identical next sync. */
  lemma UnknownNameNeverSettles(w: World, b: Batch, i: nat, k: string)
    requires !OwnsReserved(b) && i < |b.records| && OutcomeOf(InputOf(w, b), i).Writes?
    requires k in b.owned && k in b.records[i].fields.at && !Usable(k) && Norm(b.records[i].fields.at[k]) != []
    ensures !AtRest(w, b)
  {
    hide OutcomeOf, Sync, PlanOf, InputOf, ReadPage, Claims, Usable, Moved, Norm, ClaimedOf, PageByKey, KeyOf;
    var x, w2 := InputOf(w, b), Sync(w, b);
    var x2 := InputOf(w2, b);
    SameRecords(w, b);
    CleanInput(w, b, i);
    SoundWrite(x, i);
    PlacedIsImported(w, b, i);
    SameSuppressed(w, b);
    CleanInput(w2, b, i);
    match PageByKey(x2.claimed, KeyOf(x2.records[i]))
    case Some(c) =>
      ResolvedOutcome(x2, i, c);
      assert k in Moved(ReadPage(c.text).fm, x2.records[i].fields, x2.owned) by { UnknownMoves(c.text, x2.records[i], x2.owned, k); }
      WritesAgain(w, b, i);
    case None =>
      AsksFor(x2, i);
      AskedAt(x2, |x2.records|, i);
      NewQuestion(w, b, i);
      SyncLedger(w, b);
  }

  lemma UnknownMoves(md: string, r: Record, owned: seq<string>, k: string)
    requires k in owned && k in r.fields.at && !Usable(k) && Norm(r.fields.at[k]) != []
    ensures k in Moved(ReadPage(md).fm, r.fields, owned)
  {
    hide ReadPage, Usable, Norm;
    NeverRead(md, k, r.fields.at[k]);
  }

  lemma SoundWrite(x: Input, i: nat)
    requires i < |x.records| && OutcomeOf(x, i).Writes?
    ensures KeyOf(x.records[i]) != "" && !SeenBefore(x.records, i) && KeyOf(x.records[i]) !in x.ledger.suppressed
  {
    hide PageByKey, Trim, SeenBefore, Moved, EndsWithMd, IsClaimedPath, ReadPage, UpdatedPage, CreatedPage,
      AdoptedPage;
  }

  lemma CleanInput(w: World, b: Batch, i: nat)
    requires i < |b.records|
    ensures var x := InputOf(w, b);
      && |x.records| == |b.records| && x.owned == b.owned && x.ledger == w.ledger && x.claimed == ClaimedOf(w.brain)
      && KeyOf(x.records[i]) == KeyOf(b.records[i])
      && (!OwnsReserved(b) ==> forall k :: k in b.owned && k in b.records[i].fields.at ==>
            k in x.records[i].fields.at && x.records[i].fields.at[k] == b.records[i].fields.at[k])
  {
    hide ClaimedOf, KeyOf;
    assert InputOf(w, b).records[i] == CleanRecord(b.records[i]);
    assert KeyOf(CleanRecord(b.records[i])) == KeyOf(b.records[i]) by { CleanFields(b, i); }
  }
}
