/** Where a sync's promises end: two records sent to one new page, keys and names that do
    not read back, and what an answer to a question changes. Each limit is an exact
    condition on the records, the pages and the caps of the index, or a record that meets
    it. */
module ImportLimits {
  import opened Options
  import opened Paths
  import opened Texts
  import opened Frontmatter
  import opened FrontmatterValues
  import opened FrontmatterPages
  import opened FrontmatterReads
  import opened ImportPlanner
  import opened ImportReads
  import opened ImportClaims
  import opened ImportRuns
  import opened ImportSettles
  import opened ImportHistory

  // ---------- two records, one new page ----------

  /** No later record of the batch writes to p. */
  predicate LastAt(x: Input, i: nat, p: Path) {
    forall j :: i < j < |x.records| ==> WrittenPath(x, j) != Some(p)
  }

  function WrittenPath(x: Input, j: nat): Option<Path>
    requires j < |x.records|
  {
    if OutcomeOf(x, j).Writes? then Some(OutcomeOf(x, j).write.path) else None
  }

  /** The last write to a path is what stays there. */
  lemma {:induction false} LastStays(brain: Brain, x: Input, i: nat, pw: PlannedWrite, n: nat)
    requires i < n <= |x.records| && OutcomeOf(x, i) == Writes(pw)
    requires forall j :: i < j < n ==> WrittenPath(x, j) != Some(pw.path)
    ensures var after := ApplyWrites(brain, Buckets(x, n).writes);
      pw.path in after.pages && after.pages[pw.path] == PageText(pw.page)
  {
    hide OutcomeOf, ImportedUpTo, Buckets, PageText;
    var b, b0 := Buckets(x, n), Buckets(x, n - 1);
    WritesLast(x, n);
    if n - 1 > i {
      LastStays(brain, x, i, pw, n - 1);
      assert WrittenPath(x, n - 1) != Some(pw.path);
    }
    if OutcomeOf(x, n - 1).Writes? {
      assert b.writes[..|b.writes| - 1] == b0.writes;
    } else {
      assert b.writes == b0.writes;
    }
  }

  lemma WritesLast(x: Input, n: nat)
    requires 0 < n <= |x.records|
    ensures Buckets(x, n).writes
         == Buckets(x, n - 1).writes + (if OutcomeOf(x, n - 1).Writes? then [OutcomeOf(x, n - 1).write] else [])
  {
    hide OutcomeOf, ImportedUpTo, KeyOf;
  }

  /** The last record at or after i that writes to p. */
  lemma {:induction false} LastWriter(x: Input, i: nat, p: Path, n: nat) returns (j: nat)
    requires i < n <= |x.records| && WrittenPath(x, i) == Some(p)
    ensures i <= j < n && WrittenPath(x, j) == Some(p)
    ensures forall m :: j < m < n ==> WrittenPath(x, m) != Some(p)
  {
    hide OutcomeOf;
    if n - 1 == i || WrittenPath(x, n - 1) == Some(p) {
      j := n - 1;
    } else {
      j := LastWriter(x, i, p, n - 1);
    }
  }

  lemma LastStaysAfter(w: World, b: Batch, i: nat, pw: PlannedWrite)
    requires !OwnsReserved(b) && i < |b.records| && OutcomeOf(InputOf(w, b), i) == Writes(pw)
    requires LastAt(InputOf(w, b), i, pw.path)
    ensures pw.path in Sync(w, b).brain.pages && Sync(w, b).brain.pages[pw.path] == PageText(pw.page)
  {
    hide OutcomeOf, Buckets, ApplyWrites, PageText;
    LastStays(w.brain, InputOf(w, b), i, pw, |b.records|);
  }

  lemma BindingIsRecorded(w: World, b: Batch, i: nat)
    requires !OwnsReserved(b) && i < |b.records|
    requires var o := OutcomeOf(InputOf(w, b), i); o.Writes? && !o.write.kind.Update?
    ensures OutcomeOf(InputOf(w, b), i).write.key in Sync(w, b).ledger.imported
  {
    hide OutcomeOf, PlanOf, ApplyWrites, KeysOf, ReadPage, UpdatedPage, AdoptedPage, CreatedPage, MayWrite;
    var x := InputOf(w, b);
    WriteRespects(w, b, i, OutcomeOf(x, i).write);
    PlanWrites(x);
    assert Imports(x, i);
    ImportedMembers(x, |x.records|, KeyOf(x.records[i]));
  }

  /** Record j is the last to write its page, and leaves it seen to claim k. */
  predicate LeavesClaim(w: World, b: Batch, j: nat, k: string)
    requires j < |b.records| == |InputOf(w, b).records|
  {
    var x := InputOf(w, b);
    && Lands(x, j) && LastAt(x, j, OutcomeOf(x, j).write.path)
    && BindingSeen(w, b, j, OutcomeOf(x, j).write) && k in ReadKeys(KeyOf(b.records[j]))
  }

  /** The page of the last record to write it, as it reads afterwards. */
  lemma LastKeys(w: World, b: Batch, j: nat)
    requires !OwnsReserved(b) && j < |b.records| == |InputOf(w, b).records| && OutcomeOf(InputOf(w, b), j).Writes?
    requires LastAt(InputOf(w, b), j, OutcomeOf(InputOf(w, b), j).write.path)
    ensures var pw := OutcomeOf(InputOf(w, b), j).write;
      && pw.path in Sync(w, b).brain.pages
      && KeysAt(Sync(w, b).brain, pw.path) == KeysOf(w.brain.indexed, Reread(pw.page))
  {
    hide OutcomeOf, KeysOf, Sync, InputOf, PageText, ReadPage, LastAt;
    LastStaysAfter(w, b, j, OutcomeOf(InputOf(w, b), j).write);
    SettingsStay(w, b);
  }

  lemma LeftClaimStays(w: World, b: Batch, j: nat, k: string)
    requires !OwnsReserved(b) && Calm(w, b) && j < |b.records| == |InputOf(w, b).records| && LeavesClaim(w, b, j, k)
    ensures Claims(Sync(w, b).brain, OutcomeOf(InputOf(w, b), j).write.path, k)
  {
    hide OutcomeOf, KeysAt, KeysOf, KeyOf, Sync, BindingSeen, InputOf, LastAt, CalmWrite, ReadKeys, Reread,
      TameFront;
    LastKeys(w, b, j);
    WriteClaims(w, b, j, OutcomeOf(InputOf(w, b), j).write);
  }

  lemma SettingsStay(w: World, b: Batch)
    ensures Sync(w, b).brain.indexed == w.brain.indexed
  {
    hide PlanOf, InputOf, ApplyWrites;
    if !OwnsReserved(b) { ApplyAt(w.brain, PlanOf(InputOf(w, b)).writes, ""); }
  }

  /** Who claims a key nobody did was left doing so by some record. */
  lemma ClaimWasLeft(w: World, b: Batch, q: Path, k: string) returns (j: nat)
    requires !OwnsReserved(b) && Calm(w, b) && |b.records| == |InputOf(w, b).records|
    requires !Claims(w.brain, q, k) && Claims(Sync(w, b).brain, q, k)
    ensures j < |b.records| && LeavesClaim(w, b, j, k)
  {
    hide OutcomeOf, PlanOf, KeysAt, KeysOf, KeyOf, BindingSeen, InputOf, CalmWrite, Sync, ReadKeys, LastAt,
      IsWritten, Reread, TameFront;
    var x := InputOf(w, b);
    if !IsWritten(w, b, q) { UnwrittenClaims(w, b, q); }
    j := LastOver(w, b, q);
    LastKeys(w, b, j);
    WriteClaims(w, b, j, OutcomeOf(x, j).write);
  }

  /** The last record that writes to a page some record writes to. */
  lemma LastOver(w: World, b: Batch, q: Path) returns (j: nat)
    requires !OwnsReserved(b) && |b.records| == |InputOf(w, b).records| && IsWritten(w, b, q)
    ensures j < |b.records| && OutcomeOf(InputOf(w, b), j).Writes? && OutcomeOf(InputOf(w, b), j).write.path == q
    ensures LastAt(InputOf(w, b), j, q)
  {
    hide OutcomeOf, InputOf;
    var x := InputOf(w, b);
    var m :| 0 <= m < |b.records| && OutcomeOf(x, m).Writes? && OutcomeOf(x, m).write.path == q;
    assert WrittenPath(x, m) == Some(q);
    j := LastWriter(x, m, q, |b.records|);
  }

  /** No other new record's key reads back as this one's. */
  predicate ReadsAlone(w: World, b: Batch, i: nat)
    requires i < |b.records| == |InputOf(w, b).records|
  {
    forall j :: 0 <= j < |b.records| && j != i && Lands(InputOf(w, b), j) ==> KeyOf(b.records[i]) !in ReadKeys(KeyOf(b.records[j]))
  }

  /** A record whose key no page claimed binds one. After the sync some page claims the key if
      and only if a record whose key reads back as this one is the last of the batch to write its
      page, and the caps left room for the binding. For a key that reads back as itself, and that no
      other reads back as, that is this very record; for one that does not, there is none. The key is
      in the ledger either way, so a key that lost its page is asked about next time as though a
      person had deleted it. */
  lemma BoundIffLast(w: World, b: Batch, i: nat)
    requires !OwnsReserved(b) && Calm(w, b) && i < |b.records| && Lands(InputOf(w, b), i)
    ensures var x, k, after := InputOf(w, b), KeyOf(b.records[i]), Sync(w, b);
      && |x.records| == |b.records|
      && k in after.ledger.imported
      && ((exists q :: Claims(after.brain, q, k)) <==> exists j :: 0 <= j < |b.records| && LeavesClaim(w, b, j, k))
      && (KeyBack(k) && ReadsAlone(w, b, i) ==>
            ((exists q :: Claims(after.brain, q, k)) <==>
               LastAt(x, i, OutcomeOf(x, i).write.path) && BindingSeen(w, b, i, OutcomeOf(x, i).write)))
      && (!KeyBack(k) ==> forall q :: !Claims(after.brain, q, k))
  {
    hide OutcomeOf, KeysAt, Trim, Sync, BindingSeen, Claims, LastAt, InputOf, Calm, ReadKeys, KeyBack;
    SameCount(w, b);
    var x, k, after := InputOf(w, b), KeyOf(b.records[i]), Sync(w, b);
    NobodyBefore(w, b, i);
    BindingIsRecorded(w, b, i);
    TrimTwice(b.records[i].key);
    ReadKeysIs(k);
    if q :| Claims(after.brain, q, k) {
      var j := ClaimWasLeft(w, b, q, k);
      assert LeavesClaim(w, b, j, k);
    }
    forall j | 0 <= j < |b.records| && LeavesClaim(w, b, j, k)
      ensures exists q :: Claims(after.brain, q, k)
      ensures KeyBack(k)
    {
      LeftClaimStays(w, b, j, k);
      NobodyBefore(w, b, j);
      TrimTwice(b.records[j].key);
      ReadKeysIs(KeyOf(b.records[j]));
    }
    if KeyBack(k) && LastAt(x, i, OutcomeOf(x, i).write.path) && BindingSeen(w, b, i, OutcomeOf(x, i).write) {
      assert LeavesClaim(w, b, i, k);
    }
  }

  lemma NobodyBefore(w: World, b: Batch, i: nat)
    requires !OwnsReserved(b) && i < |b.records| == |InputOf(w, b).records| && Lands(InputOf(w, b), i)
    ensures KeyOf(b.records[i]) != "" && OutcomeOf(InputOf(w, b), i).write.key == KeyOf(b.records[i])
    ensures forall q :: !Claims(w.brain, q, KeyOf(b.records[i]))
  {
    hide OutcomeOf, KeysAt, KeyOf, InputOf, ReadPage, UpdatedPage, AdoptedPage, CreatedPage, MayWrite;
    WriteRespects(w, b, i, OutcomeOf(InputOf(w, b), i).write);
  }

  function NoneSent(): Ordered<Flat> {
    OrderedMap(map[], [])
  }

  /** Two records for one new page: both keys are recorded as imported, one has no page, and
      the next sync of the same batch asks about it. */
  lemma TwoRecordsOnePage(b: Batch, w: World)
    requires w == World(Brain(map[], None), Ledger([], [], []))
    requires b.records == [Record("1", Some("a.md"), NoneSent(), None), Record("2", Some("a.md"), NoneSent(), None)]
    requires b.manifest.None? && b.owned == [] && !b.adopt
    ensures PlanOf(InputOf(Sync(w, b), b)).needsDecision == ["1"]
  {
    hide PlanOf, Sync, ApplyWrites, KeysOf, OutcomeOf, InputOf, OwnsReserved, Claims, Lands, BindingSeen,
      Calm, KeyBack, ReadKeys, Trim;
    var x := InputOf(w, b);
    SmallBatch(x, b, w);
    TrimSmall();
    ReadKeysIs("1");
    ReadKeysIs("2");
    SameSuppressed(w, b);
    BoundIffLast(w, b, 0);
    BoundIffLast(w, b, 1);
    var w2 := Sync(w, b);
    assert WrittenPath(x, 1) == Some("a.md");
    assert !LastAt(x, 0, "a.md") && LastAt(x, 1, "a.md");
    SecondAsk(b, w2);
  }

  predicate CreatesAt(o: Outcome, k: string, p: Path) {
    o.Writes? && o.write.kind.Create? && o.write.path == p && o.write.key == k
  }

  lemma TrimSmall()
    ensures Trim("1") == "1" && Trim("2") == "2" && Trim("a.md") == "a.md" && EndsWithMd("a.md") && DropSlashes("a.md") == "a.md"
  {
  }

  lemma SmallKeys()
    ensures KeyBack("1") && KeyBack("2")
  {
    TrimSmall();
    hide Trim;
  }

  lemma NoFieldsRoom()
    ensures Room(ToFront(NoneSent()), None, SOURCE_KEY)
  {
    assert Counted([], None) == [];
    assert ShownUpTo(ToFront(NoneSent()), 0) == [];
  }

  lemma {:induction false} NothingToClean()
    ensures Unreserved(NoneSent()) == NoneSent()
  {
    var m: map<string, Flat> := map[];
    assert m - RESERVED == m;
    assert WithoutReserved([]) == [];
  }

  lemma NoneIsSent()
    ensures NoneSent().at == map[]
  {
  }

  /** What a sync of an empty brain is given. */
  lemma EmptyBrain(w: World, b: Batch)
    requires w == World(Brain(map[], None), Ledger([], [], []))
    ensures var x := InputOf(w, b);
      && x.claimed == [] && x.ledger == w.ledger && x.existing == Some({}) && x.today == b.today
      && (x.adoptable.Some? ==> x.adoptable.value == map[])
      && |x.records| == |b.records| && forall i :: 0 <= i < |b.records| ==> x.records[i] == CleanRecord(b.records[i])
  {
    hide ReadPage, KeysOf, CleanRecord, IsRecordPath;
  }

  lemma CreatesFirst(x: Input, i: nat)
    requires i < |x.records| && x.claimed == [] && x.ledger == Ledger([], [], []) && x.existing == Some({})
    requires x.adoptable.Some? ==> x.adoptable.value == map[]
    requires KeyOf(x.records[i]) != "" && !SeenBefore(x.records, i)
    requires x.records[i].path.Some? && EndsWithMd(Trim(x.records[i].path.value))
    ensures var r := x.records[i];
      && OutcomeOf(x, i) == Writes(PlannedWrite(KeyOf(r), PathOf(r), Create, CreatedPage(r, x.today), r.fields.at.Keys))
      && Lands(x, i)
  {
    hide Trim, SeenBefore, CreatedPage, UpdatedPage, AdoptedPage, ReadPage, Moved, DropSlashes, EndsWithMd,
      PageByKey;
    NoClaims(KeyOf(x.records[i]));
  }

  lemma SmallBatch(x: Input, b: Batch, w: World)
    requires w == World(Brain(map[], None), Ledger([], [], []))
    requires b.records == [Record("1", Some("a.md"), NoneSent(), None), Record("2", Some("a.md"), NoneSent(), None)]
    requires b.manifest.None? && b.owned == [] && !b.adopt && x == InputOf(w, b)
    ensures !OwnsReserved(b) && |x.records| == 2
    ensures CreatesAt(OutcomeOf(x, 0), "1", "a.md") && CreatesAt(OutcomeOf(x, 1), "2", "a.md") && Lands(x, 0) && Lands(x, 1)
    ensures KeyOf(b.records[0]) == "1" && KeyOf(b.records[1]) == "2"
    ensures BindingSeen(w, b, 0, OutcomeOf(x, 0).write) && BindingSeen(w, b, 1, OutcomeOf(x, 1).write)
    ensures Calm(w, b) && KeyBack("1") && KeyBack("2")
  {
    hide CreatedPage, Trim, Room, ToFront, NoneSent, Unreserved, KeyBack, ReadPage, Tame, OutcomeOf,
      InputOf, EndsWithMd, DropSlashes;
    TrimSmall();
    SmallKeys();
    NoFieldsRoom();
    NothingToClean();
    NoneIsSent();
    EmptyBrain(w, b);
    assert x.records[0] == b.records[0] && x.records[1] == b.records[1];
    assert KeyOf(x.records[0]) == "1" && KeyOf(x.records[1]) == "2";
    CreatesFirst(x, 0);
    CreatesFirst(x, 1);
  }

  lemma SecondAsk(b: Batch, w2: World)
    requires b.records == [Record("1", Some("a.md"), NoneSent(), None), Record("2", Some("a.md"), NoneSent(), None)]
    requires b.manifest.None? && b.owned == [] && !b.adopt && w2.ledger.suppressed == []
    requires "1" in w2.ledger.imported && !(exists q :: Claims(w2.brain, q, "1"))
    requires "2" in w2.ledger.imported && exists q :: Claims(w2.brain, q, "2")
    ensures PlanOf(InputOf(w2, b)).needsDecision == ["1"]
  {
    hide Trim, ClaimedOf, Claims, Carried, ImportedUpTo, Moved, Unreserved, NoneSent, ReadPage;
    TrimSmall();
    NothingToClean();
    var x2 := InputOf(w2, b);
    assert x2.records == b.records;
    Resolved(w2.brain, "1");
    Resolved(w2.brain, "2");
    assert OutcomeOf(x2, 0).Asks?;
    assert KeyOf(x2.records[0]) == "1";
    assert Buckets(x2, 0).needsDecision == [];
    assert Buckets(x2, 1).needsDecision == ["1"];
    assert !OutcomeOf(x2, 1).Asks?;
    assert Buckets(x2, 2).needsDecision == ["1"];
  }

  // ---------- a record the index does not see ----------

  /** One record with a path and a key that is not empty, for a brain with no pages, indexed in
      full. */
  predicate FirstRecord(w: World, b: Batch) {
    && w == World(Brain(map[], None), Ledger([], [], []))
    && !OwnsReserved(b) && |b.records| == 1 && KeyOf(b.records[0]) != ""
    && b.records[0].path.Some? && EndsWithMd(Trim(b.records[0].path.value))
    && (forall k :: k in b.records[0].fields.at ==> k !in RESERVED)
  }

  predicate TameNames(r: Record) {
    forall k :: k in r.fields.at ==> Tame(k)
  }

  lemma {:induction false} FirstLands(w: World, b: Batch)
    requires FirstRecord(w, b)
    ensures var x, r := InputOf(w, b), b.records[0];
      && |x.records| == 1 && CleanRecord(r) == r && Lands(x, 0) && OutcomeOf(x, 0).write.path == PathOf(r)
      && OutcomeOf(x, 0).write.page == CreatedPage(r, b.today)
      && OnePageEach(x) && LastAt(x, 0, PathOf(r))
      && (TameNames(r) ==> Calm(w, b))
      && BindingSeen(w, b, 0, OutcomeOf(x, 0).write) == (|Shown(ToFront(r.fields))| < MAX_FIELD_KEYS_PER_PAGE)
  {
    hide CreatedPage, Trim, Room, Unreserved, OwnsReserved, Shown, ToFront, ReadPage, Tame, OutcomeOf,
      InputOf, EndsWithMd, DropSlashes;
    var x, r := InputOf(w, b), b.records[0];
    CleanAlready(r.fields);
    EmptyBrain(w, b);
    assert x.records[0] == r && !SeenBefore(x.records, 0);
    CreatesFirst(x, 0);
    RoomWithoutSettings(r);
  }

  lemma {:induction false} CleanAlready(fields: Ordered<Flat>)
    requires forall k :: k in fields.at ==> k !in RESERVED
    ensures Unreserved(fields) == fields
  {
    CleanOrder(fields.order);
    assert fields.at - RESERVED == fields.at;
  }

  lemma {:induction false} CleanOrder(order: seq<string>)
    requires NoRepeats(order) && forall k :: k in order ==> k !in RESERVED
    ensures WithoutReserved(order) == order
  {
    if order != [] {
      assert order == order[..|order| - 1] + [order[|order| - 1]];
      CleanOrder(order[..|order| - 1]);
    }
  }

  lemma {:induction false} CountsAll(order: seq<string>)
    ensures Counted(order, None) == order
  {
    if order != [] {
      CountsAll(order[..|order| - 1]);
      assert order == order[..|order| - 1] + [order[|order| - 1]];
    }
  }

  lemma RoomWithoutSettings(r: Record)
    requires forall k :: k in r.fields.at ==> k !in RESERVED
    ensures Room(ToFront(r.fields), None, SOURCE_KEY) <==> |Shown(ToFront(r.fields))| < MAX_FIELD_KEYS_PER_PAGE
  {
    hide ShownUpTo;
    CountsAll(Shown(ToFront(r.fields)));
    assert SOURCE_KEY in RESERVED;
  }

  /** A RECORD OF TWENTY-FOUR FIELDS IS ASKED ABOUT FOR EVER. Its new page lists the key after
      them, where the index no longer looks, so the identical sync asks about the page as
      removed; and so, whatever the fields, for a key that does not read back as itself: one longer
      than a row holds, or with a line end, or with a blank, hash and blank. */
  lemma UnseenRecord(w: World, b: Batch)
    requires FirstRecord(w, b) && TameNames(b.records[0])
    requires |Shown(ToFront(b.records[0].fields))| >= MAX_FIELD_KEYS_PER_PAGE || !KeyBack(KeyOf(b.records[0]))
    ensures PathOf(b.records[0]) in Sync(w, b).brain.pages
    ensures KeyOf(b.records[0]) in PlanOf(InputOf(Sync(w, b), b)).needsDecision
    ensures !AtRest(w, b)
  {
    hide OutcomeOf, Sync, PlanOf, Claims, InputOf, KeyOf, Lands, BindingSeen, LastAt, OnePageEach, PathOf,
      FirstRecord, Calm, KeyBack, Shown, ToFront, CreatedPage;
    FirstLands(w, b);
    ReadFirst(w, b);
    var x := InputOf(w, b);
    UnseenFirst(w, b);
    forall q ensures !Claims(Sync(w, b).brain, q, KeyOf(b.records[0])) { UnseenUnclaimed(w, b, 0, q); }
    UnseenIsAsked(w, b, 0);
    LandsIsWrite(x, 0);
    LastStaysAfter(w, b, 0, OutcomeOf(x, 0).write);
  }

  lemma UnseenFirst(w: World, b: Batch)
    requires |b.records| == 1 == |InputOf(w, b).records| && Lands(InputOf(w, b), 0)
    requires !BindingSeen(w, b, 0, OutcomeOf(InputOf(w, b), 0).write) || !KeyBack(KeyOf(b.records[0]))
    ensures Unseen(w, b, 0)
  {
    hide OutcomeOf, InputOf, KeyOf, BindingSeen, KeyBack, Lands;
  }

  lemma LandsIsWrite(x: Input, i: nat)
    requires i < |x.records| && Lands(x, i)
    ensures OutcomeOf(x, i) == Writes(OutcomeOf(x, i).write)
  {
    hide OutcomeOf;
  }

  lemma ReadFirst(w: World, b: Batch)
    requires FirstRecord(w, b)
    ensures !OwnsReserved(b) && |b.records| == 1 && b.records[0].path.Some? && KeyOf(b.records[0]) != ""
    ensures Trim(KeyOf(b.records[0])) == KeyOf(b.records[0]) && w.ledger.suppressed == []
  {
    TrimTwice(b.records[0].key);
    hide Trim;
  }

  /** A KEY LENDS ITS PAGE. The page of a key that does not read back as itself claims what it reads
      back as, so a record with that key is resolved to the page, and its fields are merged into
      it: the first 256 characters of a longer key, "a b" for "a" and "b" on two lines. */
  lemma KeyLendsItsPage(w: World, b: Batch, later: Batch)
    requires FirstRecord(w, b) && TameNames(b.records[0]) && |Shown(ToFront(b.records[0].fields))| < MAX_FIELD_KEYS_PER_PAGE
    requires |later.records| == 1 && KeyOf(later.records[0]) in ReadKeys(KeyOf(b.records[0]))
    ensures var x := InputOf(Sync(w, b), later); |x.records| == 1 && Target(x, 0) == Some(PathOf(b.records[0]))
  {
    hide OutcomeOf, Sync, PlanOf, Claims, InputOf, KeyOf, Lands, BindingSeen, LastAt, OnePageEach, PathOf,
      FirstRecord, Calm, ReadKeys, KeyBack, Shown, ToFront, CreatedPage, Trim;
    FirstLands(w, b);
    ReadFirst(w, b);
    var p, k, w2 := PathOf(b.records[0]), KeyOf(later.records[0]), Sync(w, b);
    LeftClaimStays(w, b, 0, k);
    ReadKeysIs(KeyOf(b.records[0]));
    assert Claims(w2.brain, p, k);
    forall q ensures Claims(w2.brain, q, k) ==> q == p {
      if Claims(w2.brain, q, k) {
        ClaimedHere(w2.brain, q, k);
        OnlyPage(w, b, q);
      }
    }
    SameSuppressed(w, b);
    TargetIs(w2, later, p, k);
  }

  /** The one new page. */
  lemma OnlyPage(w: World, b: Batch, q: Path)
    requires FirstRecord(w, b) && q in Sync(w, b).brain.pages
    ensures q == PathOf(b.records[0])
  {
    hide OutcomeOf, PlanOf, ApplyWrites, InputOf, KeyOf, PathOf, Lands, LastAt, OnePageEach, BindingSeen,
      PageText, Calm, CreatedPage, Shown, ToFront;
    FirstLands(w, b);
    var x := InputOf(w, b);
    ApplyAt(w.brain, PlanOf(x).writes, q);
    var v :| v in PlanOf(x).writes && v.path == q;
    var m := WriteOf(x, v);
    assert m == 0;
  }

  lemma TargetIs(w: World, b: Batch, p: Path, k: string)
    requires |b.records| == 1 && KeyOf(b.records[0]) == k != "" && w.ledger.suppressed == []
    requires forall q :: Claims(w.brain, q, k) <==> q == p
    ensures |InputOf(w, b).records| == 1 && Target(InputOf(w, b), 0) == Some(p)
  {
    hide Trim, ClaimedOf, Claims, Moved, Merged, PageByKey, IsRecordPath, UpdatedPage, CreatedPage,
      ReadPage, Unreserved;
    var x := InputOf(w, b);
    assert KeyOf(x.records[0]) == k && !SeenBefore(x.records, 0);
    Resolved(w.brain, k);
    assert Claims(w.brain, p, k);
  }

  // ---------- names and keys that do not read back ----------

  /** A column named "Full Name" is written on every sync: the reader does not know the name. */
  lemma FullNameNeverSettles(w: World, b: Batch, s: string)
    requires FirstRecord(w, b) && b.owned == ["Full Name"] && Trim(s) != ""
    requires "Full Name" in b.records[0].fields.at && b.records[0].fields.at["Full Name"] == Scalar(s)
    ensures !AtRest(w, b)
  {
    hide OutcomeOf, InputOf, FirstRecord, AtRest, CreatedPage, Shown, ToFront, LastAt, OnePageEach,
      BindingSeen, PathOf, Calm, Trim;
    FirstLands(w, b);
    ReadFirst(w, b);
    FullNameIs();
    LandsIsWrite(InputOf(w, b), 0);
    UnknownNameNeverSettles(w, b, 0, "Full Name");
  }

  lemma FullNameIs()
    ensures !Usable("Full Name")
  {
    assert "Full Name"[4] == ' ' && !IsWordChar(' ');
  }

  /** A NAME THAT STARTS WITH A FENCE LOSES THE KEY. A new page with a field under such a name ends its
      frontmatter there, before the key it is bound to, so it claims nothing and the identical sync
      asks about it. */
  lemma {:induction false} FencedRecord(w: World, b: Batch, n: nat)
    requires FirstRecord(w, b) && n < |b.records[0].fields.order|
    requires IsFence(b.records[0].fields.order[n]) && '\n' !in b.records[0].fields.order[n]
    requires TameUpTo(ToFront(b.records[0].fields), n)
    ensures KeyOf(b.records[0]) in PlanOf(InputOf(Sync(w, b), b)).needsDecision
    ensures !AtRest(w, b)
  {
    hide OutcomeOf, Sync, PlanOf, Claims, InputOf, KeyOf, Lands, BindingSeen, LastAt, OnePageEach, PathOf,
      Calm, Shown, CreatedPage, KeysAt, KeysOf, AtRest, Reread, IsFence, TameUpTo, ToFront;
    FirstLands(w, b);
    var r, x := b.records[0], InputOf(w, b);
    FencedKeys(r, w.brain.indexed, b.today, n);
    hide FirstRecord;
    ReadFirst(w, b);
    LandsIsWrite(x, 0);
    LastKeys(w, b, 0);
    forall q ensures !Claims(Sync(w, b).brain, q, KeyOf(r)) {
      if Claims(Sync(w, b).brain, q, KeyOf(r)) {
        ClaimedHere(Sync(w, b).brain, q, KeyOf(r));
        OnlyPage(w, b, q);
        ClaimedKey(Sync(w, b).brain, q, KeyOf(r));
      }
    }
    UnseenIsAsked(w, b, 0);
  }

  lemma ClaimedKey(brain: Brain, q: Path, k: string)
    requires Claims(brain, q, k)
    ensures q in brain.pages && KeysAt(brain, q) != []
  {
    hide KeysAt;
  }

  lemma {:induction false} FencedKeys(r: Record, indexed: Indexed, today: Day, n: nat)
    requires n < |r.fields.order| && IsFence(r.fields.order[n]) && '\n' !in r.fields.order[n]
    requires TameUpTo(ToFront(r.fields), n) && forall k :: k in r.fields.at ==> k !in RESERVED
    ensures KeysOf(indexed, Reread(CreatedPage(r, today))) == []
  {
    var page := CreatedPage(r, today);
    CreatedOrder(r, today, n);
    hide IsFence, Reread, CreatedPage, ToFront, TameEntry, Proper, SeenIn, RowValues;
    FenceName(page, n);
    forall k | k in {SOURCE_KEY, SOURCE_KEYS} ensures k !in Reread(page).fm.at {
      ReadFrontAt(page.fm, n, k);
      assert k !in page.fm.order[..n];
    }
  }

  lemma {:induction false} CreatedOrder(r: Record, today: Day, n: nat)
    requires n < |r.fields.order| && TameUpTo(ToFront(r.fields), n) && forall k :: k in r.fields.at ==> k !in RESERVED
    ensures var page := CreatedPage(r, today);
      && n < |page.fm.order| && page.fm.order[n] == r.fields.order[n] && TameUpTo(page.fm, n)
      && SOURCE_KEY !in page.fm.order[..n] && SOURCE_KEYS !in page.fm.order[..n]
      && (forall k :: k in page.fm.at ==> Proper(page.fm.at[k]))
  {
    hide Usable, Inert;
    var page := CreatedPage(r, today);
    assert page.fm.order[..n] == r.fields.order[..n];
    forall i | 0 <= i < n ensures TameEntry(page.fm.order[i], page.fm.at[page.fm.order[i]]) {
      var k := page.fm.order[i];
      assert k == r.fields.order[i] && k in r.fields.at;
      assert page.fm.at[k] == ToFront(r.fields).at[k];
    }
  }

  /** Two lines, and "Apt # 4": neither text comes back. */
  lemma TextsThatDoNotComeBack()
    ensures !ValueBack(Scalar("a\nb")) && !ValueBack(Scalar("Apt # 4"))
  {
    var a, c := "a\nb", "Apt # 4";
    BareIsTrimmed(a);
    BareIsTrimmed(c);
    assert IsLineEnd(a[1]);
    assert IsSpace(c[3]) && c[4] == '#' && IsSpace(c[5]);
  }

  /** KEYS THAT READ AS OTHERS. Cut at its first comment a key loses its closing quote and what follows, so
      "row # 5" and "row # 6" are both read back as the opening quote and "row"; and a key on two
      lines is read back as on one. */
  lemma {:induction false} KeysReadAsOthers(a: string, t: string)
    requires a != "" && t != "" && Words(a) && Words(t) && |a| + |t| < MAX_FIELD_VALUE_CHARS
    ensures ReadKeys(a + " # " + t) == ["\"" + a]
    ensures ReadKeys(a + "\n" + t) == [a + " " + t]
  {
    HashedKey(a, t);
    TwoLineKey(a, t);
  }

  lemma WordsAre(s: string)
    requires Words(s)
    ensures forall i :: 0 <= i < |s| ==> !IsSpace(s[i]) && !IsLineEnd(s[i])
    ensures '\n' !in s && '"' !in s && '\\' !in s && '#' !in s && '\'' !in s
  {
  }

  lemma {:induction false} EscapeNone(c: char, s: string)
    requires c !in s
    ensures EscapeChar(c, s) == s
  {
    if s != "" {
      EscapeNone(c, s[1..]);
      assert s == [s[0]] + s[1..];
    }
  }

  lemma {:induction false} HoldsLater(a: string, b: string, t: string)
    requires t <= b
    ensures Occurs(a + b, t)
  {
    if a == "" {
      assert a + b == b;
    } else {
      assert (a + b)[1..] == a[1..] + b;
      HoldsLater(a[1..], b, t);
    }
  }

  lemma {:induction false} BeforeJoin(x: string, y: string)
    requires (forall i :: 0 <= i < |x| ==> !IsSpace(x[i])) && CommentHere(y)
    ensures BeforeComment(x + y) == x
  {
    if x == "" {
      assert x + y == y;
    } else {
      assert (x + y)[1..] == x[1..] + y && (x + y)[0] == x[0];
      BeforeJoin(x[1..], y);
    }
  }

  /** Words with something plain between them. */
  predicate PlainChar(c: char) {
    !IsLineEnd(c) && c !in {'\n', '"', '\\'}
  }

  lemma WordsBetween(a: string, m: string, t: string)
    requires a != "" && t != "" && Words(a) && Words(t) && forall i :: 0 <= i < |m| ==> PlainChar(m[i])
    ensures var s := a + m + t; Texts.Bare(s) && forall i :: 0 <= i < |s| ==> PlainChar(s[i])
  {
    WordsAre(a);
    WordsAre(t);
    hide IsSpace, IsLineEnd, IsWordChar;
    var s := a + m + t;
    forall i | 0 <= i < |s| ensures PlainChar(s[i]) {
      assert s[i] == if i < |a| then a[i] else if i < |a| + |m| then m[i - |a|] else t[i - |a| - |m|];
    }
    assert s[0] == a[0] && s[|s| - 1] == t[|t| - 1];
  }

  lemma PlainText(s: string)
    requires Texts.Bare(s) && forall i :: 0 <= i < |s| ==> PlainChar(s[i])
    ensures FlatText(s) == s && Trim(s) == s && OnOneLine(s) && '"' !in s && '\\' !in s && '\n' !in s
  {
    hide IsSpace, IsLineEnd;
    assert '"' !in s && '\\' !in s && '\n' !in s && OnOneLine(s);
    BareIsTrimmed(s);
    FlatOfTrim(s);
  }

  lemma {:induction false} HashedText(a: string, t: string)
    requires a != "" && t != "" && Words(a) && Words(t)
    ensures var s := a + " # " + t;
      FlatText(s) == s && OnOneLine(s) && ScalarText(s) == "\"" + a + (" # " + t + "\"")
  {
    var s := a + " # " + t;
    WordsBetween(a, " # ", t);
    PlainText(s);
    MarkHeld(a, t);
    MarkNeedsQuotes(s);
    QuotedPlain(s);
    hide PlainChar, FlatText, Trim, Occurs, Words, OnOneLine, NeedsQuoting, Quoted, IsSpace;
    Enclosed("\"", a, " # ", t);
  }

  lemma MarkNeedsQuotes(s: string)
    requires Occurs(s, " #")
    ensures NeedsQuoting(s)
  {
    hide Occurs;
  }

  lemma QuotedPlain(s: string)
    requires '"' !in s && '\\' !in s
    ensures Quoted(s) == "\"" + s + "\""
  {
    EscapeNone('\\', s);
    EscapeNone('"', s);
    hide EscapeChar;
  }

  lemma Enclosed(q: string, a: string, m: string, t: string)
    ensures q + (a + m + t) + q == q + a + (m + t + q)
  {
  }

  lemma MarkHeld(a: string, t: string)
    ensures Occurs(a + " # " + t, " #")
  {
    assert a + " # " + t == a + (" # " + t) && " #" <= " # " + t;
    hide Occurs;
    HoldsLater(a, " # " + t, " #");
  }

  lemma {:induction false} HashedKey(a: string, t: string)
    requires a != "" && t != "" && Words(a) && Words(t) && |a| + |t| < MAX_FIELD_VALUE_CHARS
    ensures ReadKeys(a + " # " + t) == ["\"" + a]
  {
    var x, y := "\"" + a, " # " + t + "\"";
    HashedText(a, t);
    WordsAre(a);
    BeforeJoin(x, y);
    assert Texts.Bare(x) && x[|x| - 1] != '"';
    BareIsTrimmed(x);
    hide FlatText, ScalarText, BeforeComment, Trim, OnOneLine;
    assert StripQuotes(x) == x;
    OneValue(x);
  }

  lemma {:induction false} TwoLineFlat(a: string, t: string)
    requires a != "" && t != "" && Words(a) && Words(t)
    ensures var s := a + " " + t;
      FlatText(a + "\n" + t) == s == FlatText(s) && Trim(s) == s && OnOneLine(s) && NoComment(s)
  {
    var s := a + " " + t;
    WordsBetween(a, " ", t);
    PlainText(s);
    TwoLineSpace(a, t);
    NoHash(a, t);
    hide IsSpace, IsLineEnd, PlainChar, OneSpace, Words, OnOneLine, TrimStart, TrimEnd, NoComment;
  }

  lemma NoHash(a: string, t: string)
    requires Words(a) && Words(t)
    ensures NoComment(a + " " + t)
  {
    WordsAre(a);
    WordsAre(t);
    hide IsSpace;
    var s := a + " " + t;
    forall i | 0 <= i < |s| ensures s[i] != '#' {
      assert s[i] == if i < |a| then a[i] else if i < |a| + 1 then ' ' else t[i - |a| - 1];
    }
  }

  lemma {:induction false} TwoLineSpace(a: string, t: string)
    requires a != "" && t != "" && Words(a) && Words(t)
    ensures OneSpace(a + "\n" + t) == a + " " + t
  {
    WordsAre(a);
    WordsAre(t);
    OneSpaceFacts(a);
    OneSpaceFacts(t);
    NoReturn(a);
    hide OneSpace, IsSpace, IsLineEnd, Words;
    SameGrouping(a, "\n", t);
    SameGrouping(a, " ", t);
    OneSpaceAppend(a, "\n" + t);
    BreakThen(t);
  }

  lemma BreakThen(t: string)
    ensures OneSpace("\n" + t) == " " + OneSpace(t)
  {
    OneSpaceFirst("\n" + t);
    assert ("\n" + t)[1..] == t;
  }

  lemma NoReturn(a: string)
    requires a != "" && Words(a)
    ensures a[|a| - 1] != '\r'
  {
  }

  lemma {:induction false} TwoLineKey(a: string, t: string)
    requires a != "" && t != "" && Words(a) && Words(t) && |a| + |t| < MAX_FIELD_VALUE_CHARS
    ensures ReadKeys(a + "\n" + t) == [a + " " + t]
  {
    var s := a + " " + t;
    TwoLineFlat(a, t);
    hide FlatText, Trim, OnOneLine, NoComment;
    ReadKeysIs(s);
    hide StripQuotes, BeforeComment, NeedsQuoting, IndexedValues;
    assert ReadScalar(a + "\n" + t) == ReadScalar(s);
  }

  // ---------- answering a question ----------

  /** Whether the index will see a key aliased to this page: on one line and short enough for a row,
      with room for the list of aliases under the caps, among the first twenty of it, and in a list
      that reads as one. */
  predicate AliasSeen(page: Page, indexed: Indexed, k: string) {
    var list := Including(ListOf(Get(page.fm, SOURCE_KEYS)), k);
    && |k| <= MAX_FIELD_VALUE_CHARS && '\n' !in k && Room(page.fm, indexed, SOURCE_KEYS)
    && NoMapping(list) && k in Firsts(list, MAX_FIELD_LIST_ELEMENTS)
  }

  lemma {:induction false} AliasedFields(page: Page, k: string, today: Day)
    requires ParsedFront(page.fm)
    ensures var after, list := AliasedPage(page, [k], today), Including(ListOf(Get(page.fm, SOURCE_KEYS)), k);
      && TameFront(after.fm)
      && Get(after.fm, SOURCE_KEYS) == Some(Plain(List(list)))
      && Get(after.fm, SOURCE_KEY) == Get(page.fm, SOURCE_KEY)
  {
    ReservedKeysDiffer();
    AddedKey(ListOf(Get(page.fm, SOURCE_KEYS)), k);
    hide ListOf, Including, AddKeys, TameFront, ParsedFront;
    AliasedTame(page, k, today);
  }

  lemma AddedKey(list: seq<string>, k: string)
    ensures AddKeys(list, [k]) == Including(list, k)
  {
    assert [k][1..] == [];
  }

  lemma {:induction false} AliasedTame(page: Page, k: string, today: Day)
    requires ParsedFront(page.fm)
    ensures TameFront(AliasedPage(page, [k], today).fm)
  {
    ReservedUsable();
    ParsedIsTame(page.fm);
    hide TameFront, Usable, Inert, ParsedValue, ListOf, AddKeys, Set;
    var v := Plain(List(AddKeys(ListOf(Get(page.fm, SOURCE_KEYS)), [k])));
    TameSet(page.fm, SOURCE_KEYS, v);
    TameSet(Set(page.fm, SOURCE_KEYS, v), UPDATED, Plain(Scalar(today)));
  }

  lemma {:induction false} AliasedRoom(page: Page, k: string, indexed: Indexed, today: Day)
    requires ParsedFront(page.fm)
    ensures var after := AliasedPage(page, [k], today);
      && (Room(after.fm, indexed, SOURCE_KEYS) <==> Room(page.fm, indexed, SOURCE_KEYS))
      && (SOURCE_KEY in page.fm.at ==> (Room(after.fm, indexed, SOURCE_KEY) <==> Room(page.fm, indexed, SOURCE_KEY)))
  {
    ReservedKeysDiffer();
    ReservedUsable();
    DayShows(today);
    ParsedIsTame(page.fm);
    var v := Plain(List(AddKeys(ListOf(Get(page.fm, SOURCE_KEYS)), [k])));
    ListPresent(v.flat.items);
    hide Room, ParsedValue, Usable, ReadBack, AddKeys, ListOf, TameFront;
    var listed := Set(page.fm, SOURCE_KEYS, v);
    RoomSet(page.fm, SOURCE_KEYS, v, indexed, SOURCE_KEYS);
    RoomSet(listed, UPDATED, Plain(Scalar(today)), indexed, SOURCE_KEYS);
    if SOURCE_KEY in page.fm.at {
      RoomSet(page.fm, SOURCE_KEYS, v, indexed, SOURCE_KEY);
      RoomSet(listed, UPDATED, Plain(Scalar(today)), indexed, SOURCE_KEY);
    }
  }

  /** The key a page is bound to is seen as before, or not at all. */
  lemma {:induction false} AliasKeepsKey(page: Page, indexed: Indexed, k: string, today: Day)
    requires ParsedFront(page.fm)
    ensures FieldValues(Reread(AliasedPage(page, [k], today)), indexed, SOURCE_KEY) in {[], FieldValues(page, indexed, SOURCE_KEY)}
  {
    var after := AliasedPage(page, [k], today);
    AliasedFields(page, k, today);
    AliasedRoom(page, k, indexed, today);
    hide AliasedPage, Room, FieldValues, Reread, RowValues, Again, TameFront, ParsedValue, Usable, ReadBack;
    RereadValues(after, indexed, SOURCE_KEY);
    ParsedValues(page, indexed, SOURCE_KEY);
    if SOURCE_KEY in page.fm.at {
      ParsedReads(page.fm.at[SOURCE_KEY]);
      AgainRows(page.fm.at[SOURCE_KEY]);
    }
  }

  /** The aliases the index sees afterwards. */
  lemma {:induction false} AliasRows(page: Page, indexed: Indexed, k: string, today: Day)
    requires ParsedFront(page.fm)
    ensures var list := Including(ListOf(Get(page.fm, SOURCE_KEYS)), k);
      FieldValues(Reread(AliasedPage(page, [k], today)), indexed, SOURCE_KEYS)
      == if Room(page.fm, indexed, SOURCE_KEYS) && NoMapping(list) then IndexedValues(Firsts(FlatTexts(list), MAX_FIELD_LIST_ELEMENTS)) else []
  {
    var after := AliasedPage(page, [k], today);
    AliasedFields(page, k, today);
    AliasedRoom(page, k, indexed, today);
    ReservedUsable();
    ListRows(Including(ListOf(Get(page.fm, SOURCE_KEYS)), k));
    hide AliasedPage, Room, FieldValues, Reread, TameFront, ParsedFront, Usable, IndexedValues, Including,
      ListOf, ReadBack, RowValues, NoMapping, FlatTexts;
    RereadValues(after, indexed, SOURCE_KEYS);
  }

  lemma ListRows(list: seq<string>)
    ensures ReadBack(Plain(List(list))).Some?
    ensures RowValues(ReadBack(Plain(List(list))).value)
      == if NoMapping(list) then IndexedValues(Firsts(FlatTexts(list), MAX_FIELD_LIST_ELEMENTS)) else []
  {
  }

  /** A page that did not claim a key claims it once it is aliased there exactly when the index will
      see the alias. */
  lemma {:induction false} AliasBindsIff(page: Page, indexed: Indexed, k: string, today: Day)
    requires ParsedFront(page.fm) && Trim(k) == k && k != "" && k !in KeysOf(indexed, page)
    ensures k in KeysOf(indexed, Reread(AliasedPage(page, [k], today))) <==> AliasSeen(page, indexed, k)
  {
    hide Room, AliasedPage, Trim, IndexedValues, ListOf, Firsts, FieldValues, Reread, FlatText, NoMapping,
      ParsedFront, Cut;
    AliasKeepsKey(page, indexed, k, today);
    AliasRows(page, indexed, k, today);
    var list := Including(ListOf(Get(page.fm, SOURCE_KEYS)), k);
    if Room(page.fm, indexed, SOURCE_KEYS) && NoMapping(list) {
      AliasAmong(page, indexed, k);
    }
  }

  /** Of the first twenty aliases only the new one reads as the key. */
  lemma {:induction false} AliasAmong(page: Page, indexed: Indexed, k: string)
    requires ParsedFront(page.fm) && Trim(k) == k && k != "" && k !in FieldValues(page, indexed, SOURCE_KEYS)
    requires Room(page.fm, indexed, SOURCE_KEYS)
    ensures var list := Including(ListOf(Get(page.fm, SOURCE_KEYS)), k);
      k in IndexedValues(Firsts(FlatTexts(list), MAX_FIELD_LIST_ELEMENTS)) <==>
        (|k| <= MAX_FIELD_VALUE_CHARS && '\n' !in k && k in Firsts(list, MAX_FIELD_LIST_ELEMENTS))
  {
    hide Room, Trim, IndexedValues, ListOf, FieldValues, FlatText, ParsedFront, Cut;
    var list := Including(ListOf(Get(page.fm, SOURCE_KEYS)), k);
    var flats, firsts := Firsts(FlatTexts(list), MAX_FIELD_LIST_ELEMENTS), Firsts(list, MAX_FIELD_LIST_ELEMENTS);
    FlatFacts(k);
    FlatOfTrim(k);
    assert |flats| == |firsts| && forall i :: 0 <= i < |firsts| ==> flats[i] == FlatText(firsts[i]);
    IndexedMembers(flats);
    CutOf(k, k);
    if k in IndexedValues(flats) {
      var i :| 0 <= i < |flats| && Cut(Trim(flats[i])) == k;
      CutOf(Trim(flats[i]), k);
      if firsts[i] != k { OldAliasesStay(page, indexed, k, firsts[i]); }
      TrimChars(flats[i]);
      assert k in firsts;
    }
    if k in firsts && '\n' !in k && |k| <= MAX_FIELD_VALUE_CHARS {
      var i :| 0 <= i < |firsts| && firsts[i] == k;
      assert Cut(Trim(flats[i])) == k;
    }
  }

  lemma CutOf(t: string, k: string)
    ensures Cut(t) == k ==> k <= t && |k| <= MAX_FIELD_VALUE_CHARS
    ensures |t| <= MAX_FIELD_VALUE_CHARS ==> Cut(t) == t
  {
  }

  /** An alias that was listed before among the first is seen as before. */
  lemma {:induction false} OldAliasesStay(page: Page, indexed: Indexed, k: string, item: string)
    requires ParsedFront(page.fm) && Room(page.fm, indexed, SOURCE_KEYS)
    requires var list := Including(ListOf(Get(page.fm, SOURCE_KEYS)), k);
      item in Firsts(list, MAX_FIELD_LIST_ELEMENTS) && item != k && Cut(Trim(FlatText(item))) == k != ""
    ensures k in FieldValues(page, indexed, SOURCE_KEYS)
  {
    ParsedValues(page, indexed, SOURCE_KEYS);
    ParsedItems(page, item);
    FlatOfTrim(item);
    TrimTwice(item);
    TrimChars(item);
    hide FieldValues, Room, Trim, Cut, FlatText, RowValues, ListOf, ParsedFront, Firsts;
    assert Cut(Trim(item)) == k;
    OldAlias(ListOf(Get(page.fm, SOURCE_KEYS)), k, item);
    assert SOURCE_KEYS in page.fm.at by { ListedThere(page.fm, item); }
    RowsHold(page.fm.at[SOURCE_KEYS], item);
  }

  lemma ListedThere(fm: Front, item: string)
    requires item in Firsts(ListOf(Get(fm, SOURCE_KEYS)), MAX_FIELD_LIST_ELEMENTS)
    ensures SOURCE_KEYS in fm.at
  {
  }

  lemma OldAlias(list: seq<string>, k: string, item: string)
    requires item in Firsts(Including(list, k), MAX_FIELD_LIST_ELEMENTS) && item != k
    ensures item in Firsts(list, MAX_FIELD_LIST_ELEMENTS) && item in list
  {
  }

  /** The index has a row for each of the first items that is not blank. */
  lemma {:induction false} RowsHold(v: Value, item: string)
    requires item in Firsts(ListOf(Some(v)), MAX_FIELD_LIST_ELEMENTS)
    ensures Cut(Trim(item)) != "" ==> Cut(Trim(item)) in RowValues(v)
  {
    hide Trim, Cut, IndexedValues;
    match v
    case Plain(Scalar(t)) =>
      IndexedMembers([t]);
      assert [t][0] == item;
    case Plain(List(items)) =>
      var firsts := Firsts(items, MAX_FIELD_LIST_ELEMENTS);
      IndexedMembers(firsts);
      var i :| 0 <= i < |firsts| && firsts[i] == item;
    case _ =>
  }

  lemma ParsedItems(page: Page, item: string)
    requires ParsedFront(page.fm) && item in ListOf(Get(page.fm, SOURCE_KEYS))
    ensures '\n' !in item
  {
    hide Usable, NoComment, Proper;
  }

  lemma {:induction false} PageAtPath(cs: seq<ClaimedPage>, p: Path)
    ensures PageByPath(cs, p).Some? <==> exists c :: c in cs && c.path == p
    ensures PageByPath(cs, p).Some? ==> PageByPath(cs, p).value in cs && PageByPath(cs, p).value.path == p
    decreases |cs|
  {
    if cs != [] {
      PageAtPath(cs[..|cs| - 1], p);
      assert cs == cs[..|cs| - 1] + [cs[|cs| - 1]];
    }
  }

  lemma {:induction false} ResolvesToClaimer(cs: seq<ClaimedPage>, k: string)
    ensures PageByKey(cs, k).Some? ==> PageByKey(cs, k).value in cs && k in PageByKey(cs, k).value.keys
    decreases |cs|
  {
    if cs != [] && k !in cs[|cs| - 1].keys { ResolvesToClaimer(cs[..|cs| - 1], k); }
  }

  lemma FetchedMembers(brain: Brain)
    ensures forall c :: c in FetchedFor(brain) ==> c.path in brain.pages && c == ClaimedPage(c.path, KeysAt(brain, c.path), brain.pages[c.path])
    ensures forall p :: p in brain.pages ==> ClaimedPage(p, KeysAt(brain, p), brain.pages[p]) in FetchedFor(brain)
  {
    hide KeysAt;
    var ps := Ascending(brain.pages.Keys);
    forall p | p in brain.pages ensures ClaimedPage(p, KeysAt(brain, p), brain.pages[p]) in FetchedFor(brain) {
      assert p in ps;
      var i :| 0 <= i < |ps| && ps[i] == p;
      assert FetchedFor(brain)[i].path == p;
    }
  }

  lemma FetchedClaimer(brain: Brain, k: string)
    ensures PageByKey(FetchedFor(brain), k).Some? ==> exists p :: Claims(brain, p, k)
  {
    hide KeysAt, FetchedFor;
    FetchedMembers(brain);
    ResolvesToClaimer(FetchedFor(brain), k);
    if PageByKey(FetchedFor(brain), k).Some? {
      assert Claims(brain, PageByKey(FetchedFor(brain), k).value.path, k);
    }
  }

  function Start(w: World): Resolution {
    Resolution(w.ledger.imported, w.ledger.suppressed, [], map[], {}, [])
  }

  lemma OneResolved(w: World, d: Decision)
    ensures Decided(w, [d]) == Resolve1(Start(w), d, FetchedFor(w.brain))
  {
    hide Resolve1, FetchedFor;
    assert [d][..|[d]| - 1] == [];
    assert ResolveAll(Start(w), [], FetchedFor(w.brain)) == Start(w);
  }

  /** What one decision comes to for a key no page claims. */
  lemma OneDecision(w: World, d: Decision, k: string)
    requires Trim(d.key) == k && k != "" && (forall p :: !Claims(w.brain, p, k))
    ensures var s, s0 := Decided(w, [d]), Start(w);
      var p := if d.Alias? then DropSlashes(Trim(d.aliasTo)) else "";
      match d
      case Suppress(_) => s.applied == {k} && k in s.suppressed && s == s0.(applied := {k}, suppressed := s.suppressed)
      case Recreate(_) => s.applied == {k} && k !in s.imported && s.deletes == [] && s.aliases == map[]
      case Delete(_) => s == s0.(refused := [k])
      case Alias(_, _) =>
        if p !in w.brain.pages then s == s0.(refused := [k])
        else s.applied == {k} && s.aliases == map[p := [k]] && s.deletes == []
  {
    hide KeysAt, Ascending, FetchedFor, Trim, DropSlashes;
    OneResolved(w, d);
    hide Decided;
    FetchedMembers(w.brain);
    FetchedClaimer(w.brain, k);
    hide PageByKey;
    WithoutMembers(w.ledger.imported, k);
    assert [] + [k] == [k];
    if d.Alias? { PageAtPath(FetchedFor(w.brain), DropSlashes(Trim(d.aliasTo))); }
  }

  /** With nothing aliased and nothing deleted the brain is as it was. */
  lemma BrainKept(w: World, ds: seq<Decision>, today: Day)
    requires Decided(w, ds).aliases == map[] && Decided(w, ds).deletes == []
    ensures ResolveCall(w, ds, today).brain == w.brain
  {
    hide Decided, AliasedPage, StillPending, ReadPage, PageText;
  }

  /** Who claims the key once it is aliased to p: p, when the index sees the alias. */
  lemma AliasClaims(w: World, d: Decision, today: Day, p: Path, k: string, q: Path)
    requires Decided(w, [d]).aliases == map[p := [k]] && Decided(w, [d]).deletes == []
    requires p in w.brain.pages && Trim(k) == k && k != ""
    requires !Claims(w.brain, p, k) && !Claims(w.brain, q, k)
    ensures Claims(ResolveCall(w, [d], today).brain, q, k) <==> q == p && AliasSeen(ReadPage(w.brain.pages[p]), w.brain.indexed, k)
  {
    hide Decided, AliasedPage, StillPending, KeysOf, Trim, AliasSeen, ReadPage, PageText, ParsedFront;
    ReadPageParsed(w.brain.pages[p]);
    AliasBindsIff(ReadPage(w.brain.pages[p]), w.brain.indexed, k, today);
  }

  /** The page an alias names. */
  function AliasTarget(d: Decision): Path
    requires d.Alias?
  {
    DropSlashes(Trim(d.aliasTo))
  }

  /** AN ANSWER ENDS THE QUESTION, for a key a sync asks about. One decision either is applied, and
      then its questions are gone and no later sync of the same batch asks again, unless it is
      an alias that the index does not see; or it is refused, and then the next sync asks just
      as before. Deleting is always refused here, since no page holds the key; an alias
      exactly when its page is missing. */
  lemma AnswerEndsTheQuestion(w: World, b: Batch, i: nat, d: Decision, today: Day)
    requires i < |b.records| && OutcomeOf(InputOf(w, b), i).Asks? && Trim(d.key) == KeyOf(b.records[i])
    ensures var k, w2 := KeyOf(b.records[i]), ResolveCall(w, [d], today);
      && (OutcomeOf(InputOf(w2, b), i).Asks? <==>
            || k !in Decided(w, [d]).applied
            || (d.Alias? && AliasTarget(d) in w.brain.pages && !AliasSeen(ReadPage(w.brain.pages[AliasTarget(d)]), w.brain.indexed, k)))
      && (k in Decided(w, [d]).applied <==> d.Suppress? || d.Recreate? || (d.Alias? && AliasTarget(d) in w.brain.pages))
      && (k in Decided(w, [d]).applied ==> forall q :: q in w2.ledger.pending ==> q.key != k)
  {
    hide KeysAt, Trim, ClaimedOf, StillPending, Moved, Merged, IsRecordPath, Decided, ResolveCall, Claims, DropSlashes, EndsWithMd,
      AliasSeen, ReadPage, Unreserved, CreatedPage, AdoptedPage, UpdatedPage, PageByKey;
    var k, w2 := KeyOf(b.records[i]), ResolveCall(w, [d], today);
    var x, x2 := InputOf(w, b), InputOf(w2, b);
    assert KeyOf(x.records[i]) == k && x2.records == x.records;
    Resolved(w.brain, k);
    Resolved(w2.brain, k);
    OneDecision(w, d, k);
    TrimTwice(b.records[i].key);
    if d.Alias? && AliasTarget(d) in w.brain.pages {
      forall q ensures Claims(w2.brain, q, k) <==> q == AliasTarget(d) && AliasSeen(ReadPage(w.brain.pages[AliasTarget(d)]), w.brain.indexed, k) {
        AliasClaims(w, d, today, AliasTarget(d), k, q);
      }
      assert Claims(w2.brain, AliasTarget(d), k) <==> AliasSeen(ReadPage(w.brain.pages[AliasTarget(d)]), w.brain.indexed, k);
      AliasImports(w, d, today, k);
    } else {
      BrainKept(w, [d], today);
    }
    LedgerAfterCall(w, [d], today);
    assert Decided(w, [d]).applied == {} ==> w2.brain == w.brain && Decided(w, [d]) == Start(w).(refused := [k]);
    if k in Decided(w, [d]).applied { PendingAnswered(w, [d], today, k); }
  }

  /** An alias that is applied leaves the key imported, and suppresses nothing. */
  lemma AliasImports(w: World, d: Decision, today: Day, k: string)
    requires d.Alias? && Trim(d.key) == k && k != "" && k in w.ledger.imported
    ensures k in Decided(w, [d]).imported && Decided(w, [d]).suppressed == w.ledger.suppressed
  {
    hide FetchedFor, PageByKey, PageByPath, Trim, DropSlashes;
    OneResolved(w, d);
  }

  lemma LedgerAfterCall(w: World, ds: seq<Decision>, today: Day)
    ensures ResolveCall(w, ds, today).ledger.imported == Decided(w, ds).imported
    ensures ResolveCall(w, ds, today).ledger.suppressed == Decided(w, ds).suppressed
  {
    hide Decided, AliasedPage, StillPending, ReadPage, PageText;
  }

  lemma PendingAnswered(w: World, ds: seq<Decision>, today: Day, k: string)
    requires k in Decided(w, ds).applied
    ensures forall q :: q in ResolveCall(w, ds, today).ledger.pending ==> q.key != k
  {
    hide Decided, AliasedPage, ReadPage, PageText;
    StillPendingMembers(w.ledger.pending, Decided(w, ds).applied);
  }

  lemma {:induction false} StillPendingMembers(qs: seq<Question>, applied: set<string>)
    ensures forall q :: q in StillPending(qs, applied) <==> q in qs && q.key !in applied
  {
    if qs != [] {
      StillPendingMembers(qs[1..], applied);
      assert forall q :: q in qs <==> q == qs[0] || q in qs[1..];
    }
  }
}
