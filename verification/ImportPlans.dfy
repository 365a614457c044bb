/** The plan of a sync, record by record and list by list, in terms of the brain. */
module ImportPlans {
  // plan (src/lib/brain-import.ts) is one pass over the records. Here is what each record comes to and
  // when, what stands in each list and in what order, what a planned page says field by field, what
  // the ledger remembers afterwards and which questions it holds.

  import opened Options
  import opened Paths
  import opened Texts
  import opened Frontmatter
  import opened FrontmatterPages
  import opened ImportPlanner
  import opened ImportClaims
  import opened ImportRuns

  // ---------- what one record comes to ----------

  lemma ResolvedHolds(brain: Brain, k: string)
    ensures var c := PageByKey(ClaimedOf(brain), k);
      && (c.None? <==> forall p :: !Claims(brain, p, k))
      && (forall p :: Holds(brain, p, k) <==> c.Some? && c.value.path == p)
      && (c.Some? ==> c.value.path in brain.pages && c.value.text == brain.pages[c.value.path])
  {
    hide Less, KeysAt, PageByKey, ClaimedOf;
    Resolved(brain, k);
    var c := PageByKey(ClaimedOf(brain), k);
    if c.Some? {
      assert Holds(brain, c.value.path, k);
      forall p | Holds(brain, p, k) ensures p == c.value.path {
        if p != c.value.path { LessAsymmetric(p, c.value.path); }
      }
    }
  }

  /** The record's key, which is not blank, comes here for the first time and was not suppressed. */
  predicate Speaks(w: World, b: Batch, i: nat)
    requires i < |b.records|
  {
    var k := KeyOf(b.records[i]);
    k != "" && !SeenBefore(b.records, i) && k !in w.ledger.suppressed
  }

  /** The record is new: no page claims its key and the ledger never had it. */
  ghost predicate IsNew(w: World, b: Batch, i: nat)
    requires i < |b.records|
  {
    Speaks(w, b, i) && KeyOf(b.records[i]) !in w.ledger.imported && forall p :: !Claims(w.brain, p, KeyOf(b.records[i]))
  }

  predicate Pathed(r: Record) {
    r.path.Some? && EndsWithMd(Trim(r.path.value))
  }

  /** The record is new and names a page. */
  ghost predicate Arrives(w: World, b: Batch, i: nat)
    requires i < |b.records|
    ensures Arrives(w, b, i) ==> b.records[i].path.Some?
  {
    IsNew(w, b, i) && Pathed(b.records[i])
  }

  predicate ClaimedAt(brain: Brain, p: Path) {
    p in brain.pages && KeysAt(brain, p) != []
  }

  predicate UnclaimedAt(brain: Brain, p: Path) {
    p in brain.pages && KeysAt(brain, p) == []
  }

  /** The source-owned fields in which the record differs from a page. */
  function Differs(w: World, b: Batch, i: nat, p: Path): set<string>
    requires i < |b.records| && p in w.brain.pages
  {
    Moved(ReadPage(w.brain.pages[p]).fm, CleanRecord(b.records[i]).fields, b.owned)
  }

  lemma RecordOf(w: World, b: Batch, i: nat)
    requires i < |b.records|
    ensures var x := InputOf(w, b);
      && |x.records| == |b.records| && x.records[i] == CleanRecord(b.records[i])
      && KeyOf(x.records[i]) == KeyOf(b.records[i]) && x.records[i].path == b.records[i].path
      && (SeenBefore(x.records, i) <==> SeenBefore(b.records, i))
  {
    hide Trim, ClaimedOf, IsRecordPath, KeysAt, Unreserved;
    assert forall j :: 0 <= j < |b.records| ==> KeyOf(InputOf(w, b).records[j]) == KeyOf(b.records[j]);
  }

  /** What the update of a page that holds the key writes. */
  function UpdateOf(w: World, b: Batch, i: nat, p: Path): PlannedWrite
    requires i < |b.records| && p in w.brain.pages
  {
    PlannedWrite(KeyOf(b.records[i]), p, Update,
      UpdatedPage(ReadPage(w.brain.pages[p]), CleanRecord(b.records[i]), b.owned, b.today), Differs(w, b, i, p))
  }

  /** What binding an unclaimed page writes. */
  function AdoptOf(w: World, b: Batch, i: nat, p: Path): PlannedWrite
    requires i < |b.records| && p in w.brain.pages
  {
    PlannedWrite(KeyOf(b.records[i]), p, Adopt,
      AdoptedPage(ReadPage(w.brain.pages[p]), CleanRecord(b.records[i]), b.owned, b.today), Differs(w, b, i, p) + {SOURCE_KEY})
  }

  function CreateOf(b: Batch, i: nat, p: Path): PlannedWrite
    requires i < |b.records|
  {
    var r := CleanRecord(b.records[i]);
    PlannedWrite(KeyOf(b.records[i]), p, Create, CreatedPage(r, b.today), r.fields.at.Keys)
  }

  lemma Alone(x: Input, i: nat)
    requires i < |x.records|
    ensures var o, k := OutcomeOf(x, i), KeyOf(x.records[i]);
      && (o == Fails(EmptyKey) <==> k == "")
      && (o == Fails(DuplicateKey) <==> k != "" && SeenBefore(x.records, i))
      && (o == Suppressed <==> k != "" && k in x.ledger.suppressed && !SeenBefore(x.records, i))
  {
    hide KeyOf, PageByKey, Moved, ReadPage, CreatedPage, UpdatedPage, AdoptedPage, Trim, PathOf, EndsWithMd, IsClaimedPath, SeenBefore;
  }

  lemma OutcomeAlone(w: World, b: Batch, i: nat)
    requires i < |b.records|
    ensures var o, k := OutcomeOf(InputOf(w, b), i), KeyOf(b.records[i]);
      && (o == Fails(EmptyKey) <==> k == "")
      && (o == Fails(DuplicateKey) <==> k != "" && SeenBefore(b.records, i))
      && (o == Suppressed <==> k != "" && k in w.ledger.suppressed && !SeenBefore(b.records, i))
  {
    RecordOf(w, b, i);
    Alone(InputOf(w, b), i);
    hide KeyOf, ClaimedOf, IsRecordPath, KeysAt, Unreserved, OutcomeOf, SeenBefore;
  }

  /** A record whose key some page claims: the page that holds it is left alone when it differs in no
      source-owned field, and otherwise updated. */
  lemma OutcomeHeld(w: World, b: Batch, i: nat, p: Path)
    requires i < |b.records| && Holds(w.brain, p, KeyOf(b.records[i])) && Speaks(w, b, i)
    ensures OutcomeOf(InputOf(w, b), i)
      == if Differs(w, b, i, p) == {} then Unchanged else Writes(UpdateOf(w, b, i, p))
  {
    RecordOf(w, b, i);
    ResolvedHolds(w.brain, KeyOf(b.records[i]));
    hide KeyOf, ClaimedOf, PageByKey, IsRecordPath, KeysAt, Unreserved, Moved, ReadPage, CreatedPage, UpdatedPage, AdoptedPage, Trim,
      PathOf, EndsWithMd, IsClaimedPath, Holds, Claims, SeenBefore;
  }

  lemma Nobody(x: Input, i: nat)
    requires i < |x.records| && KeyOf(x.records[i]) != "" && !SeenBefore(x.records, i) && KeyOf(x.records[i]) !in x.ledger.suppressed
    requires PageByKey(x.claimed, KeyOf(x.records[i])) == None
    ensures OutcomeOf(x, i).Asks? <==> KeyOf(x.records[i]) in x.ledger.imported
    ensures OutcomeOf(x, i) == Fails(NoPath) <==> KeyOf(x.records[i]) !in x.ledger.imported && !Pathed(x.records[i])
    ensures !(OutcomeOf(x, i).Unchanged? || (OutcomeOf(x, i).Writes? && OutcomeOf(x, i).write.kind.Update?))
  {
    hide KeyOf, PageByKey, Moved, ReadPage, CreatedPage, UpdatedPage, AdoptedPage, Trim, PathOf, EndsWithMd, IsClaimedPath, SeenBefore;
  }

  lemma OutcomeAsked(w: World, b: Batch, i: nat)
    requires i < |b.records| && Speaks(w, b, i) && forall p :: !Claims(w.brain, p, KeyOf(b.records[i]))
    ensures var o := OutcomeOf(InputOf(w, b), i);
      && (o.Asks? <==> KeyOf(b.records[i]) in w.ledger.imported)
      && (o == Fails(NoPath) <==> KeyOf(b.records[i]) !in w.ledger.imported && !Pathed(b.records[i]))
      && !(o.Unchanged? || (o.Writes? && o.write.kind.Update?))
  {
    RecordOf(w, b, i);
    ResolvedHolds(w.brain, KeyOf(b.records[i]));
    Nobody(InputOf(w, b), i);
    hide KeyOf, ClaimedOf, PageByKey, IsRecordPath, KeysAt, Unreserved, OutcomeOf, Trim, EndsWithMd, Claims, SeenBefore;
  }

  lemma Arriving(x: Input, i: nat)
    requires i < |x.records| && KeyOf(x.records[i]) != "" && !SeenBefore(x.records, i) && KeyOf(x.records[i]) !in x.ledger.suppressed
    requires KeyOf(x.records[i]) !in x.ledger.imported && PageByKey(x.claimed, KeyOf(x.records[i])) == None && Pathed(x.records[i])
    ensures var o, r, p := OutcomeOf(x, i), x.records[i], PathOf(x.records[i]);
      if IsClaimedPath(x.claimed, p) then o == Fails(BoundElsewhere)
      else if x.adoptable.Some? && p in x.adoptable.value then
        var page := ReadPage(x.adoptable.value[p]);
        o == Writes(PlannedWrite(KeyOf(r), p, Adopt, AdoptedPage(page, r, x.owned, x.today), Moved(page.fm, r.fields, x.owned) + {SOURCE_KEY}))
      else if x.existing.Some? && p in x.existing.value then o == Fails(PathTaken)
      else o == Writes(PlannedWrite(KeyOf(r), p, Create, CreatedPage(r, x.today), r.fields.at.Keys))
  {
    hide KeyOf, PageByKey, Moved, ReadPage, CreatedPage, UpdatedPage, AdoptedPage, Trim, DropSlashes, EndsWithMd, IsClaimedPath, SeenBefore;
  }

  /** What the call fetches of the page at a path. */
  lemma FetchedAtPath(w: World, b: Batch, i: nat)
    requires i < |b.records| && b.records[i].path.Some?
    ensures var x, p := InputOf(w, b), PathOf(b.records[i]);
      && (IsClaimedPath(x.claimed, p) <==> ClaimedAt(w.brain, p))
      && x.existing == Some(w.brain.pages.Keys)
      && (x.adoptable.Some? <==> b.adopt)
      && (b.adopt ==> (p in x.adoptable.value <==> UnclaimedAt(w.brain, p)))
      && (b.adopt && UnclaimedAt(w.brain, p) ==> x.adoptable.value[p] == w.brain.pages[p])
      && x.owned == b.owned && x.today == b.today && x.ledger == w.ledger
  {
    ClaimedOfMembers(w.brain);
    hide ClaimedOf, KeysAt, Unreserved, Trim, DropSlashes;
    assert IsRecordPath(b.records, PathOf(b.records[i]));
  }

  /** A new record with a path: a page is made where there is none; a page that is there is bound
      only when it claims nothing and the call adopts, and is otherwise never touched. */
  lemma OutcomeNew(w: World, b: Batch, i: nat)
    requires i < |b.records| && Arrives(w, b, i)
    ensures var o, p := OutcomeOf(InputOf(w, b), i), PathOf(b.records[i]);
      o == if p !in w.brain.pages then Writes(CreateOf(b, i, p))
        else if ClaimedAt(w.brain, p) then Fails(BoundElsewhere)
        else if b.adopt then Writes(AdoptOf(w, b, i, p))
        else Fails(PathTaken)
  {
    RecordOf(w, b, i);
    ResolvedHolds(w.brain, KeyOf(b.records[i]));
    FetchedAtPath(w, b, i);
    hide KeyOf, ClaimedOf, PageByKey, KeysAt, Unreserved, Moved, ReadPage, CreatedPage, UpdatedPage, AdoptedPage, Trim,
      DropSlashes, EndsWithMd, IsClaimedPath, IsRecordPath, Claims, SeenBefore, Holds, InputOf, CleanRecord, OutcomeOf;
    Arriving(InputOf(w, b), i);
  }

  /** Some page holds the record's key and has the source-owned fields it sends, or has not. */
  ghost predicate HeldAlike(w: World, b: Batch, i: nat, alike: bool)
    requires i < |b.records|
  {
    exists p :: Holds(w.brain, p, KeyOf(b.records[i])) && (Differs(w, b, i, p) == {} <==> alike)
  }

  /** WHAT EACH RECORD COMES TO. Exactly one thing, by its key, the page that holds the key, the ledger and
      the page at its path. */
  lemma OutcomeIs(w: World, b: Batch, i: nat)
    requires i < |b.records|
    ensures var o, k := OutcomeOf(InputOf(w, b), i), KeyOf(b.records[i]);
      && (o == Fails(EmptyKey) <==> k == "")
      && (o == Fails(DuplicateKey) <==> k != "" && SeenBefore(b.records, i))
      && (o == Suppressed <==> k != "" && k in w.ledger.suppressed && !SeenBefore(b.records, i))
      && (o == Unchanged <==> Speaks(w, b, i) && HeldAlike(w, b, i, true))
      && (o.Writes? && o.write.kind.Update? <==> Speaks(w, b, i) && HeldAlike(w, b, i, false))
      && (o.Asks? <==> Speaks(w, b, i) && k in w.ledger.imported && forall p :: !Claims(w.brain, p, k))
      && (o == Fails(NoPath) <==> IsNew(w, b, i) && !Pathed(b.records[i]))
      && (o == Fails(BoundElsewhere) <==> Arrives(w, b, i) && ClaimedAt(w.brain, PathOf(b.records[i])))
      && (o == Fails(PathTaken) <==> Arrives(w, b, i) && !b.adopt && UnclaimedAt(w.brain, PathOf(b.records[i])))
      && (o.Writes? && o.write.kind.Adopt? <==> Arrives(w, b, i) && b.adopt && UnclaimedAt(w.brain, PathOf(b.records[i])))
      && (o.Writes? && o.write.kind.Create? <==> Arrives(w, b, i) && PathOf(b.records[i]) !in w.brain.pages)
  {
    var k := KeyOf(b.records[i]);
    OutcomeAlone(w, b, i);
    HeldOrNot(w.brain, k);
    if Speaks(w, b, i) {
      if p :| Holds(w.brain, p, k) {
        OutcomeHeld(w, b, i, p);
        HeldOnce(w.brain, k, p);
      } else {
        OutcomeAsked(w, b, i);
        if Arrives(w, b, i) { OutcomeNew(w, b, i); }
      }
    }
    hide OutcomeOf, InputOf, UpdatedPage, AdoptedPage, CreatedPage, KeyOf, Claims, Holds, KeysAt, PathOf, Differs, Pathed, CleanRecord, SeenBefore, ClaimedAt, UnclaimedAt;
  }

  /** What a planned write is, by its kind. */
  lemma WriteIs(w: World, b: Batch, i: nat, pw: PlannedWrite)
    requires i < |b.records| && OutcomeOf(InputOf(w, b), i) == Writes(pw)
    ensures pw.kind.Update? ==> Holds(w.brain, pw.path, KeyOf(b.records[i])) && pw == UpdateOf(w, b, i, pw.path)
    ensures pw.kind.Adopt? ==> Arrives(w, b, i) && pw.path == PathOf(b.records[i]) && pw.path in w.brain.pages && pw == AdoptOf(w, b, i, pw.path)
    ensures pw.kind.Create? ==> Arrives(w, b, i) && pw.path == PathOf(b.records[i]) && pw.path !in w.brain.pages && pw == CreateOf(b, i, pw.path)
  {
    OutcomeIs(w, b, i);
    if pw.kind.Update? {
      var p :| Holds(w.brain, p, KeyOf(b.records[i]));
      OutcomeHeld(w, b, i, p);
    } else {
      OutcomeNew(w, b, i);
    }
    hide OutcomeOf, InputOf, UpdatedPage, AdoptedPage, CreatedPage, KeyOf, Claims, Holds, KeysAt, PathOf, Differs, Pathed, CleanRecord,
      SeenBefore, ClaimedAt, UnclaimedAt;
  }

  lemma HeldOrNot(brain: Brain, k: string)
    ensures (exists p :: Claims(brain, p, k)) <==> exists p :: Holds(brain, p, k)
  {
    ResolvedHolds(brain, k);
    hide ClaimedOf, PageByKey, Claims, Holds;
    var c := PageByKey(ClaimedOf(brain), k);
    if c.Some? {
      assert Holds(brain, c.value.path, k);
    }
  }

  lemma HeldOnce(brain: Brain, k: string, p: Path)
    requires Holds(brain, p, k)
    ensures p in brain.pages && Claims(brain, p, k) && forall q :: Holds(brain, q, k) ==> q == p
  {
    ResolvedHolds(brain, k);
  }

  // ---------- what a planned page says ----------

  /** WHAT A PLANNED PAGE SAYS, field by field: the day of the call; the key, on a page that is new or
      newly bound; the source-owned fields that differed, as they were sent; and for the rest, and
      in the body, what the page said, or on a new page what was sent. */
  lemma WriteSays(w: World, b: Batch, i: nat, pw: PlannedWrite, k: string)
    requires i < |b.records| && OutcomeOf(InputOf(w, b), i) == Writes(pw)
    ensures var r := CleanRecord(b.records[i]);
      Get(pw.page.fm, k) ==
        if k == UPDATED then Some(Plain(Scalar(b.today)))
        else if pw.kind.Create? then
          (if k == SOURCE_KEY then Some(Plain(Scalar(r.key))) else if k in r.fields.at then Some(Plain(r.fields.at[k])) else None)
        else if pw.kind.Adopt? && k == SOURCE_KEY then Some(Plain(Scalar(KeyOf(r))))
        else if pw.path !in w.brain.pages then None
        else if k in Differs(w, b, i, pw.path) then Some(Plain(r.fields.at[k]))
        else Get(ReadPage(w.brain.pages[pw.path]).fm, k)
    ensures pw.kind.Create? ==> pw.page.body == (if b.records[i].body.Some? then b.records[i].body.value else "")
    ensures !pw.kind.Create? ==> pw.path in w.brain.pages && pw.page.body == ReadPage(w.brain.pages[pw.path]).body
  {
    WriteIs(w, b, i, pw);
    if pw.kind.Update? { HeldOnce(w.brain, KeyOf(b.records[i]), pw.path); }
    hide OutcomeOf, InputOf, Holds, Arrives, Claims, KeyOf, PathOf, CleanRecord, Moved, CreatedPage, UpdatedPage, AdoptedPage, ReadPage;
    var r := CleanRecord(b.records[i]);
    CreatedSays(r, b.today, k);
    if !pw.kind.Create? { BoundSays(ReadPage(w.brain.pages[pw.path]), r, b.owned, b.today, k); }
    assert r.body == b.records[i].body by { BodySent(b.records[i]); }
  }

  lemma BodySent(r: Record)
    ensures CleanRecord(r).body == r.body
  {
  }

  lemma CreatedSays(r: Record, today: Day, k: string)
    ensures Get(CreatedPage(r, today).fm, k)
      == if k == UPDATED then Some(Plain(Scalar(today))) else if k == SOURCE_KEY then Some(Plain(Scalar(r.key)))
         else if k in r.fields.at then Some(Plain(r.fields.at[k])) else None
    ensures CreatedPage(r, today).body == if r.body.Some? then r.body.value else ""
  {
    ReservedKeysDiffer();
  }

  lemma BoundSays(page: Page, r: Record, owned: seq<string>, today: Day, k: string)
    ensures var u, a, moved := UpdatedPage(page, r, owned, today), AdoptedPage(page, r, owned, today), Moved(page.fm, r.fields, owned);
      var merged := if k in moved then Some(Plain(r.fields.at[k])) else Get(page.fm, k);
      && u.body == page.body && a.body == page.body
      && Get(u.fm, k) == (if k == UPDATED then Some(Plain(Scalar(today))) else merged)
      && Get(a.fm, k) == (if k == UPDATED then Some(Plain(Scalar(today))) else if k == SOURCE_KEY then Some(Plain(Scalar(KeyOf(r)))) else merged)
  {
    ReservedKeysDiffer();
    hide Merged, Moved, Trim;
    MergedAt(page.fm, r.fields, owned, k);
  }

  /** IN WHICH ORDER. A new page lists the fields as they were sent, less the importer's own, and then the key
      and the day; a page that was there keeps its fields in their places, and what is new goes behind. */
  lemma WriteOrder(w: World, b: Batch, i: nat, pw: PlannedWrite)
    requires i < |b.records| && OutcomeOf(InputOf(w, b), i) == Writes(pw)
    ensures pw.kind.Create? ==> exists sent :: pw.page.fm.order == sent + [SOURCE_KEY, UPDATED] && SentOrder(sent, b.records[i].fields.order)
    ensures !pw.kind.Create? ==> pw.path in w.brain.pages && ReadPage(w.brain.pages[pw.path]).fm.order <= pw.page.fm.order
  {
    WriteIs(w, b, i, pw);
    if pw.kind.Update? { HeldOnce(w.brain, KeyOf(b.records[i]), pw.path); }
    hide *;
    if pw.kind.Create? {
      CreateOrder(b, i, pw.path);
    } else if pw.kind.Update? {
      UpdateOrder(w, b, i, pw.path);
    } else {
      AdoptOrder(w, b, i, pw.path);
    }
  }

  lemma CreateOrder(b: Batch, i: nat, p: Path)
    requires i < |b.records|
    ensures exists sent :: CreateOf(b, i, p).page.fm.order == sent + [SOURCE_KEY, UPDATED] && SentOrder(sent, b.records[i].fields.order)
  {
    var r := CleanRecord(b.records[i]);
    hide Trim, PlaceOf;
    ReservedKeysDiffer();
    KeptInOrder(b.records[i].fields.order);
    assert SOURCE_KEY !in r.fields.order && UPDATED !in r.fields.order;
    assert r.fields.order + [SOURCE_KEY] + [UPDATED] == r.fields.order + [SOURCE_KEY, UPDATED];
  }

  lemma UpdateOrder(w: World, b: Batch, i: nat, p: Path)
    requires i < |b.records| && p in w.brain.pages
    ensures ReadPage(w.brain.pages[p]).fm.order <= UpdateOf(w, b, i, p).page.fm.order
  {
    hide ReadPage, Merged, Moved, CleanRecord, Trim;
    MergedAt(ReadPage(w.brain.pages[p]).fm, CleanRecord(b.records[i]).fields, b.owned, "");
  }

  lemma AdoptOrder(w: World, b: Batch, i: nat, p: Path)
    requires i < |b.records| && p in w.brain.pages
    ensures ReadPage(w.brain.pages[p]).fm.order <= AdoptOf(w, b, i, p).page.fm.order
  {
    hide ReadPage, Merged, Moved, CleanRecord, Trim;
    MergedAt(ReadPage(w.brain.pages[p]).fm, CleanRecord(b.records[i]).fields, b.owned, "");
  }

  /** The names sent that are not the importer's own, in the order they were sent. */
  ghost predicate SentOrder(sent: seq<string>, order: seq<string>) {
    && (forall k :: k in sent <==> k in order && k !in RESERVED)
    && (forall i, j :: 0 <= i < j < |sent| ==> PlaceOf(order, sent[i]) < PlaceOf(order, sent[j]))
  }

  lemma {:induction false} KeptInOrder(order: seq<string>)
    requires NoRepeats(order)
    ensures SentOrder(WithoutReserved(order), order)
  {
    hide PlaceOf, SentOrder;
    if order == [] {
      NothingSent();
    } else {
      var init, k := order[..|order| - 1], order[|order| - 1];
      KeptInOrder(init);
      assert order == init + [k];
      OneMoreSent(WithoutReserved(init), init, k);
    }
  }

  lemma NothingSent()
    ensures SentOrder([], [])
  {
  }

  lemma {:induction false} OneMoreSent(sent: seq<string>, init: seq<string>, k: string)
    requires SentOrder(sent, init) && k !in init
    ensures SentOrder(sent + (if k in RESERVED then [] else [k]), init + [k])
  {
    hide PlaceOf;
    var r := sent + (if k in RESERVED then [] else [k]);
    forall j | j in init ensures PlaceOf(init + [k], j) == PlaceOf(init, j) < |init| { PlaceStays(init, k, j); }
    PlaceLast(init, k);
    assert forall i :: 0 <= i < |sent| ==> r[i] == sent[i] && sent[i] in init;
    assert k !in RESERVED ==> r[|sent|] == k;
  }

  lemma {:induction false} PlaceStays(init: seq<string>, k: string, j: string)
    requires j in init
    ensures PlaceOf(init + [k], j) == PlaceOf(init, j) < |init|
  {
    var n := PlaceOf(init, j);
    var m := PlaceOf(init + [k], j);
    hide PlaceOf;
    assert forall i :: 0 <= i < |init| ==> (init + [k])[i] == init[i];
  }

  lemma PlaceLast(init: seq<string>, k: string)
    requires k !in init
    ensures PlaceOf(init + [k], k) == |init|
  {
    var m := PlaceOf(init + [k], k);
    hide PlaceOf;
    assert (init + [k])[|init|] == k;
    assert forall i :: 0 <= i < |init| ==> (init + [k])[i] == init[i];
  }

  function TextsOf(f: Flat): seq<string> {
    match f
    case Scalar(s) => [s]
    case List(items) => items
  }

  /** A record differs from a page in a field exactly when the source owns it and sends it, and the page
      has a nested value there, or not as many texts, or at some place another text, blanks
      around them aside. */
  lemma DiffersIff(fm: Front, fields: Ordered<Flat>, owned: seq<string>, k: string)
    ensures k in Moved(fm, fields, owned) <==>
      && k in owned && k in fields.at
      && var sent := TextsOf(fields.at[k]);
        match Get<Value>(fm, k)
        case None => sent != []
        case Some(Block(_, _)) => true
        case Some(Plain(v)) => |TextsOf(v)| != |sent| || exists j :: 0 <= j < |sent| && Trim(TextsOf(v)[j]) != Trim(sent[j])
  {
    hide Trim;
    if k in owned && k in fields.at {
      NormIs(fields.at[k]);
      if k in fm.at && fm.at[k].Plain? { NormIs(fm.at[k].flat); }
    }
  }

  lemma NormIs(f: Flat)
    ensures |Norm(f)| == |TextsOf(f)| && forall j :: 0 <= j < |TextsOf(f)| ==> Norm(f)[j] == Trim(TextsOf(f)[j])
  {
    hide Trim;
  }

  // ---------- the lists of the plan ----------

  datatype Fate = Failing | Silent | Same | Writing | Asking

  function FateOf(o: Outcome): Fate {
    match o
    case Fails(_) => Failing
    case Suppressed => Silent
    case Unchanged => Same
    case Writes(_) => Writing
    case Asks => Asking
  }

  predicate ComesTo(x: Input, i: nat, f: Fate)
    requires i < |x.records|
  {
    FateOf(OutcomeOf(x, i)) == f
  }

  /** How many of the first records come to this. */
  function CountOf(x: Input, n: nat, f: Fate): nat
    requires n <= |x.records|
  {
    if n == 0 then 0 else CountOf(x, n - 1, f) + if ComesTo(x, n - 1, f) then 1 else 0
  }

  function Those(x: Input, n: nat, f: Fate): set<int>
    requires n <= |x.records|
  {
    set i | 0 <= i < n && ComesTo(x, i, f)
  }

  lemma {:induction false} CountIs(x: Input, n: nat, f: Fate)
    requires n <= |x.records|
    ensures CountOf(x, n, f) == |Those(x, n, f)|
  {
    hide ComesTo;
    if n == 0 {
      assert Those(x, n, f) == {};
    } else {
      CountIs(x, n - 1, f);
      ThoseStep(x, n, f);
      assert n - 1 !in Those(x, n - 1, f);
    }
  }

  lemma ThoseStep(x: Input, n: nat, f: Fate)
    requires 0 < n <= |x.records|
    ensures Those(x, n, f) == Those(x, n - 1, f) + if ComesTo(x, n - 1, f) then {n - 1} else {}
  {
    hide ComesTo;
  }

  /** EACH LIST HOLDS WHAT IT SHOULD, IN ORDER. Every list is as long as there are records that come to
      it, and each record stands in its list behind those before it: by its key, its write, or
      its error. */
  lemma {:induction false} ListsAre(x: Input, n: nat)
    requires n <= |x.records|
    ensures var b := Buckets(x, n);
      && |b.same| == CountOf(x, n, Same) && |b.suppressed| == CountOf(x, n, Silent) && |b.needsDecision| == CountOf(x, n, Asking)
      && |b.writes| == CountOf(x, n, Writing) && |b.errors| == CountOf(x, n, Failing)
  {
    hide OutcomeOf, ImportedUpTo;
    if n > 0 { ListsAre(x, n - 1); }
  }

  lemma {:induction false} StandsAt(x: Input, n: nat, i: nat)
    requires i < n <= |x.records|
    ensures var b, k, o := Buckets(x, n), KeyOf(x.records[i]), OutcomeOf(x, i);
      var c := CountOf(x, i, FateOf(o));
      match o
      case Unchanged => c < |b.same| && b.same[c] == k
      case Suppressed => c < |b.suppressed| && b.suppressed[c] == k
      case Asks => c < |b.needsDecision| && b.needsDecision[c] == k
      case Writes(pw) => c < |b.writes| && b.writes[c] == pw
      case Fails(why) => c < |b.errors| && b.errors[c].1 == why && Trim(b.errors[c].0) == k
  {
    hide OutcomeOf, ImportedUpTo, Trim, CountOf;
    if i < n - 1 {
      StandsAt(x, n - 1, i);
    } else {
      ListsAre(x, n - 1);
      TrimTwice(x.records[n - 1].key);
    }
  }

  // ---------- what the ledger remembers ----------

  predicate Lands(x: Input, i: nat)
    requires i < |x.records|
  {
    ComesTo(x, i, Same) || ComesTo(x, i, Writing)
  }

  predicate LandsBy(x: Input, n: nat, k: string)
    requires n <= |x.records|
  {
    exists i :: 0 <= i < n && Lands(x, i) && KeyOf(x.records[i]) == k
  }

  lemma ImportsOne(x: Input, i: nat)
    requires i < |x.records|
    ensures Imports(x, i) <==> Lands(x, i) && KeyOf(x.records[i]) !in x.ledger.imported
    ensures Lands(x, i) ==> KeyOf(x.records[i]) != "" && !SeenBefore(x.records, i)
  {
    hide KeyOf, PageByKey, Moved, ReadPage, CreatedPage, UpdatedPage, AdoptedPage, Trim, PathOf, EndsWithMd, IsClaimedPath, SeenBefore;
  }

  lemma {:induction false} ImportedIs(x: Input, n: nat, k: string)
    requires n <= |x.records|
    ensures k in ImportedUpTo(x, n) <==> k in x.ledger.imported || LandsBy(x, n, k)
    ensures NoRepeats(x.ledger.imported) ==> NoRepeats(ImportedUpTo(x, n))
  {
    hide Lands, Imports, KeyOf;
    if n > 0 {
      ImportedIs(x, n - 1, k);
      ImportsOne(x, n - 1);
      if Imports(x, n - 1) {
        ImportedIs(x, n - 1, KeyOf(x.records[n - 1]));
        LandsOnce(x, n - 1);
      }
    }
  }

  lemma {:induction false} SuppressedStays(x: Input, n: nat)
    requires n <= |x.records|
    ensures Buckets(x, n).ledgerAfter.suppressed == x.ledger.suppressed
  {
    hide OutcomeOf, ImportedUpTo;
    if n > 0 { SuppressedStays(x, n - 1); }
  }

  /** THE LEDGER AFTER A SYNC. It remembers a key exactly when it did before, or a record under it was
      written or found unchanged; it remembers none twice that it did not; and it suppresses what it
      did. */
  lemma LedgerAfterSync(x: Input, k: string)
    ensures var l := PlanOf(x).ledgerAfter;
      && (k in l.imported <==> k in x.ledger.imported || LandsBy(x, |x.records|, k))
      && (NoRepeats(x.ledger.imported) ==> NoRepeats(l.imported))
      && l.suppressed == x.ledger.suppressed
  {
    ImportedIs(x, |x.records|, k);
    SuppressedStays(x, |x.records|);
    hide LandsBy, ImportedUpTo, Proposed, Carried, NoRepeats;
  }

  lemma LandsOnce(x: Input, i: nat)
    requires i < |x.records| && Lands(x, i)
    ensures !LandsBy(x, i, KeyOf(x.records[i]))
  {
    ImportsOne(x, i);
    hide Lands, KeyOf;
  }

  // ---------- the questions ----------

  /** The call was sent a record under this key. */
  predicate Sent(x: Input, k: string) {
    k != "" && exists i :: 0 <= i < |x.records| && KeyOf(x.records[i]) == k
  }

  predicate AskedBy(x: Input, n: nat, k: string)
    requires n <= |x.records|
  {
    exists i :: 0 <= i < n && ComesTo(x, i, Asking) && KeyOf(x.records[i]) == k
  }

  lemma AsksOnce(x: Input, i: nat)
    requires i < |x.records| && ComesTo(x, i, Asking)
    ensures KeyOf(x.records[i]) != "" && !AskedBy(x, i, KeyOf(x.records[i]))
  {
    assert KeyOf(x.records[i]) != "" && !SeenBefore(x.records, i) by {
      hide KeyOf, PageByKey, Moved, ReadPage, CreatedPage, UpdatedPage, AdoptedPage, Trim, PathOf, EndsWithMd, IsClaimedPath, SeenBefore;
    }
    hide KeyOf, ComesTo;
  }

  lemma AskedStep(x: Input, n: nat)
    requires 0 < n <= |x.records|
    ensures Buckets(x, n).needsDecision
         == Buckets(x, n - 1).needsDecision + if ComesTo(x, n - 1, Asking) then [KeyOf(x.records[n - 1])] else []
  {
    hide OutcomeOf, ImportedUpTo, KeyOf;
  }

  lemma AskedNone(x: Input, k: string)
    ensures Buckets(x, 0).needsDecision == [] && !AskedBy(x, 0, k)
  {
  }

  lemma AskedByStep(x: Input, n: nat, k: string)
    requires 0 < n <= |x.records|
    ensures AskedBy(x, n, k) <==> AskedBy(x, n - 1, k) || (ComesTo(x, n - 1, Asking) && KeyOf(x.records[n - 1]) == k)
  {
    hide ComesTo, KeyOf;
  }

  lemma {:induction false} AskedCount(x: Input, n: nat, k: string)
    requires n <= |x.records|
    ensures multiset(Buckets(x, n).needsDecision)[k] == if AskedBy(x, n, k) then 1 else 0
  {
    hide *;
    if n == 0 {
      AskedNone(x, k);
    } else {
      AskedCount(x, n - 1, k);
      AskedStep(x, n);
      AskedByStep(x, n, k);
      if ComesTo(x, n - 1, Asking) { AsksOnce(x, n - 1); }
    }
  }

  lemma {:induction false} CarriedCount(x: Input, qs: seq<Question>, q: Question)
    ensures multiset(Carried(x, qs))[q] == if Carries(x, q) then multiset(qs)[q] else 0
  {
    hide Carries;
    if qs != [] {
      CarriedCount(x, qs[1..], q);
      assert qs == [qs[0]] + qs[1..];
    }
  }

  lemma {:induction false} AsksCount(ks: seq<string>, q: Question)
    ensures multiset(AskQuestions(ks))[q] == if q.kind.NeedsDecision? && q.path.None? then multiset(ks)[q.key] else 0
    decreases |ks|
  {
    if ks != [] {
      AsksCount(ks[1..], q);
      assert ks == [ks[0]] + ks[1..];
      assert AskQuestions(ks) == [Question(ks[0], NeedsDecision, None)] + AskQuestions(ks[1..]);
    }
  }

  lemma {:induction false} ProposalsCount(ds: seq<(string, Path)>, q: Question)
    ensures multiset(DeletionQuestions(ds))[q] == if q.kind.ProposedDeletion? && q.path.Some? then multiset(ds)[(q.key, q.path.value)] else 0
    decreases |ds|
  {
    if ds != [] {
      ProposalsCount(ds[1..], q);
      assert ds == [ds[0]] + ds[1..];
      assert DeletionQuestions(ds) == [Question(ds[0].0, ProposedDeletion, Some(ds[0].1))] + DeletionQuestions(ds[1..]);
    }
  }

  /** WHICH QUESTIONS ARE OPEN AFTER A SYNC. A question about a key the call was sent is open exactly
      when the call asks it anew, and once; about any other key it is as open as it was. A
      proposed deletion is as open as it was when the call has no manifest; when it has one, the
      open ones are exactly those it proposes. */
  lemma QuestionsAfter(x: Input, q: Question)
    ensures var open, p := multiset(PlanOf(x).ledgerAfter.pending)[q], PlanOf(x);
      open ==
        if q.kind.NeedsDecision? then
          (if Sent(x, q.key) then (if q.path.None? && AskedBy(x, |x.records|, q.key) then 1 else 0) else multiset(x.ledger.pending)[q])
        else if x.manifest.None? then multiset(x.ledger.pending)[q]
        else if q.path.Some? then multiset(p.proposedDeletions)[(q.key, q.path.value)] else 0
    ensures x.manifest.None? ==> PlanOf(x).proposedDeletions == []
  {
    var b, p := Buckets(x, |x.records|), PlanOf(x);
    AskedCount(x, |x.records|, q.key);
    CarriedCount(x, x.ledger.pending, q);
    AsksCount(b.needsDecision, q);
    ProposalsCount(p.proposedDeletions, q);
    hide Buckets, Carried, AskQuestions, DeletionQuestions, ComesTo, KeyOf, Proposed;
    assert AskedBy(x, |x.records|, q.key) ==> Sent(x, q.key) by { AskedIsSent(x, q.key); }
  }

  lemma AskedIsSent(x: Input, k: string)
    ensures AskedBy(x, |x.records|, k) ==> Sent(x, k)
  {
    hide ComesTo, KeyOf;
    if i :| 0 <= i < |x.records| && ComesTo(x, i, Asking) && KeyOf(x.records[i]) == k {
      AsksOnce(x, i);
    }
  }

  lemma {:induction false} ProposedForIs(x: Input, c: ClaimedPage, n: nat, k: string, p: Path)
    requires n <= |c.keys| && x.manifest.Some?
    ensures (k, p) in ProposedFor(x, c, n) <==> p == c.path && k in c.keys[..n] && k in x.ledger.imported && k !in x.manifest.value
  {
    if n > 0 {
      ProposedForIs(x, c, n - 1, k, p);
      assert c.keys[..n] == c.keys[..n - 1] + [c.keys[n - 1]];
    }
  }

  lemma {:induction false} ProposedIs(x: Input, n: nat, k: string, p: Path)
    requires n <= |x.claimed| && x.manifest.Some?
    ensures (k, p) in Proposed(x, n) <==>
      (exists c :: c in x.claimed[..n] && c.path == p && k in c.keys) && k in x.ledger.imported && k !in x.manifest.value
  {
    hide ProposedFor;
    if n > 0 {
      var c := x.claimed[n - 1];
      ProposedIs(x, n - 1, k, p);
      ProposedForIs(x, c, |c.keys|, k, p);
      assert c.keys[..|c.keys|] == c.keys;
      assert x.claimed[..n] == x.claimed[..n - 1] + [c];
    }
  }

  /** WHICH DELETIONS A SYNC PROPOSES: with a manifest, each key a page claims that the source once
      imported and no longer lists. */
  lemma DeletionsProposed(w: World, b: Batch, k: string, p: Path)
    ensures (k, p) in PlanOf(InputOf(w, b)).proposedDeletions <==>
      b.manifest.Some? && Claims(w.brain, p, k) && k in w.ledger.imported && k !in b.manifest.value
  {
    var x := InputOf(w, b);
    ClaimedOfMembers(w.brain);
    hide KeysAt, ClaimedOf, Buckets, Proposed, Carried, IsRecordPath, CleanRecord;
    if b.manifest.Some? {
      ProposedIs(x, |x.claimed|, k, p);
      assert x.claimed[..|x.claimed|] == x.claimed;
      if Claims(w.brain, p, k) { assert ClaimedPage(p, KeysAt(w.brain, p), w.brain.pages[p]) in x.claimed; }
    }
  }
}
