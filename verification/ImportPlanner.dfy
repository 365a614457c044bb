/** The import planner: a keyed batch from an outside source against the pages of a brain
    (src/lib/brain-import.ts). Pages are texts; the planner reads their frontmatter. */
module ImportPlanner {
  import opened Options
  import opened Paths
  import opened Texts
  import opened Frontmatter

  // ---------- pages ----------

  const SOURCE_KEY: string := "source_key"
  const SOURCE_KEYS: string := "source_keys"
  const UPDATED: string := "updated"
  const RESERVED: set<string> := {SOURCE_KEY, SOURCE_KEYS, UPDATED}

  function DropSlashes(s: string): string {
    if s != [] && s[0] == '/' then DropSlashes(s[1..]) else s
  }

  function EndsWithMd(s: string): bool {
    |s| >= 3 && s[|s| - 3..] == ".md"
  }

  // ---------- records, ledgers, plans ----------

  /** One record, its fields in the order they were sent. */
  datatype Record = Record(key: string, path: Option<string>, fields: Ordered<Flat>, body: Option<string>)

  /** The day of a call, as digits and dashes. */
  predicate IsDay(s: string) {
    s != "" && forall i :: 0 <= i < |s| ==> '0' <= s[i] <= '9' || s[i] == '-'
  }

  type Day = s: string | IsDay(s) witness "2026-07-22"

  datatype QuestionKind = NeedsDecision | ProposedDeletion
  datatype Question = Question(key: string, kind: QuestionKind, path: Option<Path>)

  datatype Ledger = Ledger(imported: seq<string>, suppressed: seq<string>, pending: seq<Question>)

  datatype ClaimedPage = ClaimedPage(path: Path, keys: seq<string>, text: string)

  datatype Input = Input(
    records: seq<Record>,
    manifest: Option<set<string>>,
    owned: seq<string>,
    claimed: seq<ClaimedPage>,
    ledger: Ledger,
    existing: Option<set<Path>>,
    adoptable: Option<map<Path, string>>,
    today: Day)

  datatype WriteKind = Create | Update | Adopt

  /** A page to be written; its content is the page as text. */
  datatype PlannedWrite = PlannedWrite(key: string, path: Path, kind: WriteKind, page: Page, changed: set<string>)

  datatype Why = EmptyKey | DuplicateKey | NoPath | BoundElsewhere | PathTaken

  /** What the plan does with one record. */
  datatype Outcome =
    | Fails(why: Why)
    | Suppressed
    | Unchanged
    | Writes(write: PlannedWrite)
    | Asks

  datatype Plan = Plan(
    writes: seq<PlannedWrite>,
    same: seq<string>,
    suppressed: seq<string>,
    needsDecision: seq<string>,
    proposedDeletions: seq<(string, Path)>,
    errors: seq<(string, Why)>,
    ledgerAfter: Ledger)

  // ---------- merging ----------

  function Norm(v: Flat): seq<string> {
    match v
    case Scalar(s) => [Trim(s)]
    case List(items) => TrimAll(items)
  }

  /** Equal up to surrounding blanks. A block is never equal to a flat value; an absent
      key is equal to an empty list. */
  function SameValue(a: Option<Value>, b: Flat): bool {
    match a
    case None => Norm(b) == []
    case Some(Block(_, _)) => false
    case Some(Plain(v)) => Norm(v) == Norm(b)
  }

  /** The source-owned keys whose value the record moves. */
  function Moved(fm: Front, fields: Ordered<Flat>, owned: seq<string>): set<string> {
    set k | k in owned && k in fields.at && !SameValue(Get(fm, k), fields.at[k])
  }

  /** The fields with the moved ones set, in the declared order. */
  function Merged(fm: Front, fields: Ordered<Flat>, owned: seq<string>): Front {
    if owned == [] then fm
    else
      var before, k := Merged(fm, fields, owned[..|owned| - 1]), owned[|owned| - 1];
      if k in fields.at && !SameValue(Get(fm, k), fields.at[k]) then Set(before, k, Plain(fields.at[k])) else before
  }

  /** mergeFields, key by key in the declared order. */
  method MergeFields(existing: Front, fields: Ordered<Flat>, owned: seq<string>)
    returns (fm: Front, changed: set<string>)
    ensures changed == Moved(existing, fields, owned) && fm == Merged(existing, fields, owned)
  {
    fm, changed := existing, {};
    for i := 0 to |owned|
      invariant changed == Moved(existing, fields, owned[..i]) && fm == Merged(existing, fields, owned[..i])
    {
      var k := owned[i];
      MovedLast(existing, fields, owned, i);
      assert owned[..i + 1][..i] == owned[..i];
      if k in fields.at && !SameValue(Get(existing, k), fields.at[k]) {
        fm := Set(fm, k, Plain(fields.at[k]));
        changed := changed + {k};
      }
    }
    assert owned[..|owned|] == owned;
  }

  lemma MovedLast(fm: Front, fields: Ordered<Flat>, owned: seq<string>, i: nat)
    requires i < |owned|
    ensures Moved(fm, fields, owned[..i + 1]) == Moved(fm, fields, owned[..i])
      + (if owned[i] in fields.at && !SameValue(Get(fm, owned[i]), fields.at[owned[i]]) then {owned[i]} else {})
  {
    assert owned[..i + 1] == owned[..i] + [owned[i]];
  }

  /** What a merge leaves: the moved keys as sent, every other as it was. */
  lemma {:induction false} MergedAt(fm: Front, fields: Ordered<Flat>, owned: seq<string>, k: string)
    ensures Get(Merged(fm, fields, owned), k)
      == if k in Moved(fm, fields, owned) then Some(Plain(fields.at[k])) else Get(fm, k)
    ensures fm.order <= Merged(fm, fields, owned).order
    decreases |owned|
  {
    hide SameValue;
    if owned != [] {
      MergedAt(fm, fields, owned[..|owned| - 1], k);
      MovedLast(fm, fields, owned, |owned| - 1);
      assert owned[..|owned| - 1 + 1] == owned;
    }
  }

  // ---------- the plan ----------

  function KeyOf(r: Record): string {
    Trim(r.key)
  }

  function PathOf(r: Record): Path
    requires r.path.Some?
  {
    DropSlashes(Trim(r.path.value))
  }

  /** The claimed page a key resolves to: the last one that lists it. */
  function PageByKey(claimed: seq<ClaimedPage>, k: string): Option<ClaimedPage> {
    if claimed == [] then None
    else if k in claimed[|claimed| - 1].keys then Some(claimed[|claimed| - 1])
    else PageByKey(claimed[..|claimed| - 1], k)
  }

  predicate SeenBefore(rs: seq<Record>, i: nat)
    requires i < |rs|
  {
    exists j :: 0 <= j < i && KeyOf(rs[j]) == KeyOf(rs[i])
  }

  function ToFront(fields: Ordered<Flat>): Front {
    OrderedMap(map k | k in fields.at :: Plain(fields.at[k]), fields.order)
  }

  function CreatedPage(r: Record, today: Day): Page {
    Page(Set(Set(ToFront(r.fields), SOURCE_KEY, Plain(Scalar(r.key))), UPDATED, Plain(Scalar(today))),
         if r.body.Some? then r.body.value else "")
  }

  function UpdatedPage(page: Page, r: Record, owned: seq<string>, today: Day): Page {
    Page(Set(Merged(page.fm, r.fields, owned), UPDATED, Plain(Scalar(today))), page.body)
  }

  function AdoptedPage(page: Page, r: Record, owned: seq<string>, today: Day): Page {
    Page(Set(Set(Merged(page.fm, r.fields, owned), SOURCE_KEY, Plain(Scalar(KeyOf(r)))), UPDATED, Plain(Scalar(today))), page.body)
  }

  predicate IsClaimedPath(claimed: seq<ClaimedPage>, p: Path) {
    exists c :: c in claimed && c.path == p
  }

  function OutcomeOf(x: Input, i: nat): Outcome
    requires i < |x.records|
  {
    var r := x.records[i];
    var k := KeyOf(r);
    if k == "" then Fails(EmptyKey)
    else if SeenBefore(x.records, i) then Fails(DuplicateKey)
    else if k in x.ledger.suppressed then Suppressed
    else
      match PageByKey(x.claimed, k)
      case Some(c) =>
        var page := ReadPage(c.text);
        var moved := Moved(page.fm, r.fields, x.owned);
        if moved == {} then Unchanged
        else Writes(PlannedWrite(k, c.path, Update, UpdatedPage(page, r, x.owned, x.today), moved))
      case None =>
        if k in x.ledger.imported then Asks
        else if r.path.None? || !EndsWithMd(Trim(r.path.value)) then Fails(NoPath)
        else
          var p := PathOf(r);
          if IsClaimedPath(x.claimed, p) then Fails(BoundElsewhere)
          else if x.adoptable.Some? && p in x.adoptable.value then
            var page := ReadPage(x.adoptable.value[p]);
            Writes(PlannedWrite(k, p, Adopt, AdoptedPage(page, r, x.owned, x.today),
              Moved(page.fm, r.fields, x.owned) + {SOURCE_KEY}))
          else if x.existing.Some? && p in x.existing.value then Fails(PathTaken)
          else Writes(PlannedWrite(k, p, Create, CreatedPage(r, x.today), r.fields.at.Keys))
  }

  /** The record makes its key one of the source's. */
  predicate Imports(x: Input, i: nat)
    requires i < |x.records|
  {
    var k, o := KeyOf(x.records[i]), OutcomeOf(x, i);
    k !in x.ledger.imported
    && ((o.Writes? && !o.write.kind.Update?)
        || ((o.Unchanged? || o.Writes?) && PageByKey(x.claimed, k).Some?))
  }

  function ImportedUpTo(x: Input, n: nat): seq<string>
    requires n <= |x.records|
  {
    if n == 0 then x.ledger.imported
    else ImportedUpTo(x, n - 1) + (if Imports(x, n - 1) then [KeyOf(x.records[n - 1])] else [])
  }

  /** The questions of one call: what it carries, what it asked, what it proposes. */
  predicate Carries(x: Input, q: Question) {
    if q.kind.NeedsDecision? then !(exists i :: 0 <= i < |x.records| && KeyOf(x.records[i]) != "" && KeyOf(x.records[i]) == q.key)
    else x.manifest.None?
  }

  function Carried(x: Input, qs: seq<Question>): seq<Question> {
    if qs == [] then [] else (if Carries(x, qs[0]) then [qs[0]] else []) + Carried(x, qs[1..])
  }

  function ProposedFor(x: Input, c: ClaimedPage, n: nat): seq<(string, Path)>
    requires n <= |c.keys| && x.manifest.Some?
  {
    if n == 0 then []
    else
      var k := c.keys[n - 1];
      ProposedFor(x, c, n - 1)
      + (if k in x.ledger.imported && k !in x.manifest.value then [(k, c.path)] else [])
  }

  function Proposed(x: Input, n: nat): seq<(string, Path)>
    requires n <= |x.claimed| && x.manifest.Some?
  {
    if n == 0 then []
    else Proposed(x, n - 1) + ProposedFor(x, x.claimed[n - 1], |x.claimed[n - 1].keys|)
  }

  /** The plan's lists, record by record. */
  function Buckets(x: Input, n: nat): (b: Plan)
    requires n <= |x.records|
    ensures b.ledgerAfter.imported == ImportedUpTo(x, n)
  {
    if n == 0 then Plan([], [], [], [], [], [], Ledger(x.ledger.imported, x.ledger.suppressed, []))
    else
      var b, o, k := Buckets(x, n - 1), OutcomeOf(x, n - 1), KeyOf(x.records[n - 1]);
      var b' := b.(ledgerAfter := b.ledgerAfter.(imported := ImportedUpTo(x, n)));
      match o
      case Fails(why) => b'.(errors := b.errors + [(if why.EmptyKey? then x.records[n - 1].key else k, why)])
      case Suppressed => b'.(suppressed := b.suppressed + [k])
      case Unchanged => b'.(same := b.same + [k])
      case Writes(w) => b'.(writes := b.writes + [w])
      case Asks => b'.(needsDecision := b.needsDecision + [k])
  }

  function AskQuestions(keys: seq<string>): seq<Question> {
    seq(|keys|, i requires 0 <= i < |keys| => Question(keys[i], NeedsDecision, None))
  }

  function DeletionQuestions(ds: seq<(string, Path)>): seq<Question> {
    seq(|ds|, i requires 0 <= i < |ds| => Question(ds[i].0, ProposedDeletion, Some(ds[i].1)))
  }

  function PlanOf(x: Input): Plan {
    var b := Buckets(x, |x.records|);
    var ds := if x.manifest.Some? then Proposed(x, |x.claimed|) else [];
    b.(proposedDeletions := ds,
       ledgerAfter := b.ledgerAfter.(
         pending := Carried(x, x.ledger.pending) + AskQuestions(b.needsDecision) + DeletionQuestions(ds)))
  }

  /** Which page each key resolves to, and which paths are bound at all. */
  method IndexClaims(claimed: seq<ClaimedPage>) returns (pageByKey: map<string, ClaimedPage>, claimedPaths: set<Path>)
    ensures forall p :: p in claimedPaths <==> IsClaimedPath(claimed, p)
    ensures forall k :: k in pageByKey <==> PageByKey(claimed, k).Some?
    ensures forall k :: k in pageByKey ==> pageByKey[k] == PageByKey(claimed, k).value
  {
    pageByKey, claimedPaths := map[], {};
    for i := 0 to |claimed|
      invariant forall p :: p in claimedPaths <==> IsClaimedPath(claimed[..i], p)
      invariant forall k :: k in pageByKey <==> PageByKey(claimed[..i], k).Some?
      invariant forall k :: k in pageByKey ==> pageByKey[k] == PageByKey(claimed[..i], k).value
    {
      var c := claimed[i];
      assert claimed[..i + 1] == claimed[..i] + [c] && claimed[..i + 1][..i] == claimed[..i];
      claimedPaths := claimedPaths + {c.path};
      pageByKey := pageByKey + (map k | k in c.keys :: c);
    }
    assert claimed[..|claimed|] == claimed;
  }

  /** Absence detection: imported keys of claimed pages that the manifest lacks. */
  method ProposeDeletions(x: Input) returns (ds: seq<(string, Path)>)
    requires x.manifest.Some?
    ensures ds == Proposed(x, |x.claimed|)
  {
    ds := [];
    for i := 0 to |x.claimed|
      invariant ds == Proposed(x, i)
    {
      var c := x.claimed[i];
      for j := 0 to |c.keys|
        invariant ds == Proposed(x, i) + ProposedFor(x, c, j)
      {
        if c.keys[j] in x.ledger.imported && c.keys[j] !in x.manifest.value {
          ds := ds + [(c.keys[j], c.path)];
        }
      }
    }
  }

  /** The questions of earlier calls this one does not speak for. */
  method CarryQuestions(x: Input, seen: set<string>) returns (carried: seq<Question>)
    requires forall k :: k in seen <==> k != "" && exists j :: 0 <= j < |x.records| && KeyOf(x.records[j]) == k
    ensures carried == Carried(x, x.ledger.pending)
  {
    carried := [];
    for i := 0 to |x.ledger.pending|
      invariant carried == Carried(x, x.ledger.pending[..i])
    {
      var q := x.ledger.pending[i];
      CarriedLast(x, x.ledger.pending, i);
      if (if q.kind.NeedsDecision? then q.key !in seen else x.manifest.None?) {
        carried := carried + [q];
      }
    }
    assert x.ledger.pending[..|x.ledger.pending|] == x.ledger.pending;
  }

  /** plan: one pass over the records, then the manifest scan, then the questions. */
  method PlanImport(x: Input) returns (out: Plan)
    ensures out == PlanOf(x)
  {
    hide Proposed, Carried, Carries, AskQuestions, DeletionQuestions, Moved, Trim, PathOf, CreatedPage,
      UpdatedPage, AdoptedPage, PageByKey, ReadPage;
    var pageByKey, claimedPaths := IndexClaims(x.claimed);
    out := Plan([], [], [], [], [], [], Ledger(x.ledger.imported, x.ledger.suppressed, []));
    var seen: set<string> := {};
    for i := 0 to |x.records|
      invariant out == Buckets(x, i)
      invariant forall k :: k in seen <==> k != "" && exists j :: 0 <= j < i && KeyOf(x.records[j]) == k
    {
      var r, k := x.records[i], KeyOf(x.records[i]);
      if k == "" {
        out := out.(errors := out.errors + [(r.key, EmptyKey)]);
      } else if k in seen {
        out := out.(errors := out.errors + [(k, DuplicateKey)]);
      } else {
        seen := seen + {k};
        out := PlanRecord(x, i, pageByKey, claimedPaths, out);
      }
    }
    var ds: seq<(string, Path)> := [];
    if x.manifest.Some? {
      ds := ProposeDeletions(x);
    }
    var carried := CarryQuestions(x, seen);
    out := out.(proposedDeletions := ds,
      ledgerAfter := out.ledgerAfter.(
        pending := carried + AskQuestions(out.needsDecision) + DeletionQuestions(ds)));
  }

  /** One record that is neither empty nor a repeat. */
  method PlanRecord(x: Input, i: nat, pageByKey: map<string, ClaimedPage>, claimedPaths: set<Path>, out: Plan)
    returns (next: Plan)
    requires i < |x.records| && KeyOf(x.records[i]) != "" && !SeenBefore(x.records, i)
    requires forall p :: p in claimedPaths <==> IsClaimedPath(x.claimed, p)
    requires forall k :: k in pageByKey <==> PageByKey(x.claimed, k).Some?
    requires forall k :: k in pageByKey ==> pageByKey[k] == PageByKey(x.claimed, k).value
    requires out == Buckets(x, i)
    ensures next == Buckets(x, i + 1)
  {
    hide Set, Merged, Moved, ReadPage, PageByKey, Trim, DropSlashes, CreatedPage, EndsWithMd, IsClaimedPath;
    var r, k := x.records[i], KeyOf(x.records[i]);
    next := out;
    if k in x.ledger.suppressed {
      next := next.(suppressed := next.suppressed + [k]);
      return;
    }
    if k in pageByKey {
      var c := pageByKey[k];
      var page := ReadPage(c.text);
      var fm, changed := MergeFields(page.fm, r.fields, x.owned);
      if changed == {} {
        next := next.(same := next.same + [k]);
      } else {
        var w := PlannedWrite(k, c.path, Update, Page(Set(fm, UPDATED, Plain(Scalar(x.today))), page.body), changed);
        next := next.(writes := next.writes + [w]);
      }
      if k !in x.ledger.imported {
        next := next.(ledgerAfter := next.ledgerAfter.(imported := next.ledgerAfter.imported + [k]));
      }
      return;
    }
    if k in x.ledger.imported {
      next := next.(needsDecision := next.needsDecision + [k]);
      return;
    }
    if r.path.None? || !EndsWithMd(Trim(r.path.value)) {
      next := next.(errors := next.errors + [(k, NoPath)]);
      return;
    }
    var p := PathOf(r);
    if p in claimedPaths {
      next := next.(errors := next.errors + [(k, BoundElsewhere)]);
      return;
    }
    if x.adoptable.Some? && p in x.adoptable.value {
      var page := ReadPage(x.adoptable.value[p]);
      var fm, changed := MergeFields(page.fm, r.fields, x.owned);
      var bound := Page(Set(Set(fm, SOURCE_KEY, Plain(Scalar(k))), UPDATED, Plain(Scalar(x.today))), page.body);
      next := next.(writes := next.writes + [PlannedWrite(k, p, Adopt, bound, changed + {SOURCE_KEY})],
        ledgerAfter := next.ledgerAfter.(imported := next.ledgerAfter.imported + [k]));
      return;
    }
    if x.existing.Some? && p in x.existing.value {
      next := next.(errors := next.errors + [(k, PathTaken)]);
      return;
    }
    next := next.(writes := next.writes + [PlannedWrite(k, p, Create, CreatedPage(r, x.today), r.fields.at.Keys)],
      ledgerAfter := next.ledgerAfter.(imported := next.ledgerAfter.imported + [k]));
  }

  lemma {:induction false} CarriedAppend(x: Input, a: seq<Question>, b: seq<Question>)
    ensures Carried(x, a + b) == Carried(x, a) + Carried(x, b)
    decreases |a|
  {
    if a == [] {
      assert a + b == b;
    } else {
      assert (a + b)[1..] == a[1..] + b;
      CarriedAppend(x, a[1..], b);
    }
  }

  lemma CarriedLast(x: Input, qs: seq<Question>, i: nat)
    requires i < |qs|
    ensures Carried(x, qs[..i + 1]) == Carried(x, qs[..i]) + (if Carries(x, qs[i]) then [qs[i]] else [])
  {
    assert qs[..i + 1] == qs[..i] + [qs[i]];
    CarriedAppend(x, qs[..i], [qs[i]]);
    assert Carried(x, [qs[i]][1..]) == [];
  }
}
