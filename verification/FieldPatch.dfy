/** Setting and removing frontmatter keys without reading the rest (src/lib/page-patch.ts). */
module FieldPatch {
  import opened Options
  import opened Texts
  import opened Frontmatter
  import opened FrontmatterValues
  import opened FrontmatterPages
  import opened FrontmatterReads

  /** A page's parsed fields. */
  type Fields = map<string, Value>

  function ValueOf(fm: Fields, k: string): Option<Value> {
    if k in fm then Some(fm[k]) else None
  }

  const MANAGED: set<string> := {"title", "type", "description", "status", "updated"}

  /** A patched value: null, text or a list, already in the form it takes in the file, or a
      nested object. */
  datatype Patched = Remove | SetTo(value: Flat) | Nested

  type Patch = seq<(string, Patched)>

  datatype Refusal = Empty | UnusableKey(key: string) | ManagedKey(key: string) | NestedValue(key: string) | HoldsBlock(key: string)
  datatype Result = Ok(fm: Fields, changed: nat) | Err(why: Refusal)

  predicate KeyText(k: string) {
    k != "" && forall i :: 0 <= i < |k| ==> IsWordChar(k[i])
  }

  /** A patch is an object: one value a key. */
  predicate OneValueEach(p: Patch) {
    forall i, j :: 0 <= i < j < |p| ==> p[i].0 != p[j].0
  }

  predicate WellFormed(p: Patch) {
    p != [] && forall i :: 0 <= i < |p| ==> KeyText(p[i].0) && p[i].0 !in MANAGED && !p[i].1.Nested?
  }

  predicate HoldsABlock(fm: Fields, k: string) {
    k in fm && fm[k].Block?
  }

  predicate NoBlocks(fm: Fields, p: Patch) {
    forall i :: 0 <= i < |p| ==> !HoldsABlock(fm, p[i].0)
  }

  /** What the patch asks of a key it names. */
  function Wanted(v: Patched): Option<Value> {
    if v.SetTo? then Some(Plain(v.value)) else None
  }

  /** The merge of section 2 of RFC 7396, for a flat patch and its first n members. */
  function Merge(fm: Fields, p: Patch, n: nat): Fields
    requires n <= |p|
  {
    if n == 0 then fm
    else
      var before, (k, v) := Merge(fm, p, n - 1), p[n - 1];
      if v.SetTo? then before[k := Plain(v.value)] else before - {k}
  }

  /** The members that move something. */
  function Moves(fm: Fields, p: Patch, n: nat): (m: nat)
    requires n <= |p|
    ensures m <= n
  {
    if n == 0 then 0
    else Moves(fm, p, n - 1) + (if ValueOf(fm, p[n - 1].0) != Wanted(p[n - 1].1) then 1 else 0)
  }

  /** What is wrong with one member of a patch: its name, and only then its value. */
  function Fault(m: (string, Patched)): Option<Refusal> {
    if !KeyText(m.0) then Some(UnusableKey(m.0))
    else if m.0 in MANAGED then Some(ManagedKey(m.0))
    else if m.1.Nested? then Some(NestedValue(m.0))
    else None
  }

  /** The refusal names the first member at fault, or that there is none at all. */
  ghost predicate Blames(p: Patch, why: Refusal) {
    if p == [] then why == Empty
    else exists i :: 0 <= i < |p| && Fault(p[i]) == Some(why) && forall j :: 0 <= j < i ==> Fault(p[j]).None?
  }

  /** The first key of the patch that the page holds a nested value under. */
  ghost predicate FirstBlock(fm: Fields, p: Patch, k: string) {
    exists i :: 0 <= i < |p| && p[i].0 == k && HoldsABlock(fm, k) && forall j :: 0 <= j < i ==> !HoldsABlock(fm, p[j].0)
  }

  /** validateFieldPatch. */
  method Validate(p: Patch) returns (why: Option<Refusal>)
    ensures why.None? <==> WellFormed(p)
    ensures why.Some? ==> Blames(p, why.value)
  {
    if p == [] {
      return Some(Empty);
    }
    for i := 0 to |p|
      invariant forall j :: 0 <= j < i ==> KeyText(p[j].0) && p[j].0 !in MANAGED && !p[j].1.Nested?
    {
      assert Fault(p[i]).None? || Blames(p, Fault(p[i]).value);
      if !KeyText(p[i].0) {
        return Some(UnusableKey(p[i].0));
      }
      if p[i].0 in MANAGED {
        return Some(ManagedKey(p[i].0));
      }
      if p[i].1.Nested? {
        return Some(NestedValue(p[i].0));
      }
    }
    return None;
  }

  /** applyFieldPatch. */
  method ApplyFieldPatch(fm: Fields, p: Patch) returns (r: Result)
    requires OneValueEach(p)
    ensures r.Ok? <==> WellFormed(p) && NoBlocks(fm, p)
    ensures r.Ok? ==> r.fm == Merge(fm, p, |p|) && r.changed == Moves(fm, p, |p|)
    ensures r.Err? && !WellFormed(p) ==> Blames(p, r.why)
    ensures r.Err? && WellFormed(p) ==> exists k :: r.why == HoldsBlock(k) && FirstBlock(fm, p, k)
  {
    hide KeyText;
    var bad := Validate(p);
    if bad.Some? {
      return Err(bad.value);
    }
    var next, changed: nat := fm, 0;
    for i := 0 to |p|
      invariant forall j :: 0 <= j < i ==> !HoldsABlock(fm, p[j].0)
      invariant next == Merge(fm, p, i) && changed == Moves(fm, p, i)
    {
      var (k, v) := p[i];
      Untouched(fm, p, i);
      if HoldsABlock(fm, k) {
        assert FirstBlock(fm, p, k);
        return Err(HoldsBlock(k));
      }
      if v.Remove? {
        if k in next {
          next := next - {k};
          changed := changed + 1;
        }
      } else if ValueOf(fm, k) != Some(Plain(v.value)) {
        next := next[k := Plain(v.value)];
        changed := changed + 1;
      }
    }
    return Ok(next, changed);
  }

  /** The members before i leave the i-th key alone. */
  lemma Untouched(fm: Fields, p: Patch, i: nat)
    requires OneValueEach(p) && i < |p|
    ensures ValueOf(Merge(fm, p, i), p[i].0) == ValueOf(fm, p[i].0)
  {
    MergeElsewhere(fm, p, i, p[i].0);
  }

  lemma {:induction false} MergeElsewhere(fm: Fields, p: Patch, n: nat, k: string)
    requires n <= |p| && forall j :: 0 <= j < n ==> p[j].0 != k
    ensures ValueOf(Merge(fm, p, n), k) == ValueOf(fm, k)
  {
    if n > 0 { MergeElsewhere(fm, p, n - 1, k); }
  }

  /** WHAT A PATCH MEANS. Every key it names ends as asked, every other key as it was; so the
      order of its members does not matter. */
  lemma {:induction false} MergeAt(fm: Fields, p: Patch, n: nat, k: string)
    requires OneValueEach(p) && n <= |p|
    ensures forall i :: 0 <= i < n && p[i].0 == k ==> ValueOf(Merge(fm, p, n), k) == Wanted(p[i].1)
    ensures (forall i :: 0 <= i < n ==> p[i].0 != k) ==> ValueOf(Merge(fm, p, n), k) == ValueOf(fm, k)
  {
    if n > 0 { MergeAt(fm, p, n - 1, k); }
  }

  lemma {:induction false} NoMovesMeansSame(fm: Fields, p: Patch, n: nat)
    requires OneValueEach(p) && n <= |p|
    ensures Moves(fm, p, n) == 0 <==> forall i :: 0 <= i < n ==> ValueOf(fm, p[i].0) == Wanted(p[i].1)
  {
    if n > 0 { NoMovesMeansSame(fm, p, n - 1); }
  }

  lemma SameByKeys(a: Fields, b: Fields)
    requires forall k :: ValueOf(a, k) == ValueOf(b, k)
    ensures a == b
  {
    forall k ensures k in a <==> k in b { assert ValueOf(a, k) == ValueOf(b, k); }
    forall k | k in a ensures a[k] == b[k] { assert ValueOf(a, k) == ValueOf(b, k); }
  }

  /** The keys whose value is not what it was, over the first n members. */
  function MovedKeys(fm: Fields, p: Patch, n: nat): set<string>
    requires n <= |p|
  {
    set k | k in fm.Keys + Merge(fm, p, n).Keys && ValueOf(fm, k) != ValueOf(Merge(fm, p, n), k)
  }

  lemma MovedStep(fm: Fields, p: Patch, n: nat)
    requires OneValueEach(p) && 0 < n <= |p|
    ensures var (k, v) := p[n - 1];
      MovedKeys(fm, p, n) == MovedKeys(fm, p, n - 1) + (if ValueOf(fm, k) != Wanted(v) then {k} else {})
      && k !in MovedKeys(fm, p, n - 1)
  {
    var k := p[n - 1].0;
    MergeElsewhere(fm, p, n - 1, k);
    forall j | j != k ensures ValueOf(Merge(fm, p, n), j) == ValueOf(Merge(fm, p, n - 1), j) {
    }
    assert ValueOf(Merge(fm, p, n), k) == Wanted(p[n - 1].1);
    forall j ensures j in MovedKeys(fm, p, n) <==> ValueOf(fm, j) != ValueOf(Merge(fm, p, n), j) {
    }
    forall j ensures j in MovedKeys(fm, p, n - 1) <==> ValueOf(fm, j) != ValueOf(Merge(fm, p, n - 1), j) {
    }
  }

  lemma {:induction false} MovesAre(fm: Fields, p: Patch, n: nat)
    requires OneValueEach(p) && n <= |p|
    ensures Moves(fm, p, n) == |MovedKeys(fm, p, n)|
  {
    if n == 0 {
      assert MovedKeys(fm, p, n) == {};
    } else {
      MovesAre(fm, p, n - 1);
      MovedStep(fm, p, n);
      hide MovedKeys;
    }
  }

  /** THE COUNT IS OF KEYS THAT MOVED. A patch reports as many changes as there are keys whose value in the
      new frontmatter is not the one in the old. */
  lemma ChangedCounts(fm: Fields, p: Patch)
    requires OneValueEach(p)
    ensures var after := Merge(fm, p, |p|);
      Moves(fm, p, |p|) == |set k | k in fm.Keys + after.Keys && ValueOf(fm, k) != ValueOf(after, k)|
  {
    MovesAre(fm, p, |p|);
  }

  /** A patch reports no change exactly when it makes none. */
  lemma ChangedIffMoved(fm: Fields, p: Patch)
    requires OneValueEach(p)
    ensures Moves(fm, p, |p|) == 0 <==> Merge(fm, p, |p|) == fm
  {
    NoMovesMeansSame(fm, p, |p|);
    forall k ensures (forall i :: 0 <= i < |p| && p[i].0 == k ==> ValueOf(fm, k) == Wanted(p[i].1))
        ==> ValueOf(Merge(fm, p, |p|), k) == ValueOf(fm, k) {
      MergeAt(fm, p, |p|, k);
    }
    if Moves(fm, p, |p|) == 0 { SameByKeys(Merge(fm, p, |p|), fm); }
    forall i | 0 <= i < |p| ensures ValueOf(Merge(fm, p, |p|), p[i].0) == Wanted(p[i].1) {
      MergeAt(fm, p, |p|, p[i].0);
    }
  }

  /** PATCHING TWICE IS PATCHING ONCE. A patch that is made can be made again; the second time it
      changes nothing and says so. */
  lemma PatchTwice(fm: Fields, p: Patch)
    requires OneValueEach(p) && WellFormed(p) && NoBlocks(fm, p)
    ensures var once := Merge(fm, p, |p|);
      NoBlocks(once, p) && Merge(once, p, |p|) == once && Moves(once, p, |p|) == 0
  {
    var once := Merge(fm, p, |p|);
    forall i | 0 <= i < |p| ensures ValueOf(once, p[i].0) == Wanted(p[i].1) {
      MergeAt(fm, p, |p|, p[i].0);
    }
    NoMovesMeansSame(once, p, |p|);
    ChangedIffMoved(once, p);
  }

  // ---------- through the file ----------

  /** A value that comes back exactly as it was set. */
  predicate ComesBack(v: Flat) {
    match v
    case Scalar(s) => Trim(s) == s && Survives(s)
    case List(items) => NoMapping(items) && forall i :: 0 <= i < |items| ==> Trim(items[i]) == items[i] && '\n' !in items[i]
  }

  lemma {:induction false} ComesBackIff(k: string, v: Flat)
    requires KeyText(k)
    ensures Back(k, Some(Plain(v))) == Some(Plain(v)) <==> !IsFence(k) && ComesBack(v)
  {
    WordRunIs(k, |k|);
    hide IsFence, IsWordChar;
    match v
    case Scalar(s) =>
      ScalarKept(s);
      hide ReadScalar, Trim, Survives;
    case List(items) =>
      ItemsComeBack(items);
      hide FlatTexts, NoMapping;
  }

  lemma {:induction false} ItemsComeBack(items: seq<string>)
    ensures FlatTexts(items) == items <==> forall i :: 0 <= i < |items| ==> Trim(items[i]) == items[i] && '\n' !in items[i]
  {
    hide Trim, FlatText;
    forall i | 0 <= i < |items|
      ensures FlatText(items[i]) == items[i] <==> Trim(items[i]) == items[i] && '\n' !in items[i]
    {
      FlatFacts(items[i]);
      FlatOfTrim(items[i]);
    }
    if FlatTexts(items) == items {
      assert forall i :: 0 <= i < |items| ==> FlatTexts(items)[i] == items[i];
    }
  }

  /** PATCHING TWICE THROUGH THE FILE. A patch that was made, and whose page was written and read again, is
      found made exactly when each value it sets comes back: a text with no outer blanks, no line end
      and no comment in it, or a list of such items on one line each that do not read as mappings. */
  lemma {:induction false} PatchThroughTheFile(page: Page, once: Fields, p: Patch)
    requires OneValueEach(p) && WellFormed(p) && TameFront(page.fm) && page.fm.at == Merge(once, p, |p|)
    ensures Moves(Reread(page).fm.at, p, |p|) == 0 <==> forall i :: 0 <= i < |p| && p[i].1.SetTo? ==> ComesBack(p[i].1.value)
  {
    hide TameFront, Reread, Merge, ComesBack, Back, KeyText, IsFence;
    var read := Reread(page).fm.at;
    NoMovesMeansSame(read, p, |p|);
    forall i | 0 <= i < |p|
      ensures ValueOf(read, p[i].0) == Wanted(p[i].1) <==> (p[i].1.SetTo? ==> ComesBack(p[i].1.value))
    {
      MergeAt(once, p, |p|, p[i].0);
      RereadAt(page, p[i].0);
      if p[i].1.SetTo? {
        ComesBackIff(p[i].0, p[i].1.value);
        assert p[i].0 in page.fm.at;
        TameIsNoFence(page.fm, p[i].0);
      } else {
        NothingBack(p[i].0);
      }
    }
  }

  lemma TameIsNoFence(fm: Front, k: string)
    requires TameFront(fm) && k in fm.at && KeyText(k)
    ensures !IsFence(k)
  {
    if IsFence(k) { FenceIsNotTame(k); }
    hide Inert, Usable, Proper, IsFence, KeyText;
    assert TameEntry(k, fm.at[k]);
  }

  lemma FenceIsNotTame(k: string)
    requires IsFence(k) && KeyText(k)
    ensures !Usable(k) && !Inert(k)
  {
    OneLine(k + ":");
    FenceStarts(k);
    FenceStarts(k + ":");
  }

  /** A FENCE IS A KEY as far as the patch can tell. It is accepted, and ends the frontmatter of the page it
      is set on: neither it nor what the page lists after it is read again. */
  lemma {:induction false} FenceKeyIsLost(page: Page, n: nat, v: Flat)
    requires n < |page.fm.order| && TameUpTo(page.fm, n) && page.fm.order[n] == "---"
    requires forall k :: k in page.fm.at ==> Proper(page.fm.at[k])
    ensures WellFormed([("---", SetTo(v))])
    ensures Reread(page).fm == ReadFront(page.fm, n) && Moves(Reread(page).fm.at, [("---", SetTo(v))], 1) == 1
  {
    FenceIs();
    FenceName(page, n);
    ReadFrontAt(page.fm, n, "---");
    FenceIsText();
    hide Reread, ReadFront, TameEntry, IsFence, Proper, KeyText;
    assert "---" !in page.fm.order[..n];
    assert Moves(Reread(page).fm.at, [("---", SetTo(v))], 0) == 0;
  }

  lemma FenceIsText()
    ensures KeyText("---") && "---" !in MANAGED
  {
    assert |"---"| != |"title"| && |"---"| != |"type"| && |"---"| != |"description"| && |"---"| != |"status"| && |"---"| != |"updated"|;
  }

  lemma NothingBack(k: string)
    ensures Back(k, None) == None
  {
  }
}
