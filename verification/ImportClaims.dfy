/** Which keys a page claims, as the importer learns it: from the index rows of its frontmatter. */
module ImportClaims {
  // The index counts the keys of a page in their order and stops at a cap, takes only the first
  // items of a list and the first characters of a value (src/lib/brain-index.ts, fieldRowsOf).

  import opened Options
  import opened Paths
  import opened Texts
  import opened Frontmatter
  import opened FrontmatterValues
  import opened FrontmatterPages
  import opened FrontmatterReads
  import opened ImportPlanner
  import opened ImportReads

  const MAX_FIELD_KEYS_PER_PAGE: nat := 24
  const MAX_FIELD_VALUE_CHARS: nat := 256
  const MAX_FIELD_LIST_ELEMENTS: nat := 20

  /** The settings file's `indexedFields`: every key, or these. */
  type Indexed = Option<set<string>>

  predicate Admits(indexed: Indexed, k: string) {
    indexed.Some? ==> k in indexed.value
  }

  /** The keys that count towards the cap. */
  function Counted(order: seq<string>, indexed: Indexed): seq<string> {
    if order == [] then []
    else Counted(order[..|order| - 1], indexed) + (if Admits(indexed, order[|order| - 1]) then [order[|order| - 1]] else [])
  }

  function Firsts<T>(s: seq<T>, n: nat): seq<T> {
    if |s| <= n then s else s[..n]
  }

  /** The index has rows for this key of a page that lists its keys so. */
  predicate SeenIn(order: seq<string>, indexed: Indexed, k: string) {
    k in Firsts(Counted(order, indexed), MAX_FIELD_KEYS_PER_PAGE)
  }

  function Cut(s: string): string {
    Firsts(s, MAX_FIELD_VALUE_CHARS)
  }

  /** The row values of one key: trimmed, cut, none empty, none twice. */
  function IndexedValues(ss: seq<string>): seq<string> {
    if ss == [] then []
    else
      var before, v := IndexedValues(ss[..|ss| - 1]), Cut(Trim(ss[|ss| - 1]));
      if v == "" || v in before then before else before + [v]
  }

  /** The row values of a field; a block has none. */
  function RowValues(v: Value): seq<string> {
    match v
    case Block(_, _) => []
    case Plain(Scalar(s)) => IndexedValues([s])
    case Plain(List(items)) => IndexedValues(Firsts(items, MAX_FIELD_LIST_ELEMENTS))
  }

  function FieldValues(page: Page, indexed: Indexed, k: string): seq<string> {
    if k in page.fm.at && SeenIn(page.fm.order, indexed, k) then RowValues(page.fm.at[k]) else []
  }

  function KeysOf(indexed: Indexed, page: Page): seq<string> {
    FieldValues(page, indexed, SOURCE_KEY) + FieldValues(page, indexed, SOURCE_KEYS)
  }

  // ---------- what the cap lets through ----------

  /** THE CAPS. Rows are made for the first twenty-four keys that count, the first twenty items of a list and the
      first two hundred and fifty-six characters of a value. */
  lemma Caps(order: seq<string>, indexed: Indexed, k: string, items: seq<string>, s: string)
    ensures var counted := Counted(order, indexed);
      SeenIn(order, indexed, k) <==> k in counted[..if |counted| < 24 then |counted| else 24]
    ensures RowValues(Plain(List(items))) == IndexedValues(items[..if |items| < 20 then |items| else 20])
    ensures Cut(s) == s[..if |s| < 256 then |s| else 256]
  {
    hide Counted, IndexedValues;
    var counted := Counted(order, indexed);
    assert counted[..|counted|] == counted && items[..|items|] == items && s[..|s|] == s;
  }

  lemma {:induction false} CountedAppend(a: seq<string>, b: seq<string>, indexed: Indexed)
    ensures Counted(a + b, indexed) == Counted(a, indexed) + Counted(b, indexed)
    decreases |b|
  {
    if b == [] {
      assert a + b == a;
    } else {
      assert (a + b)[..|a + b| - 1] == a + b[..|b| - 1];
      CountedAppend(a, b[..|b| - 1], indexed);
    }
  }

  lemma {:induction false} CountedMembers(order: seq<string>, indexed: Indexed)
    ensures forall k :: k in Counted(order, indexed) <==> k in order && Admits(indexed, k)
  {
    if order != [] {
      CountedMembers(order[..|order| - 1], indexed);
      assert order == order[..|order| - 1] + [order[|order| - 1]];
    }
  }

  /** Where a name stands, or would be put. */
  function PlaceOf(order: seq<string>, k: string): (n: nat)
    ensures n <= |order| && (n < |order| ==> order[n] == k) && (n == |order| ==> k !in order)
    ensures forall i :: 0 <= i < n ==> order[i] != k
  {
    if order == [] || order[0] == k then 0 else 1 + PlaceOf(order[1..], k)
  }

  predicate NoRepeats(order: seq<string>) {
    forall i, j :: 0 <= i < j < |order| ==> order[i] != order[j]
  }

  lemma PlaceIs(order: seq<string>, k: string, n: nat)
    requires n < |order| && order[n] == k && NoRepeats(order)
    ensures PlaceOf(order, k) == n
  {
    var m := PlaceOf(order, k);
    assert order[m] == k;
  }

  /** A name is seen exactly when it counts and the names before it leave room. */
  lemma {:induction false} SeenAt(order: seq<string>, indexed: Indexed, k: string)
    requires NoRepeats(order) && k in order
    ensures SeenIn(order, indexed, k) <==> Admits(indexed, k) && |Counted(order[..PlaceOf(order, k)], indexed)| < MAX_FIELD_KEYS_PER_PAGE
  {
    SplitAt(order, k);
    hide Counted, PlaceOf, NoRepeats, SeenIn;
    SeenAfter(order[..PlaceOf(order, k)], k, order[PlaceOf(order, k) + 1..], indexed);
  }

  lemma SplitAt(order: seq<string>, k: string)
    requires k in order
    ensures var n := PlaceOf(order, k);
      n < |order| && order == order[..n] + ([k] + order[n + 1..]) && k !in order[..n]
  {
    hide PlaceOf;
    var n := PlaceOf(order, k);
    forall i | 0 <= i < n ensures order[..n][i] != k { assert order[..n][i] == order[i]; }
    assert order[n..] == [k] + order[n + 1..];
    assert order == order[..n] + order[n..];
  }

  lemma {:induction false} SeenAfter(a: seq<string>, k: string, b: seq<string>, indexed: Indexed)
    requires k !in a
    ensures SeenIn(a + ([k] + b), indexed, k) <==> Admits(indexed, k) && |Counted(a, indexed)| < MAX_FIELD_KEYS_PER_PAGE
  {
    hide Counted;
    if Admits(indexed, k) {
      CountedParts(a, k, b, indexed);
      CountedMembers(a, indexed);
      hide Firsts;
      FirstsOf(Counted(a, indexed), k, Counted(b, indexed), MAX_FIELD_KEYS_PER_PAGE);
    } else {
      CountedMembers(a + ([k] + b), indexed);
    }
  }

  lemma CountedParts(a: seq<string>, k: string, b: seq<string>, indexed: Indexed)
    ensures Counted(a + ([k] + b), indexed)
      == Counted(a, indexed) + ((if Admits(indexed, k) then [k] else []) + Counted(b, indexed))
  {
    hide Counted;
    CountedAppend(a, [k] + b, indexed);
    CountedAppend([k], b, indexed);
    CountedOne(k, indexed);
  }

  lemma CountedOne(k: string, indexed: Indexed)
    ensures Counted([k], indexed) == if Admits(indexed, k) then [k] else []
  {
    assert [k][..0] == [] && Counted([], indexed) == [];
  }

  lemma FirstsOf(a: seq<string>, k: string, b: seq<string>, n: nat)
    requires k !in a
    ensures k in Firsts(a + ([k] + b), n) <==> |a| < n
  {
    var s := a + ([k] + b);
    assert s[|a|] == k;
    if |s| > n {
      if |a| < n { assert s[..n][|a|] == k; } else { assert s[..n] == a[..n]; }
    }
  }

  // ---------- what the cap lets through of a page that is written ----------

  /** Once the page is read again the caps leave room for this name, from those before it that come
      back. */
  predicate Room(fm: Front, indexed: Indexed, k: string) {
    Admits(indexed, k) && |Counted(ShownUpTo(fm, PlaceOf(fm.order, k)), indexed)| < MAX_FIELD_KEYS_PER_PAGE
  }

  lemma {:induction false} ShownBegins(fm: Front, n: nat, m: nat)
    requires n <= m <= |fm.order|
    ensures ShownUpTo(fm, n) <= ShownUpTo(fm, m)
  {
    hide Shows;
    if n < m { ShownBegins(fm, n, m - 1); }
  }

  lemma {:induction false} SeenInShown(fm: Front, indexed: Indexed, k: string)
    requires k in fm.at && Shows(k, fm.at[k])
    ensures SeenIn(Shown(fm), indexed, k) <==> Room(fm, indexed, k)
  {
    hide Shows, SeenIn, Counted, ShownUpTo;
    var n := PlaceOf(fm.order, k);
    var before, order := ShownUpTo(fm, n), Shown(fm);
    ShownNext(fm, n);
    ShownBegins(fm, n + 1, |fm.order|);
    ReadFrontOrder(fm, |fm.order|);
    assert NoRepeats(order);
    assert order[|before|] == (before + [k])[|before|] == k;
    PlaceIs(order, k, |before|);
    assert order[..|before|] == before;
    SeenAt(order, indexed, k);
  }

  lemma ShownNext(fm: Front, n: nat)
    requires n < |fm.order| && Shows(fm.order[n], fm.at[fm.order[n]])
    ensures ShownUpTo(fm, n + 1) == ShownUpTo(fm, n) + [fm.order[n]]
  {
    hide Shows;
  }

  /** What the index holds of a field of a page that is written. */
  lemma {:induction false} RereadValues(page: Page, indexed: Indexed, k: string)
    requires TameFront(page.fm)
    ensures FieldValues(Reread(page), indexed, k)
      == if k in page.fm.at && Shows(k, page.fm.at[k]) && Room(page.fm, indexed, k) then RowValues(ReadBack(page.fm.at[k]).value) else []
  {
    hide Reread, TameFront, SeenIn, Room, RowValues, ReadBack, Usable;
    RereadAt(page, k);
    if k in page.fm.at && Shows(k, page.fm.at[k]) { SeenInShown(page.fm, indexed, k); }
  }

  /** A page that was read shows all its names. */
  lemma {:induction false} ParsedValues(page: Page, indexed: Indexed, k: string)
    requires ParsedFront(page.fm)
    ensures FieldValues(page, indexed, k) == if k in page.fm.at && Room(page.fm, indexed, k) then RowValues(page.fm.at[k]) else []
  {
    hide SeenIn, Room, RowValues, Shows, ParsedFront;
    ParsedIsTame(page.fm);
    AllShown(page.fm, |page.fm.order|);
    assert page.fm.order[..|page.fm.order|] == page.fm.order;
    if k in page.fm.at { SeenInShown(page.fm, indexed, k); }
  }

  lemma {:induction false} ShownSame(a: Front, b: Front, n: nat)
    requires n <= |a.order| && n <= |b.order| && forall i :: 0 <= i < n ==> a.order[i] == b.order[i]
    requires forall i :: 0 <= i < n ==> (Shows(a.order[i], a.at[a.order[i]]) <==> Shows(a.order[i], b.at[a.order[i]]))
    ensures ShownUpTo(a, n) == ShownUpTo(b, n)
  {
    hide Shows;
    if n > 0 {
      assert a.order[n - 1] == b.order[n - 1];
      ShownSame(a, b, n - 1);
    }
  }

  lemma {:induction false} CountedShown(fm: Front, n: nat, indexed: Indexed)
    requires n <= |fm.order|
    ensures |Counted(ShownUpTo(fm, n), indexed)| <= |Counted(fm.order[..n], indexed)|
  {
    hide Shows, Counted;
    if n == 0 {
      assert fm.order[..0] == ShownUpTo(fm, 0) == [];
    } else {
      CountedShown(fm, n - 1, indexed);
      CountedGrows(fm.order[..n - 1], fm.order[n - 1], indexed);
      CountedGrows(ShownUpTo(fm, n - 1), fm.order[n - 1], indexed);
      assert fm.order[..n] == fm.order[..n - 1] + [fm.order[n - 1]];
      assert ShownUpTo(fm, n - 1) + [] == ShownUpTo(fm, n - 1);
    }
  }

  lemma CountedGrows(a: seq<string>, k: string, indexed: Indexed)
    ensures |Counted(a + [k], indexed)| == |Counted(a, indexed)| + (if Admits(indexed, k) then 1 else 0)
  {
    CountedAppend(a, [k], indexed);
    CountedOne(k, indexed);
  }

  lemma PlaceInPrefix(a: seq<string>, b: seq<string>, k: string)
    requires a <= b && k in a
    ensures PlaceOf(a, k) == PlaceOf(b, k) && a[..PlaceOf(a, k)] == b[..PlaceOf(a, k)]
  {
    var n, m := PlaceOf(a, k), PlaceOf(b, k);
    assert forall i :: 0 <= i <= n ==> b[i] == a[i];
  }

  /** Fields that are set after a page was read leave room for the names it had, and exactly as much
      when all those it had still come back. */
  lemma {:induction false} RoomStays(a: Front, b: Front, indexed: Indexed, k: string)
    requires ParsedFront(a) && k in a.at && a.order <= b.order
    ensures Room(a, indexed, k) ==> Room(b, indexed, k)
    ensures (forall j :: j in a.at ==> Shows(j, b.at[j])) ==> (Room(a, indexed, k) <==> Room(b, indexed, k))
  {
    hide Shows, Counted, ShownUpTo, ParsedFront;
    ParsedIsTame(a);
    var n := PlaceOf(a.order, k);
    PlaceInPrefix(a.order, b.order, k);
    AllShown(a, n);
    CountedShown(b, n, indexed);
    assert forall i :: 0 <= i < n ==> a.order[i] == b.order[i];
    if forall j :: j in a.at ==> Shows(j, b.at[j]) { AllShown(b, n); }
  }

  /** Setting the name itself does not take its room, nor does setting another that comes back as
      much as it did. */
  lemma {:induction false} RoomSet(fm: Front, j: string, v: Value, indexed: Indexed, k: string)
    requires j == k || (k in fm.at && (j in fm.at ==> (Shows(j, v) <==> Shows(j, fm.at[j]))))
    ensures Room(Set(fm, j, v), indexed, k) <==> Room(fm, indexed, k)
  {
    hide Shows, Counted, ShownUpTo, Set, PlaceOf;
    SetPlace(fm, j, v, k);
    SetShows(fm, j, v, PlaceOf(fm.order, k));
    assert forall i :: 0 <= i < |fm.order| ==> fm.order[i] == Set(fm, j, v).order[i];
    ShownSame(fm, Set(fm, j, v), PlaceOf(fm.order, k));
  }

  lemma SetPlace(fm: Front, j: string, v: Value, k: string)
    requires j == k || k in fm.at
    ensures var after, n := Set(fm, j, v), PlaceOf(fm.order, k);
      && PlaceOf(after.order, k) == n && fm.order <= after.order && fm.order[..n] == after.order[..n]
      && (j == k ==> j !in fm.order[..n])
  {
    hide Shows;
    var after := Set(fm, j, v);
    var n := PlaceOf(fm.order, k);
    if k in fm.order {
      PlaceInPrefix(fm.order, after.order, k);
    } else {
      assert after.order == fm.order + [k];
      PlaceIs(after.order, k, n);
    }
  }

  lemma SetShows(fm: Front, j: string, v: Value, n: nat)
    requires n <= |fm.order|
    requires j !in fm.order[..n] || (j in fm.at && (Shows(j, v) <==> Shows(j, fm.at[j])))
    ensures forall i :: 0 <= i < n ==>
      fm.order[i] in Set(fm, j, v).at && (Shows(fm.order[i], fm.at[fm.order[i]]) <==> Shows(fm.order[i], Set(fm, j, v).at[fm.order[i]]))
  {
    hide Shows;
    forall i | 0 <= i < n
      ensures Shows(fm.order[i], fm.at[fm.order[i]]) <==> Shows(fm.order[i], Set(fm, j, v).at[fm.order[i]])
    {
      assert fm.order[i] == fm.order[..n][i];
    }
  }

  // ---------- what a value lets through ----------

  lemma {:induction false} IndexedMembers(ss: seq<string>)
    ensures forall v :: v in IndexedValues(ss) <==> v != "" && exists i :: 0 <= i < |ss| && Cut(Trim(ss[i])) == v
  {
    hide Cut, Trim;
    if ss != [] {
      var init, last := ss[..|ss| - 1], ss[|ss| - 1];
      IndexedMembers(init);
      forall v ensures v in IndexedValues(ss) <==> v != "" && exists i :: 0 <= i < |ss| && Cut(Trim(ss[i])) == v {
        if v in IndexedValues(init) {
          var i :| 0 <= i < |init| && Cut(Trim(init[i])) == v;
          assert ss[i] == init[i];
        }
        if i :| 0 <= i < |ss| && Cut(Trim(ss[i])) == v {
          assert i == |ss| - 1 || ss[i] == init[i];
        }
      }
    }
  }

  /** No value the index holds is longer than the cap. */
  lemma KeysAreShort(indexed: Indexed, page: Page)
    ensures forall k :: k in KeysOf(indexed, page) ==> k != "" && |k| <= MAX_FIELD_VALUE_CHARS
  {
    hide SeenIn, RowValues;
    if SOURCE_KEY in page.fm.at { RowsAreShort(page.fm.at[SOURCE_KEY]); }
    if SOURCE_KEYS in page.fm.at { RowsAreShort(page.fm.at[SOURCE_KEYS]); }
  }

  lemma RowsAreShort(v: Value)
    ensures forall k :: k in RowValues(v) ==> k != "" && |k| <= MAX_FIELD_VALUE_CHARS
  {
    hide Trim, IndexedValues;
    match v
    case Block(_, _) =>
    case Plain(Scalar(s)) => IndexedMembers([s]);
    case Plain(List(items)) => IndexedMembers(Firsts(items, MAX_FIELD_LIST_ELEMENTS));
  }

  lemma OneValue(raw: string)
    ensures IndexedValues([raw]) == if Cut(Trim(raw)) == "" then [] else [Cut(Trim(raw))]
    ensures Trim(raw) != "" ==> Cut(Trim(raw)) != ""
  {
    hide Trim;
    assert [raw][..0] == [] && IndexedValues([]) == [];
  }

  lemma {:induction false} TrimmedRows(items: seq<string>)
    ensures IndexedValues(TrimAll(items)) == IndexedValues(items)
    decreases |items|
  {
    hide Trim, Cut;
    if items != [] {
      var n := |items| - 1;
      TrimmedRows(items[..n]);
      assert TrimAll(items)[..n] == TrimAll(items[..n]);
      TrimTwice(items[n]);
    }
  }

  /** What a second reading keeps of a binding: all of it, unless it is a list that becomes a
      block. */
  lemma {:induction false} AgainRows(v: Value)
    ensures RowValues(Again(v)) == if v.Plain? && v.flat.List? && !NoMapping(v.flat.items) then [] else RowValues(v)
  {
    hide Trim, MappingItem, IndexedValues;
    match v
    case Block(_, _) =>
    case Plain(Scalar(s)) =>
      TrimmedRows([s]);
      assert TrimAll([s]) == [Trim(s)];
    case Plain(List(items)) =>
      if NoMapping(items) {
        TrimmedRows(Firsts(items, MAX_FIELD_LIST_ELEMENTS));
        assert Firsts(TrimAll(items), MAX_FIELD_LIST_ELEMENTS) == TrimAll(Firsts(items, MAX_FIELD_LIST_ELEMENTS));
      }
  }

  // ---------- the key a page is bound to ----------

  /** What the index holds of a key that is written to a page: what comes back of it, cut to what a
      row holds, or nothing. */
  function ReadKeys(key: string): seq<string> {
    match ReadScalar(key)
    case None => []
    case Some(x) => IndexedValues([x])
  }

  /** The key is seen as it is. */
  predicate KeyBack(k: string) {
    Survives(k) && |Trim(k)| <= MAX_FIELD_VALUE_CHARS
  }

  lemma {:induction false} PrefixSurvives(t: string, c: string)
    requires c <= t && OnOneLine(t) && NoComment(t)
    ensures OnOneLine(c) && NoComment(c)
  {
    assert t == "" + c + t[|c|..];
    OneLinePart("", c, t[|c|..]);
    NoCommentPart("", c, t[|c|..]);
  }

  /** WHICH KEYS A PAGE IS SEEN TO CLAIM. A key is read back as itself exactly when it has no line end and no
      blank, hash and blank in it and is no longer than a row holds; and whatever is read back
      is such a key. */
  lemma {:induction false} ReadKeysIs(key: string)
    requires Trim(key) != ""
    ensures ReadKeys(key) == [Trim(key)] <==> KeyBack(key)
    ensures ReadKeys(key) == ReadKeys(Trim(key))
    ensures |ReadKeys(key)| <= 1
    ensures forall k :: k in ReadKeys(key) ==> k != "" && |k| <= MAX_FIELD_VALUE_CHARS && (Trim(k) == k ==> KeyBack(k))
  {
    ScalarKept(key);
    FlatOfTrim(key);
    TrimTwice(key);
    hide Trim, NoComment, OnOneLine, FlatText, ReadScalar, IndexedValues;
    assert ReadScalar(key) == ReadScalar(Trim(key)) by { SameScalar(key); }
    match ReadScalar(key)
    case None =>
    case Some(x) =>
      OneValue(x);
      var c := Cut(Trim(x));
      assert Survives(x);
      PrefixSurvives(Trim(x), c);
      if Survives(key) { TrimTwice(key); }
      if c != "" && Trim(c) == c { assert KeyBack(c); }
      if ReadKeys(key) == [Trim(key)] { assert c == Trim(key); }
  }

  lemma SameScalar(s: string)
    ensures ReadScalar(s) == ReadScalar(Trim(s))
  {
    FlatOfTrim(s);
    hide FlatText, Trim, NeedsQuoting, BeforeComment, StripQuotes;
  }

  // ---------- what the writes of a plan claim ----------

  lemma ReservedKeysDiffer()
    ensures SOURCE_KEY != SOURCE_KEYS && SOURCE_KEY != UPDATED && SOURCE_KEYS != UPDATED
    ensures RESERVED == {SOURCE_KEY, SOURCE_KEYS, UPDATED}
  {
    assert |SOURCE_KEY| != |SOURCE_KEYS| && |SOURCE_KEY| != |UPDATED| && |SOURCE_KEYS| != |UPDATED|;
  }

  predicate Words(s: string) {
    forall i :: 0 <= i < |s| ==> IsWordChar(s[i])
  }

  lemma WordsUsable(k: string)
    requires k != "" && k[0] != '-' && Words(k)
    ensures Usable(k)
  {
    WordRunIs(k, |k|);
    FenceStarts(k);
  }

  lemma WordsSum(a: string, b: string)
    requires Words(a) && Words(b)
    ensures Words(a + b)
  {
    hide IsWordChar;
  }

  lemma BindingWords()
    ensures Words("sour") && Words("ce_k") && Words("ey") && Words("eys")
  {
  }

  lemma UpdatedWords()
    ensures Words("upd") && Words("ated")
  {
  }

  lemma ReservedUsable()
    ensures Usable(SOURCE_KEY) && Usable(SOURCE_KEYS) && Usable(UPDATED)
  {
    BindingWords();
    UpdatedWords();
    hide Words, Usable, IsWordChar;
    WordsSum("sour", "ce_k");
    WordsSum("sour" + "ce_k", "ey");
    WordsSum("sour" + "ce_k", "eys");
    WordsSum("upd", "ated");
    assert "sour" + "ce_k" + "ey" == SOURCE_KEY && "sour" + "ce_k" + "eys" == SOURCE_KEYS && "upd" + "ated" == UPDATED;
    WordsUsable(SOURCE_KEY);
    WordsUsable(SOURCE_KEYS);
    WordsUsable(UPDATED);
  }

  lemma {:induction false} DayShows(today: Day)
    ensures ReadBack(Plain(Scalar(today))).Some?
  {
    DayOnLine(today);
    FlatOfTrim(today);
    TrimChars(today);
    hide Trim, FlatText, BeforeComment, StripQuotes;
    NoNewline(Trim(today));
    assert OnOneLine(Trim(today)) by { OnLineByChars(today, Trim(today)); }
  }

  lemma DayOnLine(today: Day)
    ensures OnOneLine(today)
  {
  }

  lemma OnLineByChars(s: string, t: string)
    requires OnOneLine(s) && forall c :: c in t ==> c in s
    ensures OnOneLine(t)
  {
    hide IsLineEnd;
    forall i | 0 <= i < |t| ensures !IsLineEnd(t[i]) {
      assert t[i] in s;
      var j :| 0 <= j < |s| && s[j] == t[i];
    }
  }

  // ---------- pages a write leaves in good order ----------

  /** No binding of the page is a list that reads as a mapping. */
  predicate FlatBindings(page: Page) {
    forall k :: k in {SOURCE_KEY, SOURCE_KEYS} && k in page.fm.at && page.fm.at[k].Plain? && page.fm.at[k].flat.List? ==>
      NoMapping(page.fm.at[k].flat.items)
  }

  /** Every binding the page has is within the caps, if it counts at all. */
  predicate InSight(page: Page, indexed: Indexed) {
    forall k :: k in {SOURCE_KEY, SOURCE_KEYS} && k in page.fm.at && Admits(indexed, k) ==> Room(page.fm, indexed, k)
  }

  /** What the write puts over the page's fields still comes back, if perhaps altered. */
  predicate StillShows(page: Page, r: Record, owned: seq<string>) {
    && ReadBack(Plain(Scalar(r.key))).Some?
    && forall k :: k in Moved(page.fm, r.fields, owned) && k in page.fm.at ==> ReadBack(Plain(r.fields.at[k])).Some?
  }

  predicate CalmPage(page: Page, r: Record, owned: seq<string>, indexed: Indexed) {
    FlatBindings(page) && (InSight(page, indexed) || StillShows(page, r, owned))
  }

  predicate OwnsNoReserved(owned: seq<string>) {
    forall k :: k in owned ==> k !in RESERVED
  }

  predicate TameMoves(page: Page, r: Record, owned: seq<string>) {
    forall k :: k in Moved(page.fm, r.fields, owned) ==> Tame(k)
  }

  lemma TameSet(fm: Front, k: string, v: Value)
    requires TameFront(fm) && Tame(k) && v.Plain?
    ensures TameFront(Set(fm, k, v))
  {
    hide Usable, Inert;
  }

  lemma {:induction false} TameMerged(page: Page, r: Record, owned: seq<string>)
    requires ParsedFront(page.fm) && TameMoves(page, r, owned)
    ensures TameFront(Merged(page.fm, r.fields, owned))
  {
    ParsedIsTame(page.fm);
    hide TameEntry, Moved, Merged, ParsedFront, Tame;
    var fm := Merged(page.fm, r.fields, owned);
    forall k | k in fm.at ensures TameEntry(k, fm.at[k]) {
      MergedAt(page.fm, r.fields, owned, k);
      if k in Moved(page.fm, r.fields, owned) { TamePlain(k, Plain(r.fields.at[k])); }
    }
  }

  lemma TamePlain(k: string, v: Value)
    ensures v.Plain? ==> (TameEntry(k, v) <==> Tame(k))
  {
    hide Usable, Inert;
  }

  lemma {:induction false} TameWrites(page: Page, r: Record, owned: seq<string>, today: Day)
    requires ParsedFront(page.fm) && TameMoves(page, r, owned)
    ensures TameFront(UpdatedPage(page, r, owned, today).fm) && TameFront(AdoptedPage(page, r, owned, today).fm)
  {
    TameMerged(page, r, owned);
    ReservedUsable();
    hide TameFront, Usable, Inert, Merged, Set;
    var fm := Merged(page.fm, r.fields, owned);
    TameSet(fm, UPDATED, Plain(Scalar(today)));
    TameSet(fm, SOURCE_KEY, Plain(Scalar(KeyOf(r))));
    TameSet(Set(fm, SOURCE_KEY, Plain(Scalar(KeyOf(r)))), UPDATED, Plain(Scalar(today)));
  }

  lemma {:induction false} TameCreated(r: Record, today: Day)
    requires forall k :: k in r.fields.at ==> Tame(k)
    ensures TameFront(CreatedPage(r, today).fm)
  {
    var fm := ToFront(r.fields);
    assert TameFront(fm) by {
      hide Tame, TameEntry;
      forall k | k in fm.at ensures TameEntry(k, fm.at[k]) { TamePlain(k, fm.at[k]); }
    }
    ReservedUsable();
    hide TameFront, Usable, Inert, Set;
    TameSet(fm, SOURCE_KEY, Plain(Scalar(r.key)));
    TameSet(Set(fm, SOURCE_KEY, Plain(Scalar(r.key))), UPDATED, Plain(Scalar(today)));
  }

  // ---------- what the writes of a plan claim ----------

  /** A page bound to a key claims what is read back of it, when there is room. */
  lemma {:induction false} BoundValues(page: Page, indexed: Indexed, key: string)
    requires TameFront(page.fm) && Get(page.fm, SOURCE_KEY) == Some(Plain(Scalar(key)))
    ensures FieldValues(Reread(page), indexed, SOURCE_KEY) == if Room(page.fm, indexed, SOURCE_KEY) then ReadKeys(key) else []
  {
    hide TameFront, Reread, Room, FieldValues, ReadScalar, Usable, IndexedValues;
    ReservedUsable();
    RereadValues(page, indexed, SOURCE_KEY);
  }

  /** The new page of a record claims its key, as far as the index sees it. */
  lemma {:induction false} CreatedKeys(r: Record, indexed: Indexed, today: Day)
    requires r.fields.at.Keys !! RESERVED && (forall k :: k in r.fields.at ==> Tame(k))
    ensures KeysOf(indexed, Reread(CreatedPage(r, today))) == if Room(ToFront(r.fields), indexed, SOURCE_KEY) then ReadKeys(r.key) else []
  {
    hide FieldValues, Reread, Room, Tame, ReadKeys, TameFront, Set;
    TameCreated(r, today);
    var page := CreatedPage(r, today);
    CreatedFields(r, today);
    BoundValues(page, indexed, r.key);
    RereadValues(page, indexed, SOURCE_KEYS);
    CreatedRoom(r, indexed, today);
  }

  lemma CreatedFields(r: Record, today: Day)
    requires r.fields.at.Keys !! RESERVED
    ensures Get(CreatedPage(r, today).fm, SOURCE_KEY) == Some(Plain(Scalar(r.key)))
    ensures SOURCE_KEYS !in CreatedPage(r, today).fm.at
  {
    ReservedKeysDiffer();
  }

  lemma {:induction false} CreatedRoom(r: Record, indexed: Indexed, today: Day)
    requires r.fields.at.Keys !! RESERVED
    ensures Room(CreatedPage(r, today).fm, indexed, SOURCE_KEY) <==> Room(ToFront(r.fields), indexed, SOURCE_KEY)
  {
    ReservedKeysDiffer();
    hide Room, Shows;
    var fm := ToFront(r.fields);
    assert UPDATED !in fm.at;
    RoomSet(fm, SOURCE_KEY, Plain(Scalar(r.key)), indexed, SOURCE_KEY);
    RoomSet(Set(fm, SOURCE_KEY, Plain(Scalar(r.key))), UPDATED, Plain(Scalar(today)), indexed, SOURCE_KEY);
  }

  /** A reserved field other than those that are set stays in a merge. */
  lemma {:induction false} ReservedStays(page: Page, r: Record, owned: seq<string>, k: string)
    requires OwnsNoReserved(owned) && k in RESERVED
    ensures Get(Merged(page.fm, r.fields, owned), k) == Get(page.fm, k)
    ensures page.fm.order <= Merged(page.fm, r.fields, owned).order
  {
    hide Merged;
    MergedAt(page.fm, r.fields, owned, k);
  }

  /** What is seen of a binding that a write leaves alone. */
  lemma {:induction false} BindingStays(page: Page, after: Page, indexed: Indexed, k: string)
    requires ParsedFront(page.fm) && TameFront(after.fm) && k in {SOURCE_KEY, SOURCE_KEYS}
    requires Get(after.fm, k) == Get(page.fm, k) && page.fm.order <= after.fm.order
    requires FlatBindings(page)
    requires InSight(page, indexed) || forall j :: j in page.fm.at ==> Shows(j, after.fm.at[j])
    ensures FieldValues(Reread(after), indexed, k) == FieldValues(page, indexed, k)
  {
    hide TameFront, Reread, FieldValues, ParsedValue, Shows, RowValues, Usable;
    ParsedValues(page, indexed, k);
    RereadValues(after, indexed, k);
    if k in page.fm.at {
      assert after.fm.at[k] == page.fm.at[k];
      ParsedIsTame(page.fm);
      ParsedReads(page.fm.at[k]);
      AgainRows(page.fm.at[k]);
      RoomStays(page.fm, after.fm, indexed, k);
      if !Admits(indexed, k) { assert !Room(page.fm, indexed, k) && !Room(after.fm, indexed, k); }
    } else {
      assert k !in after.fm.at;
    }
  }

  /** What was read still comes back after a calm write. */
  lemma {:induction false} WriteShows(page: Page, r: Record, owned: seq<string>, today: Day, adopted: bool)
    requires ParsedFront(page.fm) && StillShows(page, r, owned)
    ensures var after := if adopted then AdoptedPage(page, r, owned, today) else UpdatedPage(page, r, owned, today);
      forall j :: j in page.fm.at ==> j in after.fm.at && Shows(j, after.fm.at[j])
  {
    var after := if adopted then AdoptedPage(page, r, owned, today) else UpdatedPage(page, r, owned, today);
    DayShows(today);
    SameScalar(r.key);
    ParsedIsTame(page.fm);
    hide ReadBack, Moved, Merged, ReadScalar, Usable, ParsedValue;
    forall j | j in page.fm.at ensures j in after.fm.at && Shows(j, after.fm.at[j]) {
      MergedAt(page.fm, r.fields, owned, j);
      ShowsSame(r.key);
    }
  }

  lemma ShowsSame(key: string)
    ensures ReadBack(Plain(Scalar(key))).Some? <==> ReadBack(Plain(Scalar(Trim(key)))).Some?
  {
    SameScalar(key);
    hide ReadScalar, Trim;
  }

  /** An update keeps the claims the index sees. */
  lemma {:induction false} UpdatedKeys(page: Page, r: Record, owned: seq<string>, indexed: Indexed, today: Day)
    requires ParsedFront(page.fm) && OwnsNoReserved(owned)
    requires TameMoves(page, r, owned) && CalmPage(page, r, owned, indexed)
    ensures KeysOf(indexed, Reread(UpdatedPage(page, r, owned, today))) == KeysOf(indexed, page)
  {
    TameWrites(page, r, owned, today);
    UpdatedRest(page, r, owned, today, SOURCE_KEY);
    UpdatedRest(page, r, owned, today, SOURCE_KEYS);
    hide TameFront, Reread, FieldValues, UpdatedPage, AdoptedPage, TameMoves, Shows, InSight, FlatBindings,
      StillShows, ParsedFront;
    if StillShows(page, r, owned) { WriteShows(page, r, owned, today, false); }
    BindingStays(page, UpdatedPage(page, r, owned, today), indexed, SOURCE_KEY);
    BindingStays(page, UpdatedPage(page, r, owned, today), indexed, SOURCE_KEYS);
  }

  /** A page that claimed nothing claims the key it is bound to, as far as the index sees it. */
  lemma {:induction false} AdoptedKeys(page: Page, r: Record, owned: seq<string>, indexed: Indexed, today: Day)
    requires ParsedFront(page.fm) && OwnsNoReserved(owned) && KeysOf(indexed, page) == [] && Trim(r.key) != ""
    requires TameMoves(page, r, owned) && CalmPage(page, r, owned, indexed)
    ensures KeysOf(indexed, Reread(AdoptedPage(page, r, owned, today)))
      == if Room(Merged(page.fm, r.fields, owned), indexed, SOURCE_KEY) then ReadKeys(r.key) else []
  {
    AdoptedBound(page, r, owned, indexed, today);
    AdoptedAliases(page, r, owned, indexed, today);
    ReadKeysIs(r.key);
    hide FieldValues, AdoptedPage, Reread, Merged, Room, ReadKeys, CalmPage, TameMoves, KeyBack;
  }

  lemma {:induction false} AdoptedBound(page: Page, r: Record, owned: seq<string>, indexed: Indexed, today: Day)
    requires ParsedFront(page.fm) && OwnsNoReserved(owned) && TameMoves(page, r, owned)
    ensures FieldValues(Reread(AdoptedPage(page, r, owned, today)), indexed, SOURCE_KEY)
      == if Room(Merged(page.fm, r.fields, owned), indexed, SOURCE_KEY) then ReadKeys(KeyOf(r)) else []
  {
    ReservedKeysDiffer();
    TameWrites(page, r, owned, today);
    hide TameFront, Reread, FieldValues, Merged, TameMoves, ParsedFront, ReadKeys, Room, Trim;
    BoundValues(AdoptedPage(page, r, owned, today), indexed, KeyOf(r));
    AdoptedRoom(page, r, owned, indexed, today);
  }

  lemma {:induction false} AdoptedRest(page: Page, r: Record, owned: seq<string>, today: Day)
    requires OwnsNoReserved(owned)
    ensures var after := AdoptedPage(page, r, owned, today);
      Get(after.fm, SOURCE_KEYS) == Get(page.fm, SOURCE_KEYS) && page.fm.order <= after.fm.order
  {
    ReservedKeysDiffer();
    ReservedStays(page, r, owned, SOURCE_KEYS);
    hide Merged, Trim;
  }

  lemma {:induction false} UpdatedRest(page: Page, r: Record, owned: seq<string>, today: Day, k: string)
    requires OwnsNoReserved(owned) && k in {SOURCE_KEY, SOURCE_KEYS}
    ensures var after := UpdatedPage(page, r, owned, today);
      Get(after.fm, k) == Get(page.fm, k) && page.fm.order <= after.fm.order
  {
    ReservedKeysDiffer();
    ReservedStays(page, r, owned, k);
    hide Merged;
  }

  lemma {:induction false} AdoptedAliases(page: Page, r: Record, owned: seq<string>, indexed: Indexed, today: Day)
    requires ParsedFront(page.fm) && OwnsNoReserved(owned)
    requires TameMoves(page, r, owned) && CalmPage(page, r, owned, indexed)
    ensures FieldValues(Reread(AdoptedPage(page, r, owned, today)), indexed, SOURCE_KEYS) == FieldValues(page, indexed, SOURCE_KEYS)
  {
    TameWrites(page, r, owned, today);
    AdoptedRest(page, r, owned, today);
    hide TameFront, Reread, FieldValues, AdoptedPage, UpdatedPage, TameMoves, Shows, InSight, FlatBindings,
      StillShows, ParsedFront;
    if StillShows(page, r, owned) { WriteShows(page, r, owned, today, true); }
    BindingStays(page, AdoptedPage(page, r, owned, today), indexed, SOURCE_KEYS);
  }

  lemma {:induction false} AdoptedRoom(page: Page, r: Record, owned: seq<string>, indexed: Indexed, today: Day)
    requires ParsedFront(page.fm) && OwnsNoReserved(owned)
    ensures Room(AdoptedPage(page, r, owned, today).fm, indexed, SOURCE_KEY) <==> Room(Merged(page.fm, r.fields, owned), indexed, SOURCE_KEY)
  {
    ReservedKeysDiffer();
    ReservedStays(page, r, owned, UPDATED);
    DayShows(today);
    ReservedUsable();
    DayRoom(Merged(page.fm, r.fields, owned), page, KeyOf(r), indexed, today);
  }

  lemma {:induction false} DayRoom(fm: Front, page: Page, key: string, indexed: Indexed, today: Day)
    requires ParsedFront(page.fm) && Get(fm, UPDATED) == Get(page.fm, UPDATED) && SOURCE_KEY != UPDATED
    requires Shows(UPDATED, Plain(Scalar(today)))
    ensures Room(Set(Set(fm, SOURCE_KEY, Plain(Scalar(key))), UPDATED, Plain(Scalar(today))), indexed, SOURCE_KEY)
      <==> Room(fm, indexed, SOURCE_KEY)
  {
    ParsedIsTame(page.fm);
    hide Room, Shows, ParsedFront, TameFront;
    var bound := Set(fm, SOURCE_KEY, Plain(Scalar(key)));
    assert UPDATED in bound.at ==> UPDATED in page.fm.at && bound.at[UPDATED] == page.fm.at[UPDATED];
    RoomSet(fm, SOURCE_KEY, Plain(Scalar(key)), indexed, SOURCE_KEY);
    RoomSet(bound, UPDATED, Plain(Scalar(today)), indexed, SOURCE_KEY);
  }

  /** AN ALIAS LIST CAN BE LOST. An update leaves a page whose list of aliases has an item that reads
      as a mapping claiming none of them. */
  lemma {:induction false} AliasesLost(page: Page, r: Record, owned: seq<string>, indexed: Indexed, today: Day)
    requires ParsedFront(page.fm) && OwnsNoReserved(owned) && TameMoves(page, r, owned)
    requires SOURCE_KEYS in page.fm.at && page.fm.at[SOURCE_KEYS].Plain? && page.fm.at[SOURCE_KEYS].flat.List?
    requires !NoMapping(page.fm.at[SOURCE_KEYS].flat.items)
    ensures FieldValues(Reread(UpdatedPage(page, r, owned, today)), indexed, SOURCE_KEYS) == []
  {
    var after := UpdatedPage(page, r, owned, today);
    ReservedKeysDiffer();
    TameWrites(page, r, owned, today);
    hide TameFront, Reread, FieldValues, Merged, TameMoves, Room, RowValues, Again, Usable, ParsedValue;
    ReservedStays(page, r, owned, SOURCE_KEYS);
    RereadValues(after, indexed, SOURCE_KEYS);
    ParsedReads(page.fm.at[SOURCE_KEYS]);
    AgainRows(page.fm.at[SOURCE_KEYS]);
  }
}
