/** What reading makes of any page, what a second reading changes, and lines that leave no trace. */
module FrontmatterReads {
  import opened Options
  import opened Texts
  import opened Frontmatter
  import opened FrontmatterValues
  import opened FrontmatterPages

  // ---------- fields that come back ----------

  /** A field as it comes back. */
  function Back(k: string, v: Option<Value>): Option<Value> {
    if v.Some? && Shows(k, v.value) then ReadBack(v.value) else None
  }

  lemma NewName(fm: Front, n: nat)
    requires 0 < n <= |fm.order|
    ensures fm.order[..n] == fm.order[..n - 1] + [fm.order[n - 1]] && fm.order[n - 1] !in fm.order[..n - 1]
  {
  }

  lemma {:induction false} ReadFrontOrder(fm: Front, n: nat)
    requires n <= |fm.order|
    ensures ReadFront(fm, n).order == ShownUpTo(fm, n)
    ensures forall j :: j in ShownUpTo(fm, n) ==> j in fm.order[..n]
  {
    hide Shows, ReadBack;
    if n > 0 {
      ReadFrontOrder(fm, n - 1);
      NewName(fm, n);
    }
  }

  lemma {:induction false} ReadFrontAt(fm: Front, n: nat, k: string)
    requires n <= |fm.order|
    ensures Get(ReadFront(fm, n), k) == if k in fm.order[..n] then Back(k, Get(fm, k)) else None
  {
    hide Shows, ReadBack;
    if n > 0 {
      ReadFrontAt(fm, n - 1, k);
      NewName(fm, n);
      PutAt(ReadFront(fm, n - 1), fm.order[n - 1], fm.at[fm.order[n - 1]], k);
      hide ReadFront, Put, Back;
      ReadFrontStep(fm, n);
      if k == fm.order[n - 1] { NoneBefore(fm, n); }
    }
  }

  lemma PutAt(fm: Front, j: string, v: Value, k: string)
    ensures Get(Put(fm, j, v), k) == if j == k && Shows(j, v) then ReadBack(v) else Get(fm, k)
    ensures Back(j, Some(v)) == if Shows(j, v) then ReadBack(v) else None
  {
  }

  lemma ReadFrontStep(fm: Front, n: nat)
    requires 0 < n <= |fm.order|
    ensures ReadFront(fm, n) == Put(ReadFront(fm, n - 1), fm.order[n - 1], fm.at[fm.order[n - 1]])
  {
  }

  lemma NoneBefore(fm: Front, n: nat)
    requires 0 < n <= |fm.order|
    ensures Get(fm, fm.order[n - 1]) == Some(fm.at[fm.order[n - 1]])
  {
  }

  /** Of a page whose names are tame: each field is what its value comes back as, and the names that
      come back keep their order. */
  lemma {:induction false} RereadAt(page: Page, k: string)
    requires TameFront(page.fm)
    ensures Get(Reread(page).fm, k) == Back(k, Get(page.fm, k))
    ensures Reread(page).fm.order == Shown(page.fm)
    ensures Reread(page).body == DropNewlines(page.body)
  {
    hide Back, TameFront, Reread, ReadFront, ShownUpTo;
    RereadIs(page);
    var n := |page.fm.order|;
    ReadFrontAt(page.fm, n, k);
    ReadFrontOrder(page.fm, n);
    assert page.fm.order[..n] == page.fm.order;
    NotThere(page.fm, k);
  }

  lemma NotThere(fm: Front, k: string)
    ensures k !in fm.order ==> Back(k, Get(fm, k)) == None
  {
  }

  // ---------- what reading makes ----------

  predicate ParsedValue(v: Value) {
    match v
    case Block(_, _) => Proper(v)
    case Plain(Scalar(s)) => OnOneLine(s) && NoComment(s)
    case Plain(List(items)) => forall i :: 0 <= i < |items| ==> '\n' !in items[i]
  }

  predicate ParsedFront(fm: Front) {
    forall k :: k in fm.at ==> Usable(k) && ParsedValue(fm.at[k])
  }

  lemma {:induction false} UnescapeChars(s: string)
    ensures forall c :: c in Unescape(s) ==> c in s
    decreases |s|
  {
    if s != "" {
      if |s| > 1 && s[0] == '\\' && (s[1] == '"' || s[1] == '\\') {
        UnescapeChars(s[2..]);
      } else {
        UnescapeChars(s[1..]);
      }
    }
  }

  lemma {:induction false} UnescapeQuotesChars(s: string)
    ensures forall c :: c in UnescapeQuotes(s) ==> c in s
    decreases |s|
  {
    if s != "" {
      if |s| > 1 && s[0] == '\\' && s[1] == '"' {
        UnescapeQuotesChars(s[2..]);
      } else {
        UnescapeQuotesChars(s[1..]);
      }
    }
  }

  lemma TrimChars(s: string)
    ensures forall c :: c in Trim(s) ==> c in s
    ensures forall c :: c in TrimStart(s) ==> c in s
  {
    var l, r := TrimSplit(s);
    var l' := TrimStartSplit(s);
    hide Trim, TrimStart;
    forall c | c in Trim(s) ensures c in s {
      var i :| 0 <= i < |Trim(s)| && Trim(s)[i] == c;
      assert s[|l| + i] == c;
    }
    forall c | c in TrimStart(s) ensures c in s {
      var i :| 0 <= i < |TrimStart(s)| && TrimStart(s)[i] == c;
      assert s[|l'| + i] == c;
    }
  }

  /** Taking quotes off invents no character. */
  lemma {:induction false} StripChars(s: string)
    ensures forall c :: c in StripQuotes(s) ==> c in s
  {
    var t := Trim(s);
    TrimChars(s);
    hide Trim, Unescape, UnescapeQuotes;
    if |t| >= 2 {
      UnescapeChars(t[1..|t| - 1]);
      UnescapeQuotesChars(t[1..|t| - 1]);
      assert forall c :: c in t[1..|t| - 1] ==> c in t;
    }
  }

  lemma {:induction false} SplitChars(s: string)
    ensures forall i, c :: 0 <= i < |CommaParts(s)| && c in CommaParts(s)[i] ==> c in s
  {
    if s != "" {
      SplitChars(s[1..]);
      var rest := CommaParts(s[1..]);
      assert forall c :: c in s[1..] ==> c in s;
      forall i, c | 0 <= i < |CommaParts(s)| && c in CommaParts(s)[i] ensures c in s {
        if s[0] == ',' {
          if i > 0 { assert CommaParts(s)[i] == rest[i - 1]; }
        } else if i > 0 {
          assert CommaParts(s)[i] == rest[i];
        } else {
          assert CommaParts(s)[0] == [s[0]] + rest[0];
        }
      }
    }
  }

  /** The value on a key's own line. */
  lemma {:induction false} RestParsed(rest: string)
    requires OnOneLine(rest)
    ensures ParsedValue(RestValue(rest))
  {
    var cleaned := Trim(BeforeComment(rest));
    ScalarParsed(rest);
    CleanedChars(rest);
    hide Trim, BeforeComment, StripQuotes, OnOneLine, ParsedValue, StripEach, CommaParts;
    if cleaned != "" && cleaned[0] == '[' && cleaned[|cleaned| - 1] == ']' {
      var inner := if |cleaned| > 1 then Trim(cleaned[1..|cleaned| - 1]) else "";
      if |cleaned| > 1 { TrimChars(cleaned[1..|cleaned| - 1]); }
      InlineItems(inner);
    }
  }

  lemma ScalarParsed(rest: string)
    requires OnOneLine(rest)
    ensures ParsedValue(Plain(Scalar(StripQuotes(Trim(BeforeComment(rest))))))
  {
    CutFacts(rest);
    hide Trim, BeforeComment, StripQuotes, OnOneLine, NoComment, Hashes;
  }

  lemma CleanedChars(rest: string)
    requires OnOneLine(rest)
    ensures '\n' !in Trim(BeforeComment(rest))
  {
    BeforeCommentIs(rest);
    TrimChars(BeforeComment(rest));
    NoNewline(rest);
    hide Trim, BeforeComment, OnOneLine, NoComment, Hashes;
    assert forall c :: c in BeforeComment(rest) ==> c in rest;
  }

  lemma {:induction false} InlineItems(inner: string)
    requires '\n' !in inner
    ensures ParsedValue(Plain(List(if inner == "" then [] else StripEach(CommaParts(inner)))))
  {
    SplitChars(inner);
    var parts := CommaParts(inner);
    hide StripQuotes, CommaParts;
    forall i | 0 <= i < |parts| ensures '\n' !in StripEach(parts)[i] {
      StripChars(parts[i]);
    }
  }

  lemma {:induction false} RunParsed(rest: string, run: seq<string>)
    requires BareRest(rest) && forall i :: 0 <= i < |run| ==> Indented(run[i]) && '\n' !in run[i]
    ensures ParsedValue(RunValue(rest, run))
  {
    if run == [] {
      NothingRead();
    } else if AllSimple(run) {
      hide AllSimple, ItemText, Indented;
      forall i | 0 <= i < |run| ensures '\n' !in ItemTexts(run)[i] {
        ItemChars(run[i]);
      }
    }
  }

  lemma NothingRead()
    ensures OnOneLine("") && NoComment("")
  {
  }

  lemma {:induction false} ItemChars(line: string)
    ensures forall c :: c in ItemText(line) ==> c in line
  {
    var t := TrimStart(line);
    TrimChars(line);
    hide TrimStart, StripQuotes, Trim;
    if |t| > 1 {
      StripChars(t[2..]);
      assert forall c :: c in t[2..] ==> c in t;
    }
  }

  lemma KeyIsUsable(line: string)
    requires !IsFence(line) && KeyLine(line).Some?
    ensures Usable(KeyLine(line).value.0) && OnOneLine(KeyLine(line).value.1)
  {
    var n := WordRun(line);
    WordRunIs(line[..n], n);
    FenceStarts(line);
    FenceStarts(line[..n]);
  }

  lemma ParsedSet(fm: Front, k: string, v: Value)
    requires ParsedFront(fm) && Usable(k) && ParsedValue(v)
    ensures ParsedFront(Set(fm, k, v))
  {
  }

  lemma {:induction false} ReadLinesParsed(ls: seq<string>, fm: Front)
    requires ParsedFront(fm) && forall i :: 0 <= i < |ls| ==> !IsFence(ls[i]) && '\n' !in ls[i]
    ensures ParsedFront(ReadLines(ls, fm))
    decreases |ls|
  {
    hide ParsedFront, ParsedValue, Usable, IsFence, BareRest, Indented, OnOneLine, KeyLine, RunValue, RestValue;
    if ls != [] {
      match KeyLine(ls[0])
      case None => ReadLinesParsed(ls[1..], fm);
      case Some((k, rest)) =>
        KeyIsUsable(ls[0]);
        if BareRest(rest) {
          var n := RunLength(ls[1..]);
          var run := ls[1..1 + n];
          RunParsed(rest, run);
          ParsedSet(fm, k, RunValue(rest, run));
          ReadLinesParsed(ls[1 + n..], Set(fm, k, RunValue(rest, run)));
        } else {
          RestParsed(rest);
          ParsedSet(fm, k, RestValue(rest));
          ReadLinesParsed(ls[1..], Set(fm, k, RestValue(rest)));
        }
    }
  }

  /** Whatever the text: the names are ones the reader knows, scalars are on one line and hold no
      comment, list items hold no newline, and a block is one the reader would make again. */
  lemma {:induction false} ReadPageParsed(md: string)
    ensures ParsedFront(ReadPage(md).fm)
  {
    hide ReadLines, IsFence, ParsedValue, OddFence;
    var ls := Lines(md);
    if ls[0] == "---" && |ls| > 1 {
      var n := FenceAt(ls, 1);
      if n < |ls| { ReadLinesParsed(ls[1..n], NoFields()); }
    }
  }

  // ---------- a second reading ----------

  /** What reading, writing and reading again makes of a value: only outer blanks go, but a list with
      an item that reads as a mapping becomes a block. */
  function Again(v: Value): Value {
    match v
    case Block(_, _) => v
    case Plain(Scalar(s)) => Plain(Scalar(Trim(s)))
    case Plain(List(items)) => if NoMapping(items) then Plain(List(TrimAll(items))) else Block("", ItemLines(items))
  }

  function AgainOf(v: Option<Value>): Option<Value> {
    if v.Some? then Some(Again(v.value)) else None
  }

  lemma {:induction false} ParsedReads(v: Value)
    requires ParsedValue(v)
    ensures Proper(v) && ReadBack(v) == Some(Again(v))
  {
    hide MappingItem, FlatText;
    match v
    case Block(_, _) =>
    case Plain(Scalar(s)) =>
      SurvivesTrim(s);
      ScalarKept(s);
    case Plain(List(items)) =>
      forall i | 0 <= i < |items| ensures FlatText(items[i]) == Trim(items[i]) {
        FlatOfTrim(items[i]);
        TrimChars(items[i]);
      }
      assert FlatTexts(items) == TrimAll(items);
  }

  lemma ParsedIsTame(fm: Front)
    requires ParsedFront(fm)
    ensures TameFront(fm)
    ensures forall k :: k in fm.at ==> Shows(k, fm.at[k])
  {
    hide Usable, ParsedValue, Proper, ReadBack, Inert;
    forall k | k in fm.at ensures TameEntry(k, fm.at[k]) && Shows(k, fm.at[k]) {
      ParsedReads(fm.at[k]);
    }
  }

  /** Written and read a second time, nothing moves any more. */
  lemma {:induction false} AgainTwice(v: Value)
    requires ParsedValue(v)
    ensures ParsedValue(Again(v)) && Again(Again(v)) == Again(v)
  {
    match v
    case Block(_, _) =>
    case Plain(Scalar(s)) =>
      TrimTwice(s);
      SurvivesTrim(s);
    case Plain(List(items)) =>
      hide MappingItem, Trim, Proper;
      if NoMapping(items) {
        forall i | 0 <= i < |items|
          ensures Trim(TrimAll(items)[i]) == TrimAll(items)[i] && !MappingItem(TrimAll(items)[i]) && '\n' !in TrimAll(items)[i]
        {
          TrimTwice(items[i]);
          SameMapping(items[i]);
          TrimChars(items[i]);
        }
        assert TrimAll(TrimAll(items)) == TrimAll(items);
      } else {
        MappingBlock(items);
      }
  }

  lemma SameMapping(s: string)
    ensures MappingItem(Trim(s)) == MappingItem(s)
  {
    FlatOfTrim(s);
    hide Trim, FlatText;
  }

  lemma {:induction false} MappingBlock(items: seq<string>)
    requires !NoMapping(items)
    ensures Proper(Block("", ItemLines(items)))
  {
    ItemsRead(items);
    hide MappingItem, SimpleItem, Indented, ItemLines, IsFence;
  }

  /** WRITING WHAT WAS READ SETTLES: a page that is read, written and read again loses outer blanks,
      leading newlines of its body and lists that read as mappings, and from then on nothing. */
  lemma {:induction false} ReadTwice(md: string)
    ensures var page := Reread(ReadPage(md));
      && Reread(page) == page
      && (forall k :: Get(page.fm, k) == AgainOf(Get(ReadPage(md).fm, k)))
  {
    hide ReadPage, Reread, ParsedValue, Again, Usable, Back, ShownUpTo, DropNewlines;
    var page := Reread(ReadPage(md));
    ReadPageParsed(md);
    OnceMore(ReadPage(md));
    AgainParsed(ReadPage(md), page);
    OnceMore(page);
    forall k ensures Get(Reread(page).fm, k) == Get(page.fm, k) {
      assert Get(page.fm, k) == AgainOf(Get(ReadPage(md).fm, k));
      if Get(ReadPage(md).fm, k).Some? { AgainTwice(ReadPage(md).fm.at[k]); }
    }
    SameFront(Reread(page).fm, page.fm);
    DroppedTwice(ReadPage(md).body);
  }

  lemma {:induction false} DroppedTwice(s: string)
    ensures DropNewlines(DropNewlines(s)) == DropNewlines(s)
  {
    if s != "" && s[0] == '\n' { DroppedTwice(s[1..]); }
  }

  lemma SameFront(a: Front, b: Front)
    requires a.order == b.order && forall k :: Get(a, k) == Get(b, k)
    ensures a == b
  {
    forall k ensures k in a.at <==> k in b.at { assert Get(a, k) == Get(b, k); }
    forall k | k in a.at ensures a.at[k] == b.at[k] { assert Get(a, k) == Get(b, k); }
    assert a.at == b.at;
  }

  lemma AgainParsed(page: Page, again: Page)
    requires ParsedFront(page.fm)
    requires forall k :: Get(again.fm, k) == AgainOf(Get(page.fm, k))
    ensures ParsedFront(again.fm)
  {
    hide ParsedValue, Again, Usable;
    forall k | k in again.fm.at ensures Usable(k) && ParsedValue(again.fm.at[k]) {
      assert Get(again.fm, k) == Some(again.fm.at[k]);
      assert k in page.fm.at;
      AgainTwice(page.fm.at[k]);
    }
  }

  /** A page that was read, written and read again. */
  lemma {:induction false} OnceMore(page: Page)
    requires ParsedFront(page.fm)
    ensures Reread(page).fm.order == page.fm.order && Reread(page).body == DropNewlines(page.body)
    ensures forall k :: Get(Reread(page).fm, k) == AgainOf(Get(page.fm, k))
  {
    hide Reread, ParsedValue, Again, Usable, ReadBack, TameEntry;
    ParsedIsTame(page.fm);
    AllShown(page.fm, |page.fm.order|);
    assert page.fm.order[..|page.fm.order|] == page.fm.order;
    RereadAt(page, "");
    forall k ensures Get(Reread(page).fm, k) == AgainOf(Get(page.fm, k)) {
      RereadAt(page, k);
      if k in page.fm.at { ParsedReads(page.fm.at[k]); }
    }
  }

  lemma {:induction false} AllShown(fm: Front, n: nat)
    requires n <= |fm.order| && forall i :: 0 <= i < n ==> Shows(fm.order[i], fm.at[fm.order[i]])
    ensures ShownUpTo(fm, n) == fm.order[..n]
  {
    hide Shows;
    if n > 0 {
      AllShown(fm, n - 1);
      assert fm.order[..n] == fm.order[..n - 1] + [fm.order[n - 1]];
    }
  }

  // ---------- lines that leave no trace ----------

  /** How many lines one step of reading takes, and what it makes of the fields so far. */
  function StepEnd(ls: seq<string>): (n: nat)
    requires ls != []
    ensures 1 <= n <= |ls|
  {
    match KeyLine(ls[0])
    case None => 1
    case Some((_, rest)) => if BareRest(rest) then 1 + RunLength(ls[1..]) else 1
  }

  function StepFront(ls: seq<string>, fm: Front): Front
    requires ls != []
  {
    match KeyLine(ls[0])
    case None => fm
    case Some((k, rest)) =>
      if BareRest(rest) then Set(fm, k, RunValue(rest, ls[1..1 + RunLength(ls[1..])])) else Set(fm, k, RestValue(rest))
  }

  lemma ReadStep(ls: seq<string>, fm: Front)
    requires ls != []
    ensures ReadLines(ls, fm) == ReadLines(ls[StepEnd(ls)..], StepFront(ls, fm))
  {
    hide KeyLine, BareRest, RunValue, RestValue;
  }

  lemma StepAppend(a: seq<string>, b: seq<string>, fm: Front)
    requires a != [] && StartsFresh(b)
    ensures StepEnd(a + b) == StepEnd(a) && StepFront(a + b, fm) == StepFront(a, fm)
  {
    hide KeyLine, BareRest, RunValue, RestValue, Indented;
    assert (a + b)[1..] == a[1..] + b && (a + b)[0] == a[0];
    RunLengthAppend(a[1..], b);
    var n := RunLength(a[1..]);
    assert (a + b)[1..1 + n] == a[1..1 + n];
  }

  lemma {:induction false} ReadLinesAppend(a: seq<string>, b: seq<string>, fm: Front)
    requires StartsFresh(b)
    ensures ReadLines(a + b, fm) == ReadLines(b, ReadLines(a, fm))
    decreases |a|
  {
    hide StepEnd, StepFront, ReadLines, StartsFresh;
    if a == [] {
      assert a + b == b;
      NothingLeft(fm);
    } else {
      ReadStep(a, fm);
      ReadStep(a + b, fm);
      StepAppend(a, b, fm);
      var n := StepEnd(a);
      assert (a + b)[n..] == a[n..] + b;
      ReadLinesAppend(a[n..], b, StepFront(a, fm));
    }
  }

  lemma {:induction false} RunLengthAppend(a: seq<string>, b: seq<string>)
    requires StartsFresh(b)
    ensures RunLength(a + b) == RunLength(a)
    decreases |a|
  {
    hide Indented;
    if a == [] {
      assert a + b == b;
    } else {
      assert (a + b)[1..] == a[1..] + b && (a + b)[0] == a[0];
      RunLengthAppend(a[1..], b);
    }
  }

  /** A PAGE READS THE SAME without lines that set no field, when neither the first of them nor the
      line after them is indented: a name with a blank in it, a comment, a list that is not
      indented. */
  lemma {:induction false} UnreadLines(a: seq<string>, lost: seq<string>, b: seq<string>, body: string)
    requires forall i :: 0 <= i < |a + lost + b| ==> !IsFence((a + lost + b)[i]) && '\n' !in (a + lost + b)[i]
    requires forall i :: 0 <= i < |lost| ==> !WordColon(lost[i])
    requires StartsFresh(lost + b) && StartsFresh(b)
    ensures ReadPage(JoinLines(["---"] + (a + lost + b) + ["---"]) + "\n\n" + body)
         == ReadPage(JoinLines(["---"] + (a + b) + ["---"]) + "\n\n" + body)
  {
    hide JoinLines, ReadPage, ReadLines, IsFence, WordColon, Indented;
    forall i | 0 <= i < |a + b| ensures !IsFence((a + b)[i]) && '\n' !in (a + b)[i] {
      assert (a + b)[i] == (a + lost + b)[if i < |a| then i else i + |lost|];
    }
    ReadText(a + lost + b, body);
    ReadText(a + b, body);
    ReadLinesAppend(a, lost + b, NoFields());
    ReadLinesAppend(a, b, NoFields());
    assert a + lost + b == a + (lost + b);
    forall i | 0 <= i < |lost| ensures PassedOver(lost[i]) {
      assert lost[i] == (a + lost + b)[|a| + i];
    }
    SkipLines(lost, b, ReadLines(a, NoFields()));
  }

  /** None of them is in a page that is written under usable names: every line of its block
      belongs to a field. */
  lemma {:induction false} WrittenLines(fm: Front, n: nat, i: nat)
    requires forall k :: k in fm.at ==> Usable(k) && Proper(fm.at[k])
    requires n <= |fm.order| && i < |BlockLines(fm, n)|
    ensures WordColon(BlockLines(fm, n)[i]) || Indented(BlockLines(fm, n)[i])
  {
    hide Proper, Usable, WordColon, Indented, EntryLines;
    if i < |BlockLines(fm, n - 1)| {
      WrittenLines(fm, n - 1, i);
    } else {
      var k := fm.order[n - 1];
      EntryRead(k, fm.at[k], i - |BlockLines(fm, n - 1)|);
    }
  }

  lemma {:induction false} EntryRead(k: string, v: Value, i: nat)
    requires Usable(k) && Proper(v) && i < |EntryLines(k, v)|
    ensures WordColon(EntryLines(k, v)[i]) || Indented(EntryLines(k, v)[i])
  {
    EntryIs(k, v);
    KeyLineOf(k, HeadOf(v));
    TailIndented(v);
    hide EntryLines, WordColon, Indented, HeadOf, TailOf, Usable, KeyLine, Proper;
    HeadThenTail(k + ":" + HeadOf(v), TailOf(v), i);
  }

  lemma HeadThenTail(line: string, tail: seq<string>, i: nat)
    requires i < |[line] + tail|
    ensures ([line] + tail)[i] == if i == 0 then line else tail[i - 1]
  {
  }

  lemma {:induction false} TailIndented(v: Value)
    requires Proper(v)
    ensures forall i :: 0 <= i < |TailOf(v)| ==> Indented(TailOf(v)[i])
  {
    hide ItemLines, Indented;
    if v.Plain? && v.flat.List? { ItemsRead(v.flat.items); }
  }

  // ---------- names the reader takes for others ----------

  lemma {:induction false} BlockBegins(fm: Front, n: nat, m: nat)
    requires n <= m <= |fm.order|
    ensures BlockLines(fm, n) <= BlockLines(fm, m)
  {
    hide EntryLines;
    if n < m { BlockBegins(fm, n, m - 1); }
  }

  predicate OnLines(v: Value) {
    forall i :: 0 <= i < |TailOf(v)| ==> '\n' !in TailOf(v)[i]
  }

  lemma {:induction false} BlockOnLines(fm: Front, n: nat)
    requires n <= |fm.order| && forall k :: k in fm.at ==> OnLines(fm.at[k])
    ensures forall i :: 0 <= i < |BlockLines(fm, n)| ==> '\n' !in BlockLines(fm, n)[i]
  {
    hide TailOf, HeadOf;
    if n > 0 { BlockOnLines(fm, n - 1); }
  }

  lemma {:induction false} FencedEntry(k: string, v: Value)
    requires IsFence(k) && '\n' !in k && Proper(v)
    ensures EntryLines(k, v) != [] && IsFence(EntryLines(k, v)[0]) && OnLines(v)
  {
    HeadHasNoBreak(v);
    TailClean(v);
    hide HeadOf, TailOf;
    var line := k + ":" + HeadOf(v);
    OneLine(line);
    FenceStarts(k);
    FenceStarts(line);
  }

  /** Reading stops at the first fence. */
  lemma {:induction false} CutText(all: seq<string>, n: nat, body: string)
    requires n < |all| && IsFence(all[n]) && (forall i :: 0 <= i < n ==> !IsFence(all[i]))
    requires forall i :: 0 <= i < |all| ==> '\n' !in all[i]
    ensures ReadPage(JoinLines(["---"] + all + ["---"]) + "\n\n" + body).fm == ReadLines(all[..n], NoFields())
  {
    hide ReadLines, IsFence, JoinLines, Lines;
    var h := ["---"] + all + ["---"];
    var ls := h + ([""] + Lines(body));
    FenceIs();
    forall i | 0 <= i < |h| ensures '\n' !in h[i] {
      if 0 < i <= |all| { assert h[i] == all[i - 1]; } else { assert h[i] == "---"; }
    }
    TextLines(h, body);
    forall i | 0 <= i < |all| ensures ls[i + 1] == all[i] { assert h[i + 1] == all[i]; }
    forall j | 1 <= j < n + 1 ensures !IsFence(ls[j]) { assert ls[j] == all[j - 1]; }
    FirstFence(ls, n + 1);
    assert ls[1..n + 1] == all[..n];
    assert ls[0] == "---";
  }

  /** A NAME THAT STARTS WITH A FENCE ends the block: what is listed after it is not read. */
  lemma {:induction false} FenceName(page: Page, n: nat)
    requires n < |page.fm.order| && TameUpTo(page.fm, n)
    requires IsFence(page.fm.order[n]) && '\n' !in page.fm.order[n]
    requires forall k :: k in page.fm.at ==> Proper(page.fm.at[k])
    ensures Reread(page).fm == ReadFront(page.fm, n)
  {
    var fm, m := page.fm, |page.fm.order|;
    var k := fm.order[n];
    FencedEntry(k, fm.at[k]);
    forall j | j in fm.at ensures OnLines(fm.at[j]) { TailClean(fm.at[j]); }
    BlockOnLines(fm, m);
    BlockBegins(fm, n + 1, m);
    BlockClean(fm, n);
    ReadBlock(fm, n, []);
    NothingLeft(ReadFront(fm, n));
    NextEntry(fm, n);
    hide ReadFront, ReadLines, EntryLines, IsFence, TameUpTo, Proper, OnLines, JoinLines, Lines, BlockLines,
      ReadPage;
    var all, some := BlockLines(fm, m), BlockLines(fm, n);
    assert all[..|some|] == some;
    forall i | 0 <= i < |some| ensures !IsFence(all[i]) { assert all[i] == some[i]; }
    CutText(all, |some|, DropNewlines(page.body));
    assert some + [] == some;
  }

  lemma NextEntry(fm: Front, n: nat)
    requires n < |fm.order| && EntryLines(fm.order[n], fm.at[fm.order[n]]) != []
    requires BlockLines(fm, n + 1) <= BlockLines(fm, |fm.order|)
    ensures |BlockLines(fm, n)| < |BlockLines(fm, |fm.order|)| && BlockLines(fm, n) <= BlockLines(fm, |fm.order|)
    ensures BlockLines(fm, |fm.order|)[|BlockLines(fm, n)|] == EntryLines(fm.order[n], fm.at[fm.order[n]])[0]
  {
    hide EntryLines;
    var some, next, all := BlockLines(fm, n), BlockLines(fm, n + 1), BlockLines(fm, |fm.order|);
    assert next == some + EntryLines(fm.order[n], fm.at[fm.order[n]]);
    hide BlockLines;
    assert next[|some|] == all[|some|];
    assert next[..|some|] == some;
  }

  lemma ColonText(k: string, t: string, text: string)
    ensures k + ":" + t + ":" + (" " + text) == k + ":" + (t + ": " + text)
  {
    assert ":" + (" " + text) == ": " + text;
  }

  /** A NAME WITH A COLON IN IT sets the field before the colon. */
  lemma {:induction false} ColonName(k: string, t: string, s: string, b: seq<string>, fm: Front)
    requires Usable(k) && '\n' !in t
    requires var rest := TrimStart(t + ": " + ScalarText(s)); OnOneLine(rest) && !BareRest(rest)
    ensures ReadLines(EntryLines(k + ":" + t, Plain(Scalar(s))) + b, fm)
         == ReadLines(b, Set(fm, k, RestValue(TrimStart(t + ": " + ScalarText(s)))))
  {
    var head := t + ": " + ScalarText(s);
    ScalarShape(s);
    KeyLineIsPlain(k);
    hide TrimStart, ScalarText, OnOneLine, BareRest, RestValue, ReadLines, Usable, Lines;
    var line := k + ":" + head;
    ColonText(k, t, ScalarText(s));
    OneLine(line);
    ReadOneLine(k, head, b, fm);
    assert EntryLines(k + ":" + t, Plain(Scalar(s))) == [line];
  }

  /** So of a page that lists such a name last. */
  lemma {:induction false} ColonField(page: Page, k: string, t: string, s: string)
    requires page.fm.order != [] && page.fm.order[|page.fm.order| - 1] == k + ":" + t
    requires page.fm.at[k + ":" + t] == Plain(Scalar(s)) && TameUpTo(page.fm, |page.fm.order| - 1)
    requires Usable(k) && '\n' !in t
    requires var rest := TrimStart(t + ": " + ScalarText(s)); OnOneLine(rest) && !BareRest(rest)
    ensures Reread(page).fm == Set(ReadFront(page.fm, |page.fm.order| - 1), k, RestValue(TrimStart(t + ": " + ScalarText(s))))
  {
    var fm, n := page.fm, |page.fm.order| - 1;
    var entry := EntryLines(k + ":" + t, Plain(Scalar(s)));
    ColonLine(k, t, s);
    BlockClean(fm, n);
    CleanWith(BlockLines(fm, n), entry);
    ColonBlock(fm, n, k, t, s);
    hide ReadLines, EntryLines, Usable, TameUpTo, RestValue, ScalarText, TrimStart, OnOneLine, BareRest,
      IsFence, JoinLines, ReadPage, ReadFront, Indented;
    assert BlockLines(fm, n + 1) == BlockLines(fm, n) + entry;
    hide BlockLines;
    ReadText(BlockLines(fm, n) + entry, DropNewlines(page.body));
  }

  lemma {:induction false} ColonBlock(fm: Front, n: nat, k: string, t: string, s: string)
    requires n <= |fm.order| && TameUpTo(fm, n) && Usable(k) && '\n' !in t
    requires var rest := TrimStart(t + ": " + ScalarText(s)); OnOneLine(rest) && !BareRest(rest)
    ensures ReadLines(BlockLines(fm, n) + EntryLines(k + ":" + t, Plain(Scalar(s))), NoFields())
         == Set(ReadFront(fm, n), k, RestValue(TrimStart(t + ": " + ScalarText(s))))
  {
    var entry := EntryLines(k + ":" + t, Plain(Scalar(s)));
    ColonLine(k, t, s);
    hide ReadLines, EntryLines, Usable, TameUpTo, RestValue, ScalarText, TrimStart, OnOneLine, BareRest,
      IsFence, ReadFront, Indented, BlockLines;
    ReadBlock(fm, n, entry);
    ColonName(k, t, s, [], ReadFront(fm, n));
    assert entry + [] == entry;
    NothingLeft(Set(ReadFront(fm, n), k, RestValue(TrimStart(t + ": " + ScalarText(s)))));
  }

  lemma CleanWith(a: seq<string>, b: seq<string>)
    requires forall i :: 0 <= i < |a| ==> !IsFence(a[i]) && '\n' !in a[i]
    requires forall i :: 0 <= i < |b| ==> !IsFence(b[i]) && '\n' !in b[i]
    ensures forall i :: 0 <= i < |a + b| ==> !IsFence((a + b)[i]) && '\n' !in (a + b)[i]
  {
    hide IsFence;
    forall i | 0 <= i < |a + b| ensures !IsFence((a + b)[i]) && '\n' !in (a + b)[i] {
      if i < |a| { assert (a + b)[i] == a[i]; } else { assert (a + b)[i] == b[i - |a|]; }
    }
  }

  lemma ColonLine(k: string, t: string, s: string)
    requires Usable(k) && '\n' !in t
    ensures var entry := EntryLines(k + ":" + t, Plain(Scalar(s)));
      |entry| == 1 && !IsFence(entry[0]) && '\n' !in entry[0] && StartsFresh(entry)
  {
    var head := t + ": " + ScalarText(s);
    ScalarShape(s);
    KeyLineIsPlain(k);
    KeyLineOf(k, head);
    hide ScalarText, Usable, Lines, IsFence, KeyLine, IsSpace;
    var line := k + ":" + head;
    ColonText(k, t, ScalarText(s));
    OneLine(line);
    assert EntryLines(k + ":" + t, Plain(Scalar(s))) == [line];
    assert line[0] == k[0];
  }
}
