/** A page that is written and read again: which fields come back, and what is passed over. */
module FrontmatterPages {
  import opened Options
  import opened Texts
  import opened Frontmatter
  import opened FrontmatterValues

  // ---------- names ----------

  /** A name the reader finds again: letters, digits, underscores and dashes, and no fence. */
  predicate Usable(k: string) {
    k != "" && WordRun(k) == |k| && !IsFence(k)
  }

  predicate PassedOver(line: string) {
    !IsFence(line) && !WordColon(line)
  }

  /** A name that is written for nothing: the reader passes over each of its lines. */
  predicate Inert(k: string) {
    var ls := Lines(k + ":");
    && (ls[0] == "" || !IsSpace(ls[0][0]))
    && forall i :: 0 <= i < |ls| ==> PassedOver(ls[i])
  }

  predicate Tame(k: string) {
    Usable(k) || Inert(k)
  }

  /** A block as the reader makes it. */
  predicate Proper(v: Value) {
    v.Block? ==>
      && v.indicator in {"", "|", ">"} && v.raw != [] && !AllSimple(v.raw)
      && forall i :: 0 <= i < |v.raw| ==> Indented(v.raw[i]) && '\n' !in v.raw[i]
  }

  predicate TameEntry(k: string, v: Value) {
    (Usable(k) && Proper(v)) || (Inert(k) && v.Plain?)
  }

  predicate TameFront(fm: Front) {
    forall k :: k in fm.at ==> TameEntry(k, fm.at[k])
  }

  predicate TameUpTo(fm: Front, n: nat)
    requires n <= |fm.order|
  {
    forall i :: 0 <= i < n ==> TameEntry(fm.order[i], fm.at[fm.order[i]])
  }

  // ---------- what comes back ----------

  predicate Shows(k: string, v: Value) {
    Usable(k) && ReadBack(v).Some?
  }

  function Put(fm: Front, k: string, v: Value): Front {
    if Shows(k, v) then Set(fm, k, ReadBack(v).value) else fm
  }

  /** The first n fields of a page as the next reader finds them. */
  function ReadFront(fm: Front, n: nat): Front
    requires n <= |fm.order|
  {
    if n == 0 then NoFields() else Put(ReadFront(fm, n - 1), fm.order[n - 1], fm.at[fm.order[n - 1]])
  }

  /** The names among the first n that come back, in their order. */
  function ShownUpTo(fm: Front, n: nat): seq<string>
    requires n <= |fm.order|
  {
    if n == 0 then []
    else ShownUpTo(fm, n - 1) + (if Shows(fm.order[n - 1], fm.at[fm.order[n - 1]]) then [fm.order[n - 1]] else [])
  }

  function Shown(fm: Front): seq<string> {
    ShownUpTo(fm, |fm.order|)
  }

  // ---------- one line ----------

  lemma WordRunIs(s: string, n: nat)
    requires n <= |s| && (forall i :: 0 <= i < n ==> IsWordChar(s[i])) && (n < |s| ==> !IsWordChar(s[n]))
    ensures WordRun(s) == n
  {
  }

  lemma FenceStarts(line: string)
    ensures IsFence(line) <==> |line| >= 3 && line[0] == '-' && line[1] == '-' && line[2] == '-'
  {
    if |line| >= 3 { assert line[..3] == [line[0], line[1], line[2]]; }
    assert "---" == ['-', '-', '-'];
  }

  /** What a line that names a usable key is read as. */
  lemma KeyLineOf(k: string, head: string)
    requires Usable(k)
    ensures var line := k + ":" + head;
      && WordColon(line) && !IsFence(line)
      && KeyLine(line) == if OnOneLine(TrimStart(head)) then Some((k, TrimStart(head))) else None
  {
    hide TrimStart, OnOneLine;
    var line := k + ":" + head;
    assert line[|k|] == ':' && !IsWordChar(':');
    WordRunIs(line, |k|);
    assert line[..|k|] == k && line[|k| + 1..] == head;
    FenceStarts(line);
    FenceStarts(k);
  }

  lemma KeyLineIsPlain(k: string)
    requires Usable(k)
    ensures '\n' !in k
    ensures !IsSpace(k[0])
  {
  }

  lemma TrimStartKeeps(s: string)
    requires Texts.Bare(s)
    ensures TrimStart(s) == s && TrimStart(" " + s) == s
  {
    assert (" " + s)[1..] == s;
  }

  lemma SpacedStarts(line: string)
    requires line != "" && IsSpace(line[0])
    ensures PassedOver(line)
  {
    WordRunIs(line, 0);
    FenceStarts(line);
  }

  /** Lines that set nothing may be left out. */
  lemma {:induction false} SkipLines(a: seq<string>, b: seq<string>, fm: Front)
    requires forall i :: 0 <= i < |a| ==> PassedOver(a[i])
    ensures ReadLines(a + b, fm) == ReadLines(b, fm)
    decreases |a|
  {
    hide WordColon, IsFence;
    if a == [] {
      assert a + b == b;
    } else {
      assert (a + b)[1..] == a[1..] + b && (a + b)[0] == a[0];
      assert PassedOver(a[0]);
      SkipLines(a[1..], b, fm);
      ReadPast(a + b, fm);
    }
  }

  lemma ReadPast(ls: seq<string>, fm: Front)
    requires ls != [] && !WordColon(ls[0])
    ensures ReadLines(ls, fm) == ReadLines(ls[1..], fm)
  {
    assert KeyLine(ls[0]) == None;
  }

  // ---------- one entry ----------

  predicate StartsFresh(ls: seq<string>) {
    ls == [] || !Indented(ls[0])
  }

  lemma {:induction false} RunLengthIs(run: seq<string>, b: seq<string>)
    requires (forall i :: 0 <= i < |run| ==> Indented(run[i])) && StartsFresh(b)
    ensures RunLength(run + b) == |run|
    decreases |run|
  {
    hide Indented;
    if run == [] {
      assert run + b == b;
    } else {
      assert (run + b)[1..] == run[1..] + b && (run + b)[0] == run[0];
      RunLengthIs(run[1..], b);
    }
  }

  /** A key with nothing but a run of lines under it. */
  lemma ReadRun(k: string, head: string, run: seq<string>, b: seq<string>, fm: Front)
    requires Usable(k) && OnOneLine(TrimStart(head)) && BareRest(TrimStart(head))
    requires (forall i :: 0 <= i < |run| ==> Indented(run[i])) && StartsFresh(b)
    ensures ReadLines([k + ":" + head] + run + b, fm) == ReadLines(b, Set(fm, k, RunValue(TrimStart(head), run)))
  {
    hide Indented, TrimStart, Trim, OnOneLine, KeyLine, RunValue, BareRest;
    var ls := [k + ":" + head] + run + b;
    KeyLineOf(k, head);
    RunLengthIs(run, b);
    assert ls[0] == k + ":" + head && ls[1..] == run + b;
    assert ls[1 + |run|..] == b && ls[1..1 + |run|] == run;
  }

  lemma ReadOneLine(k: string, head: string, b: seq<string>, fm: Front)
    requires Usable(k) && !BareRest(TrimStart(head))
    ensures ReadLines([k + ":" + head] + b, fm)
      == ReadLines(b, if OnOneLine(TrimStart(head)) then Set(fm, k, RestValue(TrimStart(head))) else fm)
  {
    hide Indented, TrimStart, Trim, OnOneLine, KeyLine, RestValue, BareRest;
    var ls := [k + ":" + head] + b;
    KeyLineOf(k, head);
    assert ls[0] == k + ":" + head && ls[1..] == b;
  }

  lemma {:induction false} ReadScalarEntry(k: string, s: string, b: seq<string>, fm: Front)
    requires Usable(k)
    ensures ReadLines([k + ":" + (" " + ScalarText(s))] + b, fm) == ReadLines(b, Put(fm, k, Plain(Scalar(s))))
  {
    var text := ScalarText(s);
    ScalarShape(s);
    TrimStartKeeps(text);
    ScalarRest(text);
    hide ScalarText, FlatText, TrimStart, Trim, BareRest, RestValue;
    ReadOneLine(k, " " + text, b, fm);
  }

  lemma {:induction false} ScalarRest(text: string)
    requires Texts.Bare(text) && text[0] !in {'[', '|', '>'}
    ensures !BareRest(text) && RestValue(text) == Plain(Scalar(StripQuotes(Trim(BeforeComment(text)))))
  {
    BareIsTrimmed(text);
    CommentAfter(text);
    hide Trim, BeforeComment, StripQuotes, IsSpace;
    assert "|"[0] == '|' && ">"[0] == '>';
  }

  lemma CommentAfter(text: string)
    requires Texts.Bare(text)
    ensures var c := Trim(BeforeComment(text)); c != "" && c[0] == text[0]
  {
    var c := BeforeComment(text);
    assert c[0] == text[0];
    TrimEndKeepsFirst(c);
    assert TrimStart(c) == c;
  }

  lemma {:induction false} ReadEmptyList(k: string, b: seq<string>, fm: Front)
    requires Usable(k)
    ensures ReadLines([k + ":" + " []"] + b, fm) == ReadLines(b, Put(fm, k, Plain(List([]))))
  {
    EmptyListRest();
    hide RestValue, BareRest, TrimStart;
    ReadOneLine(k, " []", b, fm);
    assert FlatTexts([]) == [];
  }

  lemma EmptyListRest()
    ensures TrimStart(" []") == "[]" && OnOneLine("[]") && !BareRest("[]") && RestValue("[]") == Plain(List([]))
  {
    assert " []"[1..] == "[]";
    BareIsTrimmed("[]");
    assert BeforeComment("[]") == "[]" by {
      assert "[]"[1..] == "]" && "]"[1..] == "";
    }
    assert "[]"[1..1] == "";
  }

  lemma EmptyRest()
    ensures TrimStart("") == "" && OnOneLine("") && BareRest("") && Trim("") == ""
  {
  }

  lemma {:induction false} ReadListEntry(k: string, items: seq<string>, b: seq<string>, fm: Front)
    requires Usable(k) && items != [] && StartsFresh(b)
    ensures ReadLines([k + ":" + ""] + ItemLines(items) + b, fm) == ReadLines(b, Put(fm, k, Plain(List(items))))
  {
    EmptyRest();
    ItemsRead(items);
    hide Indented, Trim, TrimStart, AllSimple, ItemLines, NoMapping, FlatTexts, ItemTexts, OnOneLine,
      BareRest, ReadLines;
    assert ItemLines(items) != [];
    ReadRun(k, "", ItemLines(items), b, fm);
  }

  lemma BlockHead(indicator: string)
    requires indicator in {"", "|", ">"}
    ensures var head := if indicator == "" then "" else " " + indicator;
      TrimStart(head) == indicator && OnOneLine(indicator) && BareRest(indicator) && Trim(indicator) == indicator
  {
    if indicator == "" {
      EmptyRest();
    } else {
      TrimStartKeeps(indicator);
    }
  }

  lemma {:induction false} ReadBlockEntry(k: string, v: Value, b: seq<string>, fm: Front)
    requires Usable(k) && v.Block? && Proper(v) && StartsFresh(b)
    ensures ReadLines([k + ":" + HeadOf(v)] + v.raw + b, fm) == ReadLines(b, Put(fm, k, v))
  {
    BlockHead(v.indicator);
    hide Indented, Trim, TrimStart, AllSimple, OnOneLine, BareRest, ReadLines;
    ReadRun(k, HeadOf(v), v.raw, b, fm);
  }

  lemma HeadHasNoBreak(v: Value)
    requires Proper(v)
    ensures '\n' !in HeadOf(v)
  {
    if v.Plain? && v.flat.Scalar? {
      ScalarShape(v.flat.text);
      hide ScalarText, FlatText;
    }
  }

  /** The lines of an entry whose name is on one line. */
  lemma EntryIs(k: string, v: Value)
    requires Usable(k) && Proper(v)
    ensures EntryLines(k, v) == [k + ":" + HeadOf(v)] + TailOf(v)
  {
    HeadHasNoBreak(v);
    KeyLineIsPlain(k);
    hide HeadOf, TailOf, Usable;
    OneLine(k + ":" + HeadOf(v));
  }

  lemma OneEntryLine(line: string, b: seq<string>)
    ensures [line] + [] + b == [line] + b
  {
  }

  /** A usable name sets the field to what its value reads back as. */
  lemma {:induction false} ReadUsable(k: string, v: Value, b: seq<string>, fm: Front)
    requires Usable(k) && Proper(v) && StartsFresh(b)
    ensures ReadLines(EntryLines(k, v) + b, fm) == ReadLines(b, Put(fm, k, v))
  {
    EntryIs(k, v);
    hide Usable, ReadLines, EntryLines, Put, ScalarText, Proper, StartsFresh, ItemLines;
    OneEntryLine(k + ":" + HeadOf(v), b);
    match v
    case Block(_, _) => ReadBlockEntry(k, v, b, fm);
    case Plain(Scalar(s)) => ReadScalarEntry(k, s, b, fm);
    case Plain(List(items)) =>
      if items == [] {
        ReadEmptyList(k, b, fm);
        NoItems();
      } else {
        ReadListEntry(k, items, b, fm);
      }
  }

  lemma NoItems()
    ensures ItemLines([]) == []
  {
  }

  // ---------- names that are passed over ----------

  lemma PassedOverMore(line: string, head: string)
    requires line != "" && line[|line| - 1] == ':' && PassedOver(line)
    ensures PassedOver(line + head)
  {
    var n := WordRun(line);
    assert !IsWordChar(':');
    assert !IsWordChar(line[|line| - 1]) && n < |line|;
    assert (line + head)[n] == line[n];
    WordRunIs(line + head, n);
    FenceStarts(line);
    FenceStarts(line + head);
    assert (line + head)[|line| - 1] == ':';
  }

  /** The lines of a name, with what follows it on its last line. */
  lemma NameLines(k: string, head: string)
    requires '\n' !in head
    ensures var ls := Lines(k + ":");
      && ls[|ls| - 1] != "" && ls[|ls| - 1][|ls[|ls| - 1]| - 1] == ':'
      && Lines(k + ":" + head) == ls[..|ls| - 1] + [ls[|ls| - 1] + head]
  {
    hide Lines;
    LinesAppend(k, ":");
    OneLine(":");
    LinesAppend(k + ":", head);
    OneLine(head);
  }

  predicate AllPassedOver(ls: seq<string>) {
    forall i :: 0 <= i < |ls| ==> PassedOver(ls[i]) && '\n' !in ls[i]
  }

  lemma PassedOverSum(a: seq<string>, b: seq<string>)
    requires AllPassedOver(a) && AllPassedOver(b)
    ensures AllPassedOver(a + b)
  {
    hide PassedOver;
    forall i | 0 <= i < |a + b| ensures PassedOver((a + b)[i]) && '\n' !in (a + b)[i] {
      if i < |a| { assert (a + b)[i] == a[i]; } else { assert (a + b)[i] == b[i - |a|]; }
    }
  }

  lemma {:induction false} InertLines(k: string, v: Flat)
    requires Inert(k)
    ensures AllPassedOver(EntryLines(k, Plain(v))) && EntryLines(k, Plain(v)) != []
    ensures StartsFresh(EntryLines(k, Plain(v)))
  {
    var head, tail := HeadOf(Plain(v)), TailOf(Plain(v));
    HeadHasNoBreak(Plain(v));
    InertNameLines(k, head);
    TailSpaced(v);
    hide HeadOf, TailOf, Lines, AllPassedOver, Indented, Inert;
    PassedOverSum(Lines(k + ":" + head), tail);
    assert (Lines(k + ":" + head) + tail)[0] == Lines(k + ":" + head)[0];
  }

  lemma {:induction false} InertNameLines(k: string, head: string)
    requires Inert(k) && '\n' !in head
    ensures AllPassedOver(Lines(k + ":" + head)) && StartsFresh(Lines(k + ":" + head))
  {
    var ls := Lines(k + ":");
    NameLines(k, head);
    hide Lines, PassedOver, IsSpace, Trim;
    var init, last := ls[..|ls| - 1], ls[|ls| - 1];
    assert PassedOver(last);
    PassedOverMore(last, head);
    assert AllPassedOver(init) && AllPassedOver([last + head]);
    PassedOverSum(init, [last + head]);
    var first := (init + [last + head])[0];
    assert first == if |ls| == 1 then last + head else ls[0];
    if first != "" && ls[0] != "" { assert first[0] == ls[0][0]; }
  }

  lemma {:induction false} TailSpaced(v: Flat)
    ensures AllPassedOver(TailOf(Plain(v)))
  {
    if v.List? {
      ItemsRead(v.items);
      hide ItemLines, PassedOver;
      forall i | 0 <= i < |v.items| ensures PassedOver(ItemLines(v.items)[i]) {
        SpacedStarts(ItemLines(v.items)[i]);
      }
    }
  }

  lemma {:induction false} ReadInert(k: string, v: Flat, b: seq<string>, fm: Front)
    requires Inert(k)
    ensures ReadLines(EntryLines(k, Plain(v)) + b, fm) == ReadLines(b, fm)
  {
    hide Inert, EntryLines, PassedOver, ReadLines, StartsFresh;
    InertLines(k, v);
    SkipLines(EntryLines(k, Plain(v)), b, fm);
  }

  lemma UsableNameLine(k: string)
    requires Usable(k)
    ensures WordColon(Lines(k + ":")[0])
  {
    KeyLineOf(k, "");
    KeyLineIsPlain(k);
    OneLine(k + ":");
    assert k + ":" + "" == k + ":";
  }

  lemma InertIsNotUsable(k: string)
    requires Inert(k)
    ensures !Usable(k)
  {
    hide Usable, WordColon;
    if Usable(k) { UsableNameLine(k); }
  }

  // ---------- the whole block ----------

  lemma {:induction false} ReadTame(k: string, v: Value, b: seq<string>, fm: Front)
    requires TameEntry(k, v) && StartsFresh(b)
    ensures ReadLines(EntryLines(k, v) + b, fm) == ReadLines(b, Put(fm, k, v))
  {
    hide Inert, EntryLines, ReadLines, Usable, Proper, ReadBack;
    if Usable(k) && Proper(v) {
      ReadUsable(k, v, b, fm);
    } else {
      InertIsNotUsable(k);
      ReadInert(k, v.flat, b, fm);
    }
  }

  /** An entry starts with a line of its own and holds no fence. */
  lemma {:induction false} EntryClean(k: string, v: Value)
    requires TameEntry(k, v)
    ensures EntryLines(k, v) != [] && StartsFresh(EntryLines(k, v))
    ensures forall i :: 0 <= i < |EntryLines(k, v)| ==> !IsFence(EntryLines(k, v)[i]) && '\n' !in EntryLines(k, v)[i]
  {
    if Usable(k) && Proper(v) {
      UsableClean(k, v);
    } else {
      hide Inert;
      InertLines(k, v.flat);
      hide EntryLines, TameEntry, StartsFresh;
    }
  }

  lemma {:induction false} UsableClean(k: string, v: Value)
    requires Usable(k) && Proper(v)
    ensures StartsFresh(EntryLines(k, v))
    ensures forall i :: 0 <= i < |EntryLines(k, v)| ==> !IsFence(EntryLines(k, v)[i]) && '\n' !in EntryLines(k, v)[i]
  {
    EntryIs(k, v);
    KeyLineOf(k, HeadOf(v));
    KeyLineIsPlain(k);
    HeadHasNoBreak(v);
    TailClean(v);
    hide EntryLines, HeadOf, TailOf, Usable, Proper, IsFence, IsSpace, KeyLine, WordColon;
    assert (k + ":" + HeadOf(v))[0] == k[0];
  }

  lemma {:induction false} TailClean(v: Value)
    requires Proper(v)
    ensures forall i :: 0 <= i < |TailOf(v)| ==> !IsFence(TailOf(v)[i]) && '\n' !in TailOf(v)[i]
  {
    match v
    case Plain(f) => TailSpaced(f);
    case Block(_, raw) =>
      forall i | 0 <= i < |raw| ensures !IsFence(raw[i]) { SpacedStarts(raw[i]); }
  }

  lemma {:induction false} BlockClean(fm: Front, n: nat)
    requires n <= |fm.order| && TameUpTo(fm, n)
    ensures forall i :: 0 <= i < |BlockLines(fm, n)| ==> !IsFence(BlockLines(fm, n)[i]) && '\n' !in BlockLines(fm, n)[i]
  {
    hide TameEntry, EntryLines, IsFence;
    if n > 0 {
      BlockClean(fm, n - 1);
      EntryClean(fm.order[n - 1], fm.at[fm.order[n - 1]]);
    }
  }

  lemma {:induction false} ReadBlock(fm: Front, n: nat, b: seq<string>)
    requires n <= |fm.order| && TameUpTo(fm, n) && StartsFresh(b)
    ensures ReadLines(BlockLines(fm, n) + b, NoFields()) == ReadLines(b, ReadFront(fm, n))
  {
    hide TameEntry, EntryLines, ReadLines, Indented, Put;
    if n == 0 {
      assert [] + b == b;
    } else {
      var k := fm.order[n - 1];
      var e := EntryLines(k, fm.at[k]);
      EntryClean(k, fm.at[k]);
      assert (e + b)[0] == e[0];
      ReadBlock(fm, n - 1, e + b);
      ReadTame(k, fm.at[k], b, ReadFront(fm, n - 1));
      assert BlockLines(fm, n - 1) + e + b == BlockLines(fm, n - 1) + (e + b);
    }
  }

  // ---------- the whole page ----------

  lemma {:induction false} LinesOfJoin(ls: seq<string>)
    requires |ls| >= 1 && forall i :: 0 <= i < |ls| ==> '\n' !in ls[i]
    ensures Lines(JoinLines(ls)) == ls
  {
    if |ls| == 1 {
      OneLine(ls[0]);
    } else {
      LinesOfJoin(ls[1..]);
      hide Lines;
      LinesAppend(ls[0], "\n" + JoinLines(ls[1..]));
      OneLine(ls[0]);
      BreakLines(JoinLines(ls[1..]));
      assert [ls[0] + ""] + ls[1..] == ls by { assert ls[0] + "" == ls[0]; }
      assert ([""] + ls[1..])[1..] == ls[1..];
    }
  }

  lemma BreakLines(s: string)
    ensures Lines("\n" + s) == [""] + Lines(s)
  {
    assert ("\n" + s)[1..] == s;
  }

  lemma {:induction false} JoinOfLines(s: string)
    ensures JoinLines(Lines(s)) == s
  {
    if s != "" {
      JoinOfLines(s[1..]);
      var ls := Lines(s[1..]);
      assert s == [s[0]] + s[1..];
      if s[0] == '\n' {
        assert ([""] + ls)[1..] == ls;
        assert "" + ("\n" + JoinLines(ls)) == "\n" + JoinLines(ls);
      } else {
        JoinPrepend(s[0], ls);
      }
    }
  }

  lemma JoinPrepend(c: char, ls: seq<string>)
    requires |ls| >= 1
    ensures JoinLines([[c] + ls[0]] + ls[1..]) == [c] + JoinLines(ls)
  {
    var ms := [[c] + ls[0]] + ls[1..];
    assert ms[1..] == ls[1..];
    if |ls| > 1 {
      assert ([c] + ls[0]) + ("\n" + JoinLines(ls[1..])) == [c] + (ls[0] + ("\n" + JoinLines(ls[1..])));
    }
  }

  lemma MeetBreaks(h: seq<string>)
    requires |h| >= 1
    ensures Meet(h, ["", "", ""]) == h + ["", ""]
  {
    assert h[|h| - 1] + "" == h[|h| - 1];
    assert h == h[..|h| - 1] + [h[|h| - 1]];
  }

  lemma MeetBody(h: seq<string>, ls: seq<string>)
    requires |ls| >= 1
    ensures Meet(h + ["", ""], ls) == h + ([""] + ls)
  {
    assert "" + ls[0] == ls[0];
    assert (h + ["", ""])[..|h| + 1] == h + [""];
    assert [ls[0]] + ls[1..] == ls;
  }

  lemma TwoBreaks()
    ensures Lines("\n\n") == ["", "", ""]
  {
    BreakLines("\n");
    BreakLines("");
    OneLine("");
    assert "\n" + "" == "\n" && "\n" + "\n" == "\n\n";
  }

  /** A page's text, line by line. */
  lemma {:induction false} TextLines(h: seq<string>, body: string)
    requires |h| >= 1 && forall i :: 0 <= i < |h| ==> '\n' !in h[i]
    ensures Lines(JoinLines(h) + "\n\n" + body) == h + ([""] + Lines(body))
  {
    LinesOfJoin(h);
    TwoBreaks();
    hide Lines, JoinLines, Meet;
    LinesAppend(JoinLines(h), "\n\n");
    MeetBreaks(h);
    LinesAppend(JoinLines(h) + "\n\n", body);
    MeetBody(h, Lines(body));
  }

  lemma FirstFence(ls: seq<string>, n: nat)
    requires 1 <= n < |ls| && IsFence(ls[n]) && forall j :: 1 <= j < n ==> !IsFence(ls[j])
    ensures FenceAt(ls, 1) == n
  {
    hide IsFence;
  }

  /** A block between two fences, and a body after an empty line. */
  lemma {:induction false} ReadText(block: seq<string>, body: string)
    requires forall i :: 0 <= i < |block| ==> !IsFence(block[i]) && '\n' !in block[i]
    ensures ReadPage(JoinLines(["---"] + block + ["---"]) + "\n\n" + body) == Page(ReadLines(block, NoFields()), body)
  {
    hide ReadLines, IsFence, Lines, JoinLines;
    var h := ["---"] + block + ["---"];
    var ls := h + ([""] + Lines(body));
    forall i | 0 <= i < |h| ensures '\n' !in h[i] {
      if 0 < i <= |block| { assert h[i] == block[i - 1]; } else { FenceIs(); assert h[i] == "---"; }
    }
    TextLines(h, body);
    FenceIs();
    forall j | 1 <= j < |block| + 1 ensures !IsFence(ls[j]) { assert ls[j] == block[j - 1]; }
    assert ls[|block| + 1] == "---";
    FirstFence(ls, |block| + 1);
    assert ls[1..|block| + 1] == block && ls[|block| + 2..] == [""] + Lines(body);
    assert ls[0] == "---";
    BodyRead(body);
  }

  lemma FenceIs()
    ensures IsFence("---") && '\n' !in "---"
  {
  }

  lemma BodyRead(body: string)
    ensures BodyAfter([""] + Lines(body)) == body
  {
    JoinOfLines(body);
    assert ([""] + Lines(body))[1..] == Lines(body);
    assert "" + ("\n" + body) == "\n" + body;
    assert ("\n" + body)[1..] == body;
  }

  /** WHAT IS WRITTEN IS READ AGAIN, field by field: what each value reads back as, under the names the
      reader knows, and the body less the newlines it starts with. */
  lemma {:induction false} RereadIs(page: Page)
    requires TameFront(page.fm)
    ensures Reread(page) == Page(ReadFront(page.fm, |page.fm.order|), DropNewlines(page.body))
  {
    hide ReadLines, TameEntry, BlockLines, JoinLines, ReadPage, IsFence, ReadFront;
    var n := |page.fm.order|;
    assert TameUpTo(page.fm, n);
    BlockClean(page.fm, n);
    ReadText(BlockLines(page.fm, n), DropNewlines(page.body));
    ReadBlock(page.fm, n, []);
    assert BlockLines(page.fm, n) + [] == BlockLines(page.fm, n);
    NothingLeft(ReadFront(page.fm, n));
  }
}
