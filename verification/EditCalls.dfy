/** A whole call of applyPageEdits: its edits in order, then the append. */
module EditCalls {
  // What a call with both comes to is what its parts come to one after another: the result is that
  // of any way of cutting the call in two, refusals included. An append goes below the edited text
  // and keeps the snapshots there; whether it is itself outside every snapshot depends on whether
  // one is left open above it.

  import opened Options
  import opened Texts
  import opened PageEdits
  import opened EditBatches
  import opened EditSnapshots

  // ---------- one call or two ----------

  lemma {:induction false} EditAllSplit(body: string, es: seq<Edit>, fs: seq<Edit>)
    ensures EditAll(body, es + fs) == match EditAll(body, es) case Ok(next) => EditAll(next, fs) case Err(why) => Err(why)
    decreases |es|
  {
    hide EditOnce;
    if es == [] {
      assert es + fs == fs;
    } else {
      assert (es + fs)[0] == es[0] && (es + fs)[1..] == es[1..] + fs;
      if EditOnce(body, es[0]).Ok? { EditAllSplit(EditOnce(body, es[0]).body, es[1..], fs); }
    }
  }

  /** ONE CALL IS TWO. A call with some edits, then others or an append, comes to what two calls come to,
      the first with the first edits alone and the second on the body it left; and when the first
      is refused, so is the one, for the same reason. */
  lemma CallInTwo(body: string, es: seq<Edit>, fs: seq<Edit>, append: Option<string>)
    requires es != [] && (fs != [] || append.Some?)
    ensures PageEdited(body, append, es + fs) ==
      match PageEdited(body, None, es)
      case Ok(next) => PageEdited(next, append, fs)
      case Err(why) => Err(why)
  {
    hide EditAll, Appended;
    EditAllSplit(body, es, fs);
  }

  /** An edit is made when its anchor is not empty and one of its hits is outside the snapshots; else
      the refusal says how it missed: nowhere, only inside snapshots, or how many times outside. */
  lemma EditRefusals(body: string, e: Edit)
    ensures EditOnce(body, e) == Err(EmptyFind) <==> e.find == ""
    ensures EditOnce(body, e) == Err(NotFound) <==> e.find != "" && forall i :: !OccursAt(body, e.find, i)
    ensures EditOnce(body, e) == Err(OnlyGenerated) <==> e.find != "" && (exists i :: OccursAt(body, e.find, i)) && LiveHits(body, e.find) == []
    ensures forall n :: EditOnce(body, e) == Err(Ambiguous(n)) <==> e.find != "" && n == |LiveHits(body, e.find)| && n > 1
  {
    hide OnlyLive, Live;
    if e.find != "" {
      NoHitsNoLive(body, |e.find|);
      assert Hits(body, e.find, 0) == [] <==> forall i :: !OccursAt(body, e.find, i) by { hide OccursAt; }
    }
  }

  /** Each edit of the batch has one live hit on the text the ones before it left. */
  predicate EachOnce(body: string, es: seq<Edit>)
    decreases |es|
  {
    es == [] || (es[0].find != "" && |LiveHits(body, es[0].find)| == 1
                 && EachOnce(Replaced2(body, LiveHits(body, es[0].find)[0], es[0]), es[1..]))
  }

  lemma {:induction false} EditAllIff(body: string, es: seq<Edit>)
    ensures EditAll(body, es).Ok? <==> EachOnce(body, es)
    decreases |es|
  {
    hide EditOnce, LiveHits, Replaced2;
    if es != [] {
      EditOkIff(body, es[0]);
      if EditOnce(body, es[0]).Ok? { EditAllIff(EditOnce(body, es[0]).body, es[1..]); }
    }
  }

  /** WHEN A CALL IS MADE: each edit has one live hit in its turn, and there is text to append, or nothing
      is appended and there is an edit. */
  lemma CallMadeIff(body: string, append: Option<string>, es: seq<Edit>)
    ensures PageEdited(body, append, es).Ok? <==>
      EachOnce(body, es) && (if append.Some? then !Blank(append.value) else es != [])
  {
    hide EditAll, EachOnce;
    EditAllIff(body, es);
    if append.Some? {
      BlankTrimmed(append.value);
    }
  }

  lemma BlankTrimmed(t: string)
    ensures Trim(TrimEnd(t)) == "" <==> Blank(t)
  {
    var r := TrimEndSplit(t);
    var l, r' := TrimSplit(TrimEnd(t));
    hide Trim, TrimEnd, IsSpace;
    assert t == (l + Trim(TrimEnd(t)) + r') + r;
    BlankSum(l + Trim(TrimEnd(t)) + r', r);
    BlankSum(l + Trim(TrimEnd(t)), r');
    BlankSum(l, Trim(TrimEnd(t)));
    assert Trim(TrimEnd(t)) != "" ==> !Blank(Trim(TrimEnd(t)));
  }

  // ---------- the append and the snapshots ----------

  lemma {:induction false} OpenAtAfter(a: seq<string>, b: seq<string>, i: nat)
    requires i <= |b|
    ensures OpenAt(a + b, false, |a| + i) == OpenAt(b, OpenAt(a, false, |a|), i)
  {
    hide OpenAfter;
    if i > 0 {
      OpenAtAfter(a, b, i - 1);
      assert (a + b)[|a| + i - 1] == b[i - 1];
    } else {
      assert (a + b)[..|a|] == a;
      OpenAtWithin(a, a + b, |a|);
    }
  }

  lemma {:induction false} OpenAtWithin(a: seq<string>, b: seq<string>, i: nat)
    requires i <= |a| && i <= |b| && forall k :: 0 <= k < i ==> Trim(a[k]) == Trim(b[k])
    ensures OpenAt(a, false, i) == OpenAt(b, false, i)
  {
    hide Trim;
    if i > 0 { OpenAtWithin(a, b, i - 1); }
  }

  /** A snapshot is open at the end of the text. */
  predicate LeftOpen(body: string) {
    OpenAt(Lines(body), false, |Lines(body)|)
  }

  /** Where the lines of the addition begin. */
  function AppendedFrom(body: string): nat {
    if TrimEnd(body) == "" then 0 else |Lines(TrimEnd(body))| + 1
  }

  /** The lines of a text and of what is left of it without the blanks at its end. */
  lemma {:induction false} TrimmedLines(body: string)
    ensures var ls, bs := Lines(body), Lines(TrimEnd(body));
      var j := |bs| - 1;
      && |bs| <= |ls|
      && (forall i :: 0 <= i < j ==> ls[i] == bs[i])
      && bs[j] <= ls[j] && Trim(bs[j]) == Trim(ls[j]) && Blank(ls[j][|bs[j]|..])
      && (forall i :: j < i < |ls| ==> Blank(ls[i]))
  {
    var r := TrimEndSplit(body);
    var base := TrimEnd(body);
    hide Lines, TrimEnd, IsSpace;
    LinesAppend(base, r);
    BlankLines(r);
    var bs, rs := Lines(base), Lines(r);
    var j := |bs| - 1;
    assert Lines(body)[j] == bs[j] + rs[0];
    BlankBehind(bs[j], rs[0]);
  }

  lemma {:induction false} BlankBehind(a: string, b: string)
    requires Blank(b)
    ensures Trim(a + b) == Trim(a)
  {
    if Trim(a) == "" {
      var l, r := TrimSplit(a);
      hide Trim, IsSpace;
      BlankSum(l, "" + r);
      assert a == l + ("" + r);
      BlankSum(a, b);
      BlankIsNothing(a + b);
    } else {
      TrimAround("", a, b);
      assert "" + a + b == a + b;
    }
  }

  /** The lines an append leaves: those of the text but for blanks at its end, an empty one, those of the
      addition and an empty one. */
  lemma {:induction false} AppendedLines(body: string, t: string)
    requires Appended(body, t).Ok?
    ensures var base := TrimEnd(body);
      Lines(Appended(body, t).body)
        == (if base == "" then [] else Lines(base) + [""]) + Lines(TrimEnd(t)) + [""]
  {
    AppendedIs(body, t);
    LinesBelow(TrimEnd(body), TrimEnd(t));
    hide *;
  }

  lemma {:induction false} LinesBelow(base: string, add: string)
    ensures Lines(Lead(base) + add + "\n") == (if base == "" then [] else Lines(base) + [""]) + Lines(add) + [""]
  {
    hide Lines, Lead;
    LeadText(base, add);
    EndNewline(add);
    if base == "" {
      NoneAbove(Lines(add));
    } else {
      TwoBreaks(base, add + "\n");
      Regrouped(Lines(base) + [""], Lines(add), [""]);
    }
  }

  lemma NoneAbove(ls: seq<string>)
    ensures [] + ls + [""] == ls + [""]
  {
  }

  lemma {:induction false} LeadText(base: string, add: string)
    ensures Lead(base) + add + "\n" == if base == "" then add + "\n" else base + ("\n" + ("\n" + (add + "\n")))
  {
  }

  lemma Regrouped(a: seq<string>, b: seq<string>, c: seq<string>)
    ensures a + (b + c) == a + b + c
  {
  }

  lemma {:induction false} TwoBreaks(base: string, tail: string)
    ensures Lines(base + ("\n" + ("\n" + tail))) == Lines(base) + [""] + Lines(tail)
  {
    hide *;
    NewlineFirst(tail);
    NewlineFirst("\n" + tail);
    LinesAppend(base, "\n" + ("\n" + tail));
    var bs, ts := Lines(base), Lines(tail);
    MeetEmptyFirst(bs, [""] + ts);
    Regrouped(bs, [""], ts);
  }

  lemma MeetEmptyFirst(a: seq<string>, b: seq<string>)
    requires |a| >= 1
    ensures Meet(a, [""] + b) == a + b
  {
    var l := a[|a| - 1];
    assert l + "" == l;
    assert ([""] + b)[1..] == b;
    assert a == a[..|a| - 1] + [l];
  }

  lemma {:induction false} EndNewline(add: string)
    ensures Lines(add + "\n") == Lines(add) + [""]
  {
    hide Lines;
    LinesAppend(add, "\n");
    NewlineFirst("");
    assert "\n" + "" == "\n";
    OneLine("");
    assert [""] + [""] == ["", ""];
    MeetEmptyFirst(Lines(add), [""]);
  }

  /** AN APPEND KEEPS THE SNAPSHOTS. Every line of the text stays on its line but for the blanks the text
      ends in, and is generated afterwards exactly when it was. */
  lemma {:induction false} AppendKeepsLines(body: string, t: string, i: nat)
    requires Appended(body, t).Ok? && i < |Lines(body)|
    ensures var ls, ms := Lines(body), Lines(Appended(body, t).body);
      if i >= |Lines(TrimEnd(body))| then Blank(ls[i])
      else if TrimEnd(body) == "" then Blank(ls[i])
      else i < |ms| && ms[i] <= ls[i] && Blank(ls[i][|ms[i]|..]) && Trim(ms[i]) == Trim(ls[i])
           && (InSnapshot(ms, i) <==> InSnapshot(ls, i))
  {
    hide *;
    TrimmedLines(body);
    AppendedLines(body, t);
    var ls, bs, ms := Lines(body), Lines(TrimEnd(body)), Lines(Appended(body, t).body);
    if TrimEnd(body) == "" {
      OneLine("");
      assert i < |bs| ==> ls[i][|bs[i]|..] == ls[i];
    } else if i < |bs| {
      assert ms[..|bs|] == bs;
      StaysInPlace(ls, bs, ms, i);
    }
  }

  lemma {:induction false} StaysInPlace(ls: seq<string>, bs: seq<string>, ms: seq<string>, i: nat)
    requires i < |bs| <= |ls| && |bs| <= |ms| && ms[..|bs|] == bs
    requires forall k :: 0 <= k < |bs| - 1 ==> ls[k] == bs[k]
    requires var j := |bs| - 1; bs[j] <= ls[j] && Trim(bs[j]) == Trim(ls[j]) && Blank(ls[j][|bs[j]|..])
    ensures ms[i] <= ls[i] && Blank(ls[i][|ms[i]|..]) && Trim(ms[i]) == Trim(ls[i])
    ensures InSnapshot(ms, i) <==> InSnapshot(ls, i)
  {
    hide Trim, IsSpace;
    assert forall k :: 0 <= k < |bs| ==> ms[k] == bs[k];
    OpenAtWithin(ms, ls, i);
  }

  /** None of the n lines from this one on belongs to a snapshot. */
  predicate AllLive(ms: seq<string>, from: nat, n: nat)
    requires from + n <= |ms|
  {
    forall i :: from <= i < from + n ==> !InSnapshot(ms, i)
  }

  /** AND WHERE ITS OWN TEXT LANDS. The lines of the addition follow as they are, and are outside every
      snapshot if and only if none is left open above and none of them opens one. */
  lemma {:induction false} AppendLandsLive(body: string, t: string)
    requires Appended(body, t).Ok?
    ensures var ms, adds, k := Lines(Appended(body, t).body), Lines(TrimEnd(t)), AppendedFrom(body);
      && k + |adds| <= |ms| && ms[k..k + |adds|] == adds
      && (AllLive(ms, k, |adds|) <==> !LeftOpen(TrimEnd(body)) && forall i :: 0 <= i < |adds| ==> Trim(adds[i]) != SNAPSHOT_BEGIN)
  {
    AppendedLines(body, t);
    var base := TrimEnd(body);
    var ms, adds := Lines(Appended(body, t).body), Lines(TrimEnd(t));
    var above := if base == "" then [] else Lines(base) + [""];
    if base == "" { NothingOpen(); } else { OpenAbove(base); }
    hide Lines, TrimEnd, Appended, Trim, LeftOpen;
    assert |above| == AppendedFrom(body) && ms == above + adds + [""];
    LiveBelow(above, adds, [""], ms);
    NoneInside(adds, OpenAt(above, false, |above|));
  }

  /** Lines below others are outside snapshots as they would be with the state the others leave. */
  lemma {:induction false} LiveBelow(above: seq<string>, adds: seq<string>, below: seq<string>, ms: seq<string>)
    requires ms == above + adds + below
    ensures AllLive(ms, |above|, |adds|) <==>
      forall i :: 0 <= i < |adds| ==> !GeneratedLine(adds[i], OpenAt(adds, OpenAt(above, false, |above|), i))
  {
    hide GeneratedLine, OpenAt;
    var k, o := |above|, OpenAt(above, false, |above|);
    forall i | 0 <= i < |adds| ensures InSnapshot(ms, k + i) <==> GeneratedLine(adds[i], OpenAt(adds, o, i)) {
      OpenAtAfter(above, adds, i);
      OpenAtPrefix(above + adds, below, false, k + i);
    }
    if AllLive(ms, k, |adds|) {
      forall i | 0 <= i < |adds| ensures !GeneratedLine(adds[i], OpenAt(adds, o, i)) {
        assert !InSnapshot(ms, k + i);
      }
    } else {
      var i :| k <= i < k + |adds| && InSnapshot(ms, i);
      assert GeneratedLine(adds[i - k], OpenAt(adds, o, i - k));
    }
  }

  lemma NothingOpen()
    ensures !LeftOpen("")
  {
    assert Lines("") == [""];
    assert Trim("") == "";
    assert OpenAt([""], false, 1) == OpenAfter("", OpenAt([""], false, 0));
  }

  /** An empty line neither opens nor closes a snapshot. */
  lemma {:induction false} OpenAbove(base: string)
    ensures var above := Lines(base) + [""]; OpenAt(above, false, |above|) == LeftOpen(base)
  {
    hide Lines;
    assert Trim("") == "";
    OpenAtAfter(Lines(base), [""], 1);
    var o := OpenAt(Lines(base), false, |Lines(base)|);
    assert OpenAt([""], o, 1) == OpenAfter("", OpenAt([""], o, 0));
  }

  lemma {:induction false} OpenAtPrefix(a: seq<string>, b: seq<string>, open: bool, i: nat)
    requires i <= |a|
    ensures OpenAt(a + b, open, i) == OpenAt(a, open, i)
  {
    hide OpenAfter;
    if i > 0 { OpenAtPrefix(a, b, open, i - 1); }
  }

  lemma {:induction false} NoneInside(adds: seq<string>, o: bool)
    requires |adds| >= 1
    ensures (forall i :: 0 <= i < |adds| ==> !GeneratedLine(adds[i], OpenAt(adds, o, i)))
      <==> !o && forall i :: 0 <= i < |adds| ==> Trim(adds[i]) != SNAPSHOT_BEGIN
  {
    hide Trim;
    if !o && (forall i :: 0 <= i < |adds| ==> Trim(adds[i]) != SNAPSHOT_BEGIN) {
      NoneOpens(adds, |adds|);
    } else if o {
      assert GeneratedLine(adds[0], OpenAt(adds, o, 0));
    } else {
      var i :| 0 <= i < |adds| && Trim(adds[i]) == SNAPSHOT_BEGIN;
      assert GeneratedLine(adds[i], OpenAt(adds, o, i));
    }
  }

  lemma {:induction false} NoneOpens(adds: seq<string>, n: nat)
    requires n <= |adds| && forall i :: 0 <= i < |adds| ==> Trim(adds[i]) != SNAPSHOT_BEGIN
    ensures forall i :: 0 <= i <= n ==> !OpenAt(adds, false, i)
  {
    hide Trim;
    if n > 0 { NoneOpens(adds, n - 1); }
  }

  /** A WHOLE CALL AND THE SNAPSHOTS. A call with edits and an append, its edits guarded, keeps every line
      of every snapshot of the page, but for blanks the edited text ends in, and keeps it
      protected; the text it leaves begins with the edited text less those blanks. */
  lemma {:induction false} CallKeepsSnapshots(body: string, t: string, es: seq<Edit>, i: nat)
    requires PageEdited(body, Some(t), es).Ok? && GuardedAll(body, es)
    requires i < |Lines(body)| && InSnapshot(Lines(body), i)
    ensures var next, out := EditAll(body, es).body, PageEdited(body, Some(t), es).body;
      && TrimEnd(next) <= out && out == Lead(TrimEnd(next)) + TrimEnd(t) + "\n"
    ensures var ls, ms, k := Lines(body), Lines(PageEdited(body, Some(t), es).body), LineAfterAll(body, es, i);
      || Trim(ls[i]) == ""
      || (0 <= k < |ms| && InSnapshot(ms, k) && Trim(ms[k]) == Trim(ls[i]) && (ms[k] <= ls[i] || Trim(ls[i]) in {SNAPSHOT_BEGIN, SNAPSHOT_END}))
  {
    hide Lines, InSnapshot, Appended, EditAll, GuardedAll, KeptThroughout, TrimEnd, Trim;
    var next := EditAll(body, es).body;
    var ls, ns, k := Lines(body), Lines(next), LineAfterAll(body, es, i);
    BatchKeepsSnapshots(body, es);
    AppendedIs(next, t);
    assert LineKept(ls, ns, i, k);
    AppendKeepsLines(next, t, k);
    if Blank(ns[k]) { BlankIsNothing(ns[k]); }
    MarkersAreText();
  }

  lemma MarkersAreText()
    ensures SNAPSHOT_BEGIN != "" && SNAPSHOT_END != ""
  {
  }
}
