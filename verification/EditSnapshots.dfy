/** When a batch of edits leaves the generated parts of a page alone, and when it does not. */
module EditSnapshots {
  import opened Options
  import opened Texts
  import opened PageEdits
  import opened EditBatches

  /** Whether a snapshot is open before line i. */
  function OpenAt(lines: seq<string>, open: bool, i: nat): bool
    requires i <= |lines|
  {
    if i == 0 then open else OpenAfter(lines[i - 1], OpenAt(lines, open, i - 1))
  }

  /** Line i belongs to a snapshot. */
  predicate InSnapshot(lines: seq<string>, i: nat)
    requires i < |lines|
  {
    GeneratedLine(lines[i], OpenAt(lines, false, i))
  }

  lemma {:induction false} OpenAtTail(lines: seq<string>, open: bool, i: nat)
    requires 0 < i <= |lines|
    ensures OpenAt(lines, open, i) == OpenAt(lines[1..], OpenAfter(lines[0], open), i - 1)
  {
    hide OpenAfter;
    if i > 1 { OpenAtTail(lines, open, i - 1); }
  }

  lemma MarkInFirst(ls: seq<string>, open: bool, k: nat)
    requires |ls| >= 1 && k < |ls[0]|
    ensures k < |Marks(ls, open)| && Marks(ls, open)[k] == GeneratedLine(ls[0], open)
  {
    hide OpenAfter, GeneratedLine;
  }

  lemma MarkInTail(ls: seq<string>, open: bool, k: nat)
    requires |ls| > 1 && k < |Marks(ls[1..], OpenAfter(ls[0], open))|
    ensures |ls[0]| + 1 + k < |Marks(ls, open)|
    ensures Marks(ls, open)[|ls[0]| + 1 + k] == Marks(ls[1..], OpenAfter(ls[0], open))[k]
  {
    hide OpenAfter, GeneratedLine;
  }

  lemma NewlineFirst(tail: string)
    ensures Lines("\n" + tail) == [""] + Lines(tail)
  {
    assert ("\n" + tail)[1..] == tail;
  }

  lemma FirstLine(first: string, tail: string)
    requires '\n' !in first
    ensures Lines(first + ("\n" + tail)) == [first] + Lines(tail)
  {
    hide Lines;
    OneLine(first);
    LinesAppend(first, "\n" + tail);
    NewlineFirst(tail);
    assert first + "" == first;
    assert ([""] + Lines(tail))[1..] == Lines(tail);
  }

  lemma FirstChar(rest: string)
    requires rest != "" && rest[0] != '\n'
    ensures |Lines(rest)[0]| > 0
  {
  }

  /** A text with a newline: its first line and what follows. */
  lemma {:induction false} FirstNewline(s: string) returns (first: string, tail: string)
    requires '\n' in s
    ensures '\n' !in first && s == first + ("\n" + tail)
  {
    if s[0] == '\n' {
      first, tail := "", s[1..];
    } else {
      assert '\n' in s[1..] by { assert s == [s[0]] + s[1..]; }
      first, tail := FirstNewline(s[1..]);
      first := [s[0]] + first;
    }
  }

  /** The mark of a character is that of its line. */
  lemma {:induction false} MarkOfLine(pre: string, rest: string, open: bool)
    requires rest != "" && rest[0] != '\n'
    ensures var ls, j := Lines(pre + rest), |Lines(pre)| - 1;
      && |pre| < |Marks(ls, open)| && j < |ls|
      && Marks(ls, open)[|pre|] == GeneratedLine(ls[j], OpenAt(ls, open, j))
    decreases |pre|
  {
    hide OpenAfter, GeneratedLine, Lines, Marks;
    var ls := Lines(pre + rest);
    if '\n' !in pre {
      LinesAppend(pre, rest);
      OneLine(pre);
      FirstChar(rest);
      MarkInFirst(ls, open, |pre|);
    } else {
      var first, tail := FirstNewline(pre);
      FirstLine(first, tail);
      FirstLine(first, tail + rest);
      assert pre + rest == first + ("\n" + (tail + rest));
      MarkOfLine(tail, rest, OpenAfter(first, open));
      assert ls[1..] == Lines(tail + rest) && ls[0] == first;
      MarkInTail(ls, open, |tail|);
      OpenAtTail(ls, open, |Lines(pre)| - 1);
    }
  }

  lemma MarkAfterFirst(ls: seq<string>, open: bool)
    requires |ls| > 1
    ensures |ls[0]| < |Marks(ls, open)| && Marks(ls, open)[|ls[0]|] == OpenAfter(ls[0], open)
  {
    hide OpenAfter, GeneratedLine;
  }

  /** The mark of a newline is whether a snapshot is open after it. */
  lemma {:induction false} MarkOfNewline(pre: string, tail: string, open: bool)
    ensures var ls, j := Lines(pre + ("\n" + tail)), |Lines(pre)|;
      && |pre| < |Marks(ls, open)| && j < |ls|
      && Marks(ls, open)[|pre|] == OpenAt(ls, open, j)
    decreases |pre|
  {
    hide OpenAfter, GeneratedLine, Lines, Marks;
    var ls := Lines(pre + ("\n" + tail));
    if '\n' !in pre {
      FirstLine(pre, tail);
      OneLine(pre);
      MarkAfterFirst(ls, open);
      assert OpenAt(ls, open, 1) == OpenAfter(ls[0], OpenAt(ls, open, 0));
    } else {
      var first, rest := FirstNewline(pre);
      FirstLine(first, rest);
      FirstLine(first, rest + ("\n" + tail));
      assert pre + ("\n" + tail) == first + ("\n" + (rest + ("\n" + tail)));
      MarkOfNewline(rest, tail, OpenAfter(first, open));
      assert ls[1..] == Lines(rest + ("\n" + tail)) && ls[0] == first;
      MarkInTail(ls, open, |rest|);
      OpenAtTail(ls, open, |Lines(pre)|);
    }
  }

  // ---------- the lines of a hit ----------

  /** The lines before a text, in it and after it make up the lines of all three. */
  lemma {:induction false} LinesThree(pre: string, x: string, post: string)
    ensures Lines(pre + x + post) == Meet(Meet(Lines(pre), Lines(x)), Lines(post))
  {
    hide Lines, Meet;
    LinesAppend(pre + x, post);
    LinesAppend(pre, x);
  }

  lemma {:induction false} MeetThree(p: seq<string>, x: seq<string>, q: seq<string>)
    requires |p| >= 1 && |x| >= 1 && |q| >= 1
    ensures var ls, j, n := Meet(Meet(p, x), q), |p| - 1, |x|;
      && |ls| == j + n + |q| - 1
      && (forall i :: 0 <= i < j ==> ls[i] == p[i])
      && (n == 1 ==> ls[j] == p[j] + x[0] + q[0])
      && (n > 1 ==> ls[j] == p[j] + x[0] && ls[j + n - 1] == x[n - 1] + q[0])
      && (forall i :: j + n <= i < |ls| ==> ls[i] == q[i - j - n + 1])
  {
  }

  /** A text with several lines, split at the end of its k-th. */
  lemma {:induction false} SplitAtLine(s: string, k: nat) returns (a: string, b: string)
    requires 0 < k < |Lines(s)|
    ensures s == a + ("\n" + b) && |Lines(a)| == k
    decreases |s|
  {
    hide Lines;
    if '\n' !in s { OneLine(s); }
    var first, tail := FirstNewline(s);
    FirstLine(first, tail);
    if k == 1 {
      a, b := first, tail;
      OneLine(first);
    } else {
      var c: string;
      c, b := SplitAtLine(tail, k - 1);
      FirstLine(first, c);
      a := first + ("\n" + c);
      assert s == a + ("\n" + b);
    }
  }

  /** Several lines, of which the first, or the last, is empty. */
  predicate FirstEmpty(f: seq<string>) {
    |f| > 1 && f[0] == ""
  }

  predicate LastEmpty(f: seq<string>) {
    |f| > 1 && f[|f| - 1] == ""
  }

  lemma {:induction false} EndLines(s: string)
    requires s != ""
    ensures FirstEmpty(Lines(s)) <==> s[0] == '\n'
    ensures LastEmpty(Lines(s)) <==> s[|s| - 1] == '\n'
  {
    FirstEmptyIff(s);
    LastEmptyIff(s);
  }

  lemma {:induction false} FirstEmptyIff(s: string)
    requires s != ""
    ensures FirstEmpty(Lines(s)) <==> s[0] == '\n'
  {
    var rest := Lines(s[1..]);
    assert Lines(s) == Prepend(s[0], rest);
  }

  lemma {:induction false} LastEmptyIff(s: string)
    requires s != ""
    ensures LastEmpty(Lines(s)) <==> s[|s| - 1] == '\n'
  {
    hide Lines;
    var init, c := s[..|s| - 1], s[|s| - 1];
    assert s == init + [c];
    LinesAppend(init, [c]);
    var a := Lines(init);
    if c == '\n' {
      NewlineFirst("");
      EmptyLines();
      assert "\n" + "" == [c];
      assert Meet(a, ["", ""]) == a[..|a| - 1] + [a[|a| - 1] + ""] + [""];
    } else {
      OneLine([c]);
      assert Meet(a, [[c]]) == a[..|a| - 1] + [a[|a| - 1] + [c]];
    }
  }

  lemma {:induction false} Assoc(a: string, b: string, c: string)
    ensures (a + b) + c == a + (b + c)
  {
  }

  lemma {:induction false} Regroup(pre: string, a: string, b: string, post: string)
    ensures pre + (a + b) + post == (pre + a) + (b + post)
  {
  }

  /** A live hit is marked as no snapshot's at any of its characters. */
  lemma {:induction false} HitMark(body: string, find: string, pre: string, k: nat)
    requires LiveAt(body, find, |pre|) && k < |find|
    ensures |pre| + k < |Marks(Lines(body), false)| && !Marks(Lines(body), false)[|pre| + k]
  {
    assert Generated(body) == Marks(Lines(body), false);
  }

  /** No newline of a live hit lies in a snapshot. */
  lemma {:induction false} HitClosed(body: string, find: string, pre: string, post: string, k: nat)
    requires LiveAt(body, find, |pre|) && body == pre + find + post && 0 < k < |Lines(find)|
    ensures var j := |Lines(pre)| - 1; j + k < |Lines(body)| && !OpenAt(Lines(body), false, j + k)
  {
    hide *;
    var a, b := SplitAtLine(find, k);
    Regroup(pre, a, "\n" + b, post);
    Assoc("\n", b, post);
    LinesAppend(pre, a);
    MarkOfNewline(pre + a, b + post, false);
    HitMark(body, find, pre, |a|);
    MeetCount(Lines(pre), Lines(a));
  }

  lemma {:induction false} MeetCount(a: seq<string>, b: seq<string>)
    requires |a| >= 1 && |b| >= 1
    ensures |Meet(a, b)| == |a| + |b| - 1
  {
  }

  /** The line of any other character of a live hit is in no snapshot. */
  lemma {:induction false} HitLine(body: string, find: string, pre: string, post: string, a: string, b: string)
    requires LiveAt(body, find, |pre|) && body == pre + find + post
    requires find == a + b && b != "" && b[0] != '\n'
    ensures var j := |Lines(pre)| + |Lines(a)| - 2; j < |Lines(body)| && !InSnapshot(Lines(body), j)
  {
    hide *;
    Regroup(pre, a, b, post);
    LinesAppend(pre, a);
    FirstOf(b, post);
    MarkOfLine(pre + a, b + post, false);
    HitMark(body, find, pre, |a|);
    MeetCount(Lines(pre), Lines(a));
    var ls, k := Lines(body), |Lines(pre)| + |Lines(a)| - 2;
    assert k == |Lines(pre + a)| - 1;
    InSnapshotIs(ls, k);
    assert !InSnapshot(ls, k);
  }

  lemma {:induction false} InSnapshotIs(ls: seq<string>, j: nat)
    requires j < |ls|
    ensures InSnapshot(ls, j) == GeneratedLine(ls[j], OpenAt(ls, false, j))
  {
    hide GeneratedLine;
  }

  lemma {:induction false} FirstOf(b: string, post: string)
    requires b != ""
    ensures b + post != "" && (b + post)[0] == b[0]
  {
  }

  /** A text as all but its last character and that one. */
  lemma {:induction false} LastApart(s: string) returns (init: string, c: char)
    requires s != ""
    ensures s == init + [c] && c == s[|s| - 1]
    ensures c != '\n' ==> |Lines(init)| == |Lines(s)|
  {
    init, c := s[..|s| - 1], s[|s| - 1];
    LinesAppend(init, [c]);
    if c != '\n' { OneLine([c]); }
  }

  /** The first and the last line of a live hit can belong to snapshots only where the hit holds
      nothing of them. */
  lemma {:induction false} HitEnds(body: string, find: string, pre: string, post: string)
    requires find != "" && LiveAt(body, find, |pre|) && body == pre + find + post
    ensures var ls, p, f := Lines(body), Lines(pre), Lines(find);
      && |p| - 1 + |f| <= |ls|
      && (InSnapshot(ls, |p| - 1) ==> FirstEmpty(f))
      && (InSnapshot(ls, |p| + |f| - 2) ==> LastEmpty(f))
  {
    hide *;
    var ls, p, f := Lines(body), Lines(pre), Lines(find);
    LinesThree(pre, find, post);
    MeetCount(p, f);
    MeetCount(Meet(p, f), Lines(post));
    assert |p| - 1 + |f| <= |ls|;
    EndLines(find);
    FirstLineLive(body, find, pre, post);
    LastLineLive(body, find, pre, post);
  }

  lemma {:induction false} FirstLineLive(body: string, find: string, pre: string, post: string)
    requires find != "" && LiveAt(body, find, |pre|) && body == pre + find + post && |Lines(pre)| <= |Lines(body)|
    ensures find[0] != '\n' ==> !InSnapshot(Lines(body), |Lines(pre)| - 1)
  {
    hide *;
    if find[0] != '\n' {
      EmptyLines();
      assert find == "" + find;
      HitLine(body, find, pre, post, "", find);
    }
  }

  lemma {:induction false} LastLineLive(body: string, find: string, pre: string, post: string)
    requires find != "" && LiveAt(body, find, |pre|) && body == pre + find + post
    requires |Lines(pre)| + |Lines(find)| - 2 < |Lines(body)|
    ensures find[|find| - 1] != '\n' ==> !InSnapshot(Lines(body), |Lines(pre)| + |Lines(find)| - 2)
  {
    hide *;
    var init, c := LastApart(find);
    if c != '\n' { HitLine(body, find, pre, post, init, [c]); }
  }

  lemma {:induction false} EmptyLines()
    ensures Lines("") == [""]
  {
  }

  lemma {:induction false} SplitHit(body: string, find: string, at: nat)
    requires LiveAt(body, find, at)
    ensures at + |find| <= |body| && body == body[..at] + find + body[at + |find|..]
  {
    assert body[at..at + |find|] == find;
  }

  // ---------- what one edit keeps ----------

  /** Where an edit that is made has its hit. */
  function HitAt(body: string, e: Edit): (at: nat)
    requires EditOnce(body, e).Ok?
    ensures e.find != "" && LiveAt(body, e.find, at) && at + |e.find| <= |body|
    ensures EditOnce(body, e).body == body[..at] + e.replace + body[at + |e.find|..]
  {
    EditOkIff(body, e);
    LiveHitsAre(body, e.find);
    assert LiveHits(body, e.find)[0] in LiveHits(body, e.find);
    OccursInside(body, e.find, LiveHits(body, e.find)[0]);
    LiveHits(body, e.find)[0]
  }

  /** The line of the new text that the line i of the old one has become: lines before the hit
      keep their places, and those after it move with it. */
  function LineAfter(body: string, e: Edit, i: nat): int
    requires EditOnce(body, e).Ok?
  {
    Landing(|Lines(body[..HitAt(body, e)])| - 1, |Lines(e.find)|, |Lines(e.replace)|, i)
  }

  function Landing(j: int, n: nat, m: nat, i: nat): int {
    if i < j || (i == j && n > 1) then i else i - n + m
  }

  /** The same line, or one marker with other blanks around it. */
  predicate SameLine(a: string, b: string) {
    a == b || (Trim(a) in {SNAPSHOT_BEGIN, SNAPSHOT_END} && Trim(b) == Trim(a))
  }

  /** If line i belongs to a snapshot, line k of the new text is the same and belongs to one. */
  predicate LineKept(ls: seq<string>, ms: seq<string>, i: nat, k: int)
    requires i < |ls|
  {
    InSnapshot(ls, i) ==> 0 <= k < |ms| && InSnapshot(ms, k) && SameLine(ls[i], ms[k])
  }

  /** An edit leaves every line of every snapshot as it was, and protected. */
  ghost predicate SnapshotsKept(body: string, e: Edit)
    requires EditOnce(body, e).Ok?
  {
    forall i :: 0 <= i < |Lines(body)| ==> LineKept(Lines(body), Lines(EditOnce(body, e).body), i, LineAfter(body, e, i))
  }

  /** The hit starts with the newline after the end marker of a snapshot. */
  predicate StartsAfterEnd(pre: string, find: string) {
    var p := Lines(pre);
    find != "" && find[0] == '\n' && OpenAt(p, false, |p| - 1) && Trim(p[|p| - 1]) == SNAPSHOT_END
  }

  /** The hit ends with the newline before a begin marker. */
  predicate EndsAtBegin(find: string, post: string) {
    find != "" && find[|find| - 1] == '\n' && Trim(Lines(post)[0]) == SNAPSHOT_BEGIN
  }

  /** What the edit puts on the line of such a marker is blank: the start of the replacement
      after an end marker, its end before a begin marker, and without a newline in it all of
      it with what it is joined to. */
  predicate Guarded(pre: string, e: Edit, post: string) {
    var p, r, q := Lines(pre), Lines(e.replace), Lines(post);
    && (StartsAfterEnd(pre, e.find) ==> Blank(if |r| > 1 then r[0] else r[0] + q[0]))
    && (EndsAtBegin(e.find, post) ==> Blank(if |r| > 1 then r[|r| - 1] else p[|p| - 1] + r[0]))
  }

  predicate GuardedEdit(body: string, e: Edit)
    requires EditOnce(body, e).Ok?
  {
    Guarded(body[..HitAt(body, e)], e, body[HitAt(body, e) + |e.find|..])
  }

  lemma {:induction false} OpenAtSame(ls: seq<string>, ms: seq<string>, i: nat)
    requires i <= |ls| && i <= |ms| && forall k :: 0 <= k < i ==> ls[k] == ms[k]
    ensures OpenAt(ls, false, i) == OpenAt(ms, false, i)
  {
    hide OpenAfter;
    if i > 0 { OpenAtSame(ls, ms, i - 1); }
  }

  /** What is known of the lines of a live hit: p before it, f in it, q after it. */
  ghost predicate HitLines(p: seq<string>, f: seq<string>, q: seq<string>) {
    && |p| >= 1 && |f| >= 1 && |q| >= 1
    && var ls, j, n := Meet(Meet(p, f), q), |p| - 1, |f|;
    && j + n <= |ls|
    && (forall i :: j < i < j + n ==> !OpenAt(ls, false, i))
    && (InSnapshot(ls, j) ==> FirstEmpty(f))
    && (InSnapshot(ls, j + n - 1) ==> LastEmpty(f))
  }

  lemma {:induction false} LiveHitLines(body: string, find: string, pre: string, post: string)
    requires find != "" && LiveAt(body, find, |pre|) && body == pre + find + post
    ensures var p, f, q := Lines(pre), Lines(find), Lines(post);
      Lines(body) == Meet(Meet(p, f), q) && HitLines(p, f, q)
  {
    hide *;
    var ls, p, f, q := Lines(body), Lines(pre), Lines(find), Lines(post);
    LinesThree(pre, find, post);
    HitEnds(body, find, pre, post);
    AllHitClosed(body, find, pre, post);
    HitLinesAre(ls, p, f, q);
  }

  lemma {:induction false} AllHitClosed(body: string, find: string, pre: string, post: string)
    requires find != "" && LiveAt(body, find, |pre|) && body == pre + find + post
    ensures var ls, j := Lines(body), |Lines(pre)| - 1;
      j + |Lines(find)| <= |ls| && forall i :: j < i < j + |Lines(find)| ==> !OpenAt(ls, false, i)
  {
    hide *;
    HitEnds(body, find, pre, post);
    var ls, j, n := Lines(body), |Lines(pre)| - 1, |Lines(find)|;
    forall i | j < i < j + n ensures !OpenAt(ls, false, i) {
      HitClosed(body, find, pre, post, i - j);
    }
  }

  lemma {:induction false} HitLinesAre(ls: seq<string>, p: seq<string>, f: seq<string>, q: seq<string>)
    requires |p| >= 1 && |f| >= 1 && |q| >= 1 && ls == Meet(Meet(p, f), q) && |p| - 1 + |f| <= |ls|
    requires forall i :: |p| - 1 < i < |p| - 1 + |f| ==> !OpenAt(ls, false, i)
    requires InSnapshot(ls, |p| - 1) ==> FirstEmpty(f)
    requires InSnapshot(ls, |p| + |f| - 2) ==> LastEmpty(f)
    ensures HitLines(p, f, q)
  {
    hide Meet, OpenAt, InSnapshot;
  }

  /** A hit starts in a snapshot's end line exactly when it starts with the newline after it. */
  lemma {:induction false} StartIff(pre: string, find: string, q: seq<string>)
    requires find != "" && HitLines(Lines(pre), Lines(find), q)
    ensures var p := Lines(pre); var ls, j := Meet(Meet(p, Lines(find)), q), |p| - 1;
      InSnapshot(ls, j) <==> StartsAfterEnd(pre, find)
  {
    hide Lines, Trim, Meet;
    var p, f := Lines(pre), Lines(find);
    var ls, j, n := Meet(Meet(p, f), q), |p| - 1, |f|;
    MeetThree(p, f, q);
    EndLines(find);
    OpenAtSame(ls, p, j);
    MarkersDiffer();
    if n > 1 {
      assert !OpenAt(ls, false, j + 1);
      assert OpenAt(ls, false, j + 1) == OpenAfter(ls[j], OpenAt(ls, false, j));
      assert f[0] == "" ==> ls[j] == p[j];
    }
  }

  lemma {:induction false} EndIff(p: seq<string>, find: string, post: string)
    requires find != "" && HitLines(p, Lines(find), Lines(post))
    ensures var f := Lines(find); var ls := Meet(Meet(p, f), Lines(post));
      InSnapshot(ls, |p| + |f| - 2) <==> EndsAtBegin(find, post)
  {
    hide Lines, Trim, Meet, OpenAt;
    var f, q := Lines(find), Lines(post);
    var ls, j, n := Meet(Meet(p, f), q), |p| - 1, |f|;
    MeetThree(p, f, q);
    EndLines(find);
    if n > 1 {
      assert !OpenAt(ls, false, j + n - 1);
      assert f[n - 1] == "" ==> ls[j + n - 1] == q[0];
    }
  }

  lemma {:induction false} MarkersDiffer()
    ensures SNAPSHOT_BEGIN != SNAPSHOT_END && SNAPSHOT_BEGIN != "" && SNAPSHOT_END != ""
  {
  }

  /** Lines before the hit. */
  lemma {:induction false} EarlierKept(p: seq<string>, f: seq<string>, r: seq<string>, q: seq<string>, i: nat)
    requires |p| >= 1 && |f| >= 1 && |r| >= 1 && |q| >= 1 && i < |p| - 1
    ensures var ls, ms := Meet(Meet(p, f), q), Meet(Meet(p, r), q);
      i < |ls| && LineKept(ls, ms, i, i)
  {
    hide Meet, OpenAt, Trim;
    MeetThree(p, f, q);
    MeetThree(p, r, q);
    OpenAtSame(Meet(Meet(p, f), q), Meet(Meet(p, r), q), i);
  }

  /** The line of an end marker the hit starts after. */
  lemma {:induction false} EndMarkerKeptIff(p: seq<string>, f: seq<string>, r: seq<string>, q: seq<string>)
    requires HitLines(p, f, q) && |r| >= 1
    requires InSnapshot(Meet(Meet(p, f), q), |p| - 1)
    ensures var ls, ms, j := Meet(Meet(p, f), q), Meet(Meet(p, r), q), |p| - 1;
      && j < |ms|
      && (LineKept(ls, ms, j, j) <==> Blank(if |r| > 1 then r[0] else r[0] + q[0]))
      && (LineKept(ls, ms, j, j) ==> Trim(ms[j]) == SNAPSHOT_END)
  {
    hide Meet, Trim, Blank;
    var ls, ms, j := Meet(Meet(p, f), q), Meet(Meet(p, r), q), |p| - 1;
    MeetThree(p, f, q);
    MeetThree(p, r, q);
    OpenAtSame(ls, ms, j);
    MarkersDiffer();
    assert !OpenAt(ls, false, j + 1);
    assert OpenAt(ls, false, j + 1) == OpenAfter(ls[j], OpenAt(ls, false, j));
    assert ls[j] == p[j] + "" == p[j];
    var added := if |r| > 1 then r[0] else r[0] + q[0];
    assert ms[j] == "" + p[j] + added;
    TrimAround("", p[j], added);
    assert Blank("") by { NothingBlank(); }
  }

  lemma {:induction false} NothingBlank()
    ensures Blank("")
  {
  }

  /** The line of a begin marker the hit ends before. */
  lemma {:induction false} BeginMarkerKeptIff(p: seq<string>, f: seq<string>, r: seq<string>, q: seq<string>)
    requires HitLines(p, f, q) && |r| >= 1
    requires InSnapshot(Meet(Meet(p, f), q), |p| + |f| - 2)
    ensures var ls, ms, i, k := Meet(Meet(p, f), q), Meet(Meet(p, r), q), |p| + |f| - 2, |p| + |r| - 2;
      && k < |ms|
      && (LineKept(ls, ms, i, k) <==> Blank(if |r| > 1 then r[|r| - 1] else p[|p| - 1] + r[0]))
      && (LineKept(ls, ms, i, k) ==> Trim(ms[k]) == SNAPSHOT_BEGIN)
  {
    hide Meet, Trim, Blank, OpenAt;
    var ls, ms, i, k := Meet(Meet(p, f), q), Meet(Meet(p, r), q), |p| + |f| - 2, |p| + |r| - 2;
    MeetThree(p, f, q);
    MeetThree(p, r, q);
    MarkersDiffer();
    assert !OpenAt(ls, false, |p| + |f| - 2);
    assert ls[i] == "" + q[0] == q[0];
    var added := if |r| > 1 then r[|r| - 1] else p[|p| - 1] + r[0];
    assert ms[k] == added + q[0] + "";
    TrimAround(added, q[0], "");
    assert Blank("") by { NothingBlank(); }
  }

  /** Where a snapshot is open after the hit, one is open still. */
  lemma {:induction false} LaterOpen(p: seq<string>, f: seq<string>, r: seq<string>, q: seq<string>, i: nat)
    requires HitLines(p, f, q) && |r| >= 1 && |p| + |f| - 1 <= i <= |Meet(Meet(p, f), q)|
    requires var ls, ms := Meet(Meet(p, f), q), Meet(Meet(p, r), q);
      InSnapshot(ls, |p| + |f| - 2) ==> |p| + |r| - 2 < |ms| && Trim(ms[|p| + |r| - 2]) == SNAPSHOT_BEGIN
    ensures var ls, ms := Meet(Meet(p, f), q), Meet(Meet(p, r), q);
      i - |f| + |r| <= |ms| && (OpenAt(ls, false, i) ==> OpenAt(ms, false, i - |f| + |r|))
    decreases i
  {
    hide Meet, Trim;
    var ls, ms := Meet(Meet(p, f), q), Meet(Meet(p, r), q);
    MeetThree(p, f, q);
    MeetThree(p, r, q);
    MarkersDiffer();
    var k := i - |f| + |r|;
    assert OpenAt(ls, false, i) == OpenAfter(ls[i - 1], OpenAt(ls, false, i - 1));
    assert OpenAt(ms, false, k) == OpenAfter(ms[k - 1], OpenAt(ms, false, k - 1));
    if i > |p| + |f| - 1 { LaterOpen(p, f, r, q, i - 1); }
  }

  lemma {:induction false} LaterKept(p: seq<string>, f: seq<string>, r: seq<string>, q: seq<string>, i: nat)
    requires HitLines(p, f, q) && |r| >= 1 && |p| + |f| - 1 <= i < |Meet(Meet(p, f), q)|
    requires var ls, ms := Meet(Meet(p, f), q), Meet(Meet(p, r), q);
      InSnapshot(ls, |p| + |f| - 2) ==> |p| + |r| - 2 < |ms| && Trim(ms[|p| + |r| - 2]) == SNAPSHOT_BEGIN
    ensures LineKept(Meet(Meet(p, f), q), Meet(Meet(p, r), q), i, i - |f| + |r|)
  {
    hide Meet, Trim, OpenAt;
    MeetThree(p, f, q);
    MeetThree(p, r, q);
    LaterOpen(p, f, r, q, i);
  }

  /** A line inside the hit belongs to no snapshot. */
  lemma {:induction false} InnerLine(p: seq<string>, f: seq<string>, q: seq<string>, k: nat)
    requires HitLines(p, f, q) && 0 < k < |f| - 1
    ensures !InSnapshot(Meet(Meet(p, f), q), |p| - 1 + k)
  {
    hide Meet, Trim;
    var ls, i := Meet(Meet(p, f), q), |p| - 1 + k;
    MarkersDiffer();
    assert !OpenAt(ls, false, i) && !OpenAt(ls, false, i + 1);
    assert OpenAt(ls, false, i + 1) == OpenAfter(ls[i], OpenAt(ls, false, i));
  }

  /** AN EDIT AND THE SNAPSHOTS. An edit that is made, over any number of lines, leaves every line
      of every snapshot as it was and protected if and only if what it puts on the line of an
      end marker it starts after, and of a begin marker it ends before, is blank. */
  lemma {:induction false} EditKeepsSnapshots(body: string, e: Edit)
    requires EditOnce(body, e).Ok?
    ensures SnapshotsKept(body, e) <==> GuardedEdit(body, e)
  {
    hide EditOnce, Lines, InSnapshot, Meet, Blank, Trim, HitLines, LineKept, StartsAfterEnd, EndsAtBegin,
      LiveAt;
    var at := HitAt(body, e);
    var pre, post := body[..at], body[at + |e.find|..];
    var p, f, r, q := Lines(pre), Lines(e.find), Lines(e.replace), Lines(post);
    var ls, ms, j, n, m := Lines(body), Lines(EditOnce(body, e).body), |p| - 1, |f|, |r|;
    SplitHit(body, e.find, at);
    LiveHitLines(body, e.find, pre, post);
    LinesThree(pre, e.replace, post);
    MeetThree(p, f, q);
    StartIff(pre, e.find, q);
    EndIff(p, e.find, post);
    MarkerLines(p, f, r, q);
    var last := j + n - 1;
    assert n > 1 ==> LineAfter(body, e, j) == j && LineAfter(body, e, last) == j + m - 1;
    if SnapshotsKept(body, e) {
      assert LineKept(ls, ms, j, LineAfter(body, e, j)) && LineKept(ls, ms, last, LineAfter(body, e, last));
    } else if GuardedEdit(body, e) {
      forall i | 0 <= i < |ls| ensures LineKept(ls, ms, i, LineAfter(body, e, i)) {
        if i < j {
          EarlierKept(p, f, r, q, i);
        } else if i > last {
          LaterKept(p, f, r, q, i);
        } else if j < i < last {
          InnerLine(p, f, q, i - j);
          NotKept(ls, ms, i, LineAfter(body, e, i));
        } else if !InSnapshot(ls, i) {
          NotKept(ls, ms, i, LineAfter(body, e, i));
        }
      }
    }
  }

  lemma {:induction false} NotKept(ls: seq<string>, ms: seq<string>, i: nat, k: int)
    requires i < |ls| && !InSnapshot(ls, i)
    ensures LineKept(ls, ms, i, k)
  {
  }

  /** The two lines an edit shares with snapshots. */
  lemma {:induction false} MarkerLines(p: seq<string>, f: seq<string>, r: seq<string>, q: seq<string>)
    requires HitLines(p, f, q) && |r| >= 1
    ensures var ls, ms, j, n, m := Meet(Meet(p, f), q), Meet(Meet(p, r), q), |p| - 1, |f|, |r|;
      && j + n - 1 < |ls| && j + m - 1 < |ms|
      && (InSnapshot(ls, j) ==> n > 1 && (LineKept(ls, ms, j, j) <==> Blank(if m > 1 then r[0] else r[0] + q[0])))
      && (InSnapshot(ls, j + n - 1) ==>
            (&& n > 1
             && (LineKept(ls, ms, j + n - 1, j + m - 1) <==> Blank(if m > 1 then r[m - 1] else p[j] + r[0]))
             && (LineKept(ls, ms, j + n - 1, j + m - 1) ==> Trim(ms[j + m - 1]) == SNAPSHOT_BEGIN)))
  {
    hide Meet, Blank, Trim, LineKept, InSnapshot, OpenAt;
    MeetThree(p, f, q);
    MeetThree(p, r, q);
    var ls := Meet(Meet(p, f), q);
    if InSnapshot(ls, |p| - 1) { EndMarkerKeptIff(p, f, r, q); }
    if InSnapshot(ls, |p| + |f| - 2) { BeginMarkerKeptIff(p, f, r, q); }
  }

  // ---------- batches ----------

  /** Every edit of the batch is guarded on the text the ones before it left. */
  predicate GuardedAll(body: string, es: seq<Edit>)
    requires EditAll(body, es).Ok?
    decreases |es|
  {
    es == [] || (GuardedEdit(body, es[0]) && GuardedAll(EditOnce(body, es[0]).body, es[1..]))
  }

  /** Every edit of the batch keeps the snapshots it finds. */
  ghost predicate KeptThroughout(body: string, es: seq<Edit>)
    requires EditAll(body, es).Ok?
    decreases |es|
  {
    es == [] || (SnapshotsKept(body, es[0]) && KeptThroughout(EditOnce(body, es[0]).body, es[1..]))
  }

  /** The line of the final text that a line has become. */
  function LineAfterAll(body: string, es: seq<Edit>, i: int): int
    requires EditAll(body, es).Ok?
    decreases |es|
  {
    if es == [] || i < 0 then i else LineAfterAll(EditOnce(body, es[0]).body, es[1..], LineAfter(body, es[0], i))
  }

  lemma {:induction false} KeptOn(ls: seq<string>, ms: seq<string>, ns: seq<string>, i: nat, k: nat, l: int)
    requires i < |ls| && k < |ms| && InSnapshot(ls, i) && LineKept(ls, ms, i, k) && LineKept(ms, ns, k, l)
    ensures LineKept(ls, ns, i, l)
  {
    hide InSnapshot, Trim;
  }

  /** SNAPSHOTS AND A BATCH. Of a batch that is made each edit keeps the snapshots it finds if and
      only if each is guarded; and then every line of every snapshot of the page the batch
      began with is in the page it leaves, as it was and protected. */
  lemma {:induction false} BatchKeepsSnapshots(body: string, es: seq<Edit>)
    requires EditAll(body, es).Ok?
    ensures KeptThroughout(body, es) <==> GuardedAll(body, es)
    ensures GuardedAll(body, es) ==> forall i :: 0 <= i < |Lines(body)| ==>
      LineKept(Lines(body), Lines(EditAll(body, es).body), i, LineAfterAll(body, es, i))
    decreases |es|
  {
    hide EditOnce, InSnapshot, Lines, GuardedEdit, Trim, LineAfter;
    if es != [] {
      var next := EditOnce(body, es[0]).body;
      EditKeepsSnapshots(body, es[0]);
      BatchKeepsSnapshots(next, es[1..]);
      if GuardedAll(body, es) {
        var ls, ms, ns := Lines(body), Lines(next), Lines(EditAll(body, es).body);
        forall i | 0 <= i < |ls| ensures LineKept(ls, ns, i, LineAfterAll(body, es, i)) {
          if InSnapshot(ls, i) {
            var k := LineAfter(body, es[0], i);
            assert LineKept(ls, ms, i, k);
            assert LineKept(ms, ns, k, LineAfterAll(next, es[1..], k));
            KeptOn(ls, ms, ns, i, k, LineAfterAll(body, es, i));
          }
        }
      }
    }
  }

  // ---------- edits that join lines ----------

  lemma {:induction false} OnlyOccurrence(body: string, e: Edit, i: nat)
    requires e.find != "" && OccursAt(body, e.find, i) && Live(body, i, |e.find|)
    requires forall j :: OccursAt(body, e.find, j) ==> j == i
    ensures EditOnce(body, e) == Ok(Replaced(body, i, e))
  {
    var n := e.find;
    var a, b := IndexOf(body, n, 0), IndexOf(body, n, i + |n|);
    hide IndexOf, OccursAt, Live, Generated;
    assert a == Some(i) && b == None;
    assert Hits(body, n, i + |n|) == [];
    assert Hits(body, n, 0) == [i];
    assert [i][..0] == [];
    assert OnlyLive(body, |n|, [i]) == [i];
  }

  /** Without a begin marker nothing is generated. */
  lemma {:induction false} NoMarker(ls: seq<string>)
    requires forall i :: 0 <= i < |ls| ==> Trim(ls[i]) != SNAPSHOT_BEGIN
    ensures forall k :: 0 <= k < |Marks(ls, false)| ==> !Marks(ls, false)[k]
  {
    hide Trim;
    if |ls| > 1 { NoMarker(ls[1..]); }
  }

  /** A character fit to stand in a text: not blank, and in neither marker. */
  predicate Plain(c: char) {
    !IsSpace(c) && c !in SNAPSHOT_BEGIN && c !in SNAPSHOT_END
  }

  /** A line, a snapshot of one line, and nothing else. */
  function WithSnapshot(c: char, d: string): string {
    [c] + ("\n" + (SNAPSHOT_BEGIN + ("\n" + (d + ("\n" + SNAPSHOT_END)))))
  }

  /** The same with the first two lines joined. */
  function Joined(c: char, d: string): string {
    ([c] + SNAPSHOT_BEGIN) + ("\n" + (d + ("\n" + SNAPSHOT_END)))
  }

  lemma {:induction false} MarkersAreLines()
    ensures '\n' !in SNAPSHOT_BEGIN && '\n' !in SNAPSHOT_END && SNAPSHOT_BEGIN != SNAPSHOT_END
    ensures Trim(SNAPSHOT_BEGIN) == SNAPSHOT_BEGIN && Trim(SNAPSHOT_END) == SNAPSHOT_END
  {
    assert Bare(SNAPSHOT_BEGIN) && Bare(SNAPSHOT_END);
    BareIsTrimmed(SNAPSHOT_BEGIN);
    BareIsTrimmed(SNAPSHOT_END);
    hide Trim;
  }

  lemma {:induction false} LinesOfWithSnapshot(c: char, d: char)
    requires Plain(c) && Plain(d)
    ensures Lines(WithSnapshot(c, [d])) == [[c], SNAPSHOT_BEGIN, [d], SNAPSHOT_END]
    ensures Lines(Joined(c, [d])) == [[c] + SNAPSHOT_BEGIN, [d], SNAPSHOT_END]
  {
    hide Lines, Trim;
    MarkersAreLines();
    OneLine(SNAPSHOT_END);
    FirstLine([d], SNAPSHOT_END);
    FirstLine(SNAPSHOT_BEGIN, [d] + ("\n" + SNAPSHOT_END));
    FirstLine([c], SNAPSHOT_BEGIN + ("\n" + ([d] + ("\n" + SNAPSHOT_END))));
    FirstLine([c] + SNAPSHOT_BEGIN, [d] + ("\n" + SNAPSHOT_END));
  }

  lemma {:induction false} FirstStays(s: string)
    requires s != "" && !IsSpace(s[0])
    ensures Trim(s) != "" && Trim(s)[0] == s[0]
  {
    TrimEndKeepsFirst(s);
  }

  lemma {:induction false} JoinedIsUnprotected(c: char, d: char)
    requires Plain(c) && Plain(d)
    ensures forall k :: 0 <= k < |Joined(c, [d])| ==> !Generated(Joined(c, [d]))[k]
  {
    LinesOfWithSnapshot(c, d);
    MarkersAreLines();
    FirstStays([c] + SNAPSHOT_BEGIN);
    FirstStays([d]);
    assert SNAPSHOT_BEGIN[0] in SNAPSHOT_BEGIN;
    hide Trim, Lines, Marks, Joined;
    NoMarker([[c] + SNAPSHOT_BEGIN, [d], SNAPSHOT_END]);
  }

  lemma {:induction false} FirstLineIsLive(c: char, d: char)
    requires Plain(c) && Plain(d)
    ensures Live(WithSnapshot(c, [d]), 0, 2)
  {
    LinesOfWithSnapshot(c, d);
    TrimEndKeepsFirst([c]);
    assert Trim([c])[0] == c;
    assert SNAPSHOT_BEGIN[0] in SNAPSHOT_BEGIN;
    hide Trim, Lines;
    var ls := [[c], SNAPSHOT_BEGIN, [d], SNAPSHOT_END];
    MarksStep(ls, false);
    assert LineMarks([c], false, false) == [false, false];
  }

  /** The text right after a prefix that lacks its first character, before a suffix that lacks
      it too, occurs there only. */
  lemma {:induction false} SoleOccurrence(pre: string, n: string, post: string)
    requires n != "" && n[0] !in pre && n[0] !in n[1..] && n[0] !in post
    ensures OccursAt(pre + n + post, n, |pre|)
    ensures forall j: nat :: OccursAt(pre + n + post, n, j) ==> j == |pre|
  {
    forall j: nat | OccursAt(pre + n + post, n, j) ensures j == |pre| {
      assert (pre + n + post)[j] == (pre + n + post)[j..j + |n|][0] == n[0];
      if j != |pre| { OtherCharacter(pre, n, post, j); }
    }
  }

  lemma {:induction false} OtherCharacter(pre: string, n: string, post: string, j: nat)
    requires n != "" && n[0] !in pre && n[0] !in n[1..] && n[0] !in post
    requires j < |pre + n + post| && j != |pre|
    ensures (pre + n + post)[j] != n[0]
  {
    var ch := (pre + n + post)[j];
    if j < |pre| {
      assert ch in pre;
    } else if j < |pre| + |n| {
      assert ch == n[1..][j - |pre| - 1];
    } else {
      assert ch == post[j - |pre| - |n|];
    }
  }

  /** JOINING LINES UNPROTECTS. An edit may take the newline before a snapshot with it. The
      begin marker then no longer stands on a line of its own, nothing is protected, and the
      next edit of the batch rewrites the generated text. */
  lemma {:induction false} JoiningLinesUnprotects(c: char, d: char, u: string)
    requires Plain(c) && Plain(d) && c != d
    ensures var body := WithSnapshot(c, [d]);
      && EditAll(body, [Edit([c, '\n'], [c]), Edit([d], u)]) == Ok(Joined(c, u))
      && |Lines(body)| == 4 && InSnapshot(Lines(body), 2) && Lines(body)[2] == [d]
  {
    var body, body1 := WithSnapshot(c, [d]), Joined(c, [d]);
    var e1, e2 := Edit([c, '\n'], [c]), Edit([d], u);
    JoinEdit(c, d);
    RewriteEdit(c, d, u);
    LinesOfWithSnapshot(c, d);
    MarkersAreLines();
    assert [e1, e2][1..] == [e2] && [e2][1..] == [];
    hide EditOnce, Joined, Lines, WithSnapshot, Trim;
    assert EditAll(body1, [e2]) == Ok(Joined(c, u));
    assert OpenAt([[c], SNAPSHOT_BEGIN, [d], SNAPSHOT_END], false, 2);
  }

  lemma {:induction false} JoinEdit(c: char, d: char)
    requires Plain(c) && Plain(d) && c != d
    ensures EditOnce(WithSnapshot(c, [d]), Edit([c, '\n'], [c])) == Ok(Joined(c, [d]))
  {
    hide Live, Generated, OccursAt, EditOnce;
    var rest := "\n" + ([d] + ("\n" + SNAPSHOT_END));
    var tail := SNAPSHOT_BEGIN + rest;
    NotInTail(c, d);
    FirstLineIsLive(c, d);
    JoinAnyTail(c, SNAPSHOT_BEGIN, rest);
  }

  lemma {:induction false} NotInTail(c: char, d: char)
    requires Plain(c) && Plain(d) && c != d
    ensures c !in SNAPSHOT_BEGIN + ("\n" + ([d] + ("\n" + SNAPSHOT_END)))
  {
    assert c !in "\n" + SNAPSHOT_END;
    assert c !in [d] + ("\n" + SNAPSHOT_END);
  }

  lemma {:induction false} JoinAnyTail(c: char, first: string, rest: string)
    requires c !in first + rest && c != '\n' && Live([c] + ("\n" + (first + rest)), 0, 2)
    ensures EditOnce([c] + ("\n" + (first + rest)), Edit([c, '\n'], [c])) == Ok(([c] + first) + rest)
  {
    hide *;
    FirstNewlineGoes(c, first + rest);
    Assoc([c], first, rest);
  }

  lemma {:induction false} FirstNewlineGoes(c: char, tail: string)
    requires c !in tail && c != '\n' && Live([c] + ("\n" + tail), 0, 2)
    ensures EditOnce([c] + ("\n" + tail), Edit([c, '\n'], [c])) == Ok([c] + tail)
  {
    hide Live, Generated, OccursAt, EditOnce;
    var body, n := [c] + ("\n" + tail), [c, '\n'];
    assert body == [] + n + tail;
    SoleOccurrence([], n, tail);
    OnlyOccurrence(body, Edit(n, [c]), 0);
    assert Replaced(body, 0, Edit(n, [c])) == [c] + tail;
  }

  lemma {:induction false} RewriteEdit(c: char, d: char, u: string)
    requires Plain(c) && Plain(d) && c != d
    ensures EditOnce(Joined(c, [d]), Edit([d], u)) == Ok(Joined(c, u))
  {
    var pre, post := [c] + SNAPSHOT_BEGIN + "\n", "\n" + SNAPSHOT_END;
    assert d !in pre && d !in post;
    JoinedIsUnprotected(c, d);
    hide Generated, EditOnce, Plain;
    SplitJoined([c], SNAPSHOT_BEGIN, [d], SNAPSHOT_END);
    SplitJoined([c], SNAPSHOT_BEGIN, u, SNAPSHOT_END);
    assert Joined(c, [d]) == pre + [d] + post && Joined(c, u) == pre + u + post;
    RewriteAny(pre, d, u, post);
  }

  lemma {:induction false} SplitJoined(c: string, b: string, x: string, e: string)
    ensures (c + b) + ("\n" + (x + ("\n" + e))) == (c + b + "\n") + x + ("\n" + e)
  {
  }

  lemma {:induction false} RewriteAny(pre: string, d: char, u: string, post: string)
    requires d !in pre && d !in post
    requires forall k :: 0 <= k < |pre + [d] + post| ==> !Generated(pre + [d] + post)[k]
    ensures EditOnce(pre + [d] + post, Edit([d], u)) == Ok(pre + u + post)
  {
    hide Generated, OccursAt, EditOnce;
    var body, e := pre + [d] + post, Edit([d], u);
    SoleOccurrence(pre, [d], post);
    OnlyOccurrence(body, e, |pre|);
    assert Replaced(body, |pre|, e) == pre + u + post;
  }

  // ---------- appending ----------

  lemma {:induction false} TrimEndPrefix(s: string)
    ensures TrimEnd(s) <= s && forall k :: |TrimEnd(s)| <= k < |s| ==> IsSpace(s[k])
  {
    if s != "" && IsSpace(s[|s| - 1]) { TrimEndPrefix(s[..|s| - 1]); }
  }

  lemma {:induction false} TrimEndOf(s: string, t: string)
    requires t != "" && !IsSpace(t[|t| - 1])
    ensures TrimEnd(s + t + "\n") == s + t
  {
    assert (s + t + "\n")[..|s + t|] == s + t;
    assert (s + t)[|s + t| - 1] == t[|t| - 1];
  }

  /** Where an addition goes. */
  function Lead(base: string): string {
    if base == "" then "" else base + "\n\n"
  }

  lemma {:induction false} AppendedIs(body: string, t: string)
    requires Appended(body, t).Ok?
    ensures Appended(body, t).body == Lead(TrimEnd(body)) + TrimEnd(t) + "\n"
    ensures TrimEnd(t) != "" && !IsSpace(TrimEnd(t)[|TrimEnd(t)| - 1])
  {
    TrimEndClean(t);
    assert Trim("") == "";
    hide TrimEnd, Trim;
    var base, addition := TrimEnd(body), TrimEnd(t);
    if base == "" { assert Lead(base) + addition + "\n" == addition + "\n"; }
  }

  /** APPENDING DOES NOT STACK BLANK LINES. Two appends leave the old text, each addition one
      blank line below the one before, and a single newline at the end; the old text loses
      only the blanks it ended in. */
  lemma {:induction false} AppendTwice(body: string, t: string, u: string)
    requires Appended(body, t).Ok? && Appended(Appended(body, t).body, u).Ok?
    ensures var base, one := TrimEnd(body), Appended(body, t).body;
      && base <= body && (forall k :: |base| <= k < |body| ==> IsSpace(body[k]))
      && one == Lead(base) + TrimEnd(t) + "\n"
      && Appended(one, u).body == one + "\n" + TrimEnd(u) + "\n"
  {
    hide TrimEnd, Trim, Appended, Lead;
    TrimEndPrefix(body);
    AppendedIs(body, t);
    var base, one := TrimEnd(body), Appended(body, t).body;
    AppendedIs(one, u);
    TrimEndOf(Lead(base), TrimEnd(t));
    var head := Lead(base) + TrimEnd(t);
    LeadOf(head);
    TwoNewlines(head, TrimEnd(u));
  }

  lemma {:induction false} LeadOf(head: string)
    ensures head != "" ==> Lead(head) == head + "\n\n"
  {
  }

  lemma {:induction false} TwoNewlines(head: string, x: string)
    ensures head + "\n\n" + x + "\n" == head + "\n" + "\n" + x + "\n"
  {
    assert head + "\n\n" == head + "\n" + "\n";
  }
}
