/** For which anchors "exactly once" means what it says, over any number of lines. */
module EditAnchors {
  import opened Options
  import opened Texts
  import opened PageEdits
  import opened EditBatches
  import opened EditSnapshots

  /** No line that lies whole in the text begins a snapshot. */
  predicate NoMarkerInside(t: string) {
    forall i :: 0 < i < |Lines(t)| - 1 ==> Trim(Lines(t)[i]) != SNAPSHOT_BEGIN
  }

  predicate Border(n: string, k: nat) {
    0 < k < |n| && n[k..] == n[..|n| - k]
  }

  /** Two occurrences of the anchor can overlap outside every snapshot. */
  predicate CanOverlap(n: string) {
    exists k :: 0 < k < |n| && Border(n, k) && NoMarkerInside(n[..k] + n)
  }

  // ---------- two live occurrences that overlap ----------

  lemma {:induction false} MiddleLine(x: string, line: string, y: string)
    requires '\n' !in line
    ensures Lines(x + ("\n" + (line + ("\n" + y)))) == Lines(x) + [line] + Lines(y)
  {
    hide Lines;
    LinesAppend(x, "\n" + (line + ("\n" + y)));
    NewlineFirst(line + ("\n" + y));
    FirstLine(line, y);
    var p := Lines(x);
    assert p[|p| - 1] + "" == p[|p| - 1];
    assert Meet(p, [""] + ([line] + Lines(y))) == p + ([line] + Lines(y));
  }

  /** The characters of a begin marker's line are generated. */
  lemma {:induction false} MarkerChar(body: string, x: string, line: string, y: string, c: nat)
    requires '\n' !in line && Trim(line) == SNAPSHOT_BEGIN && c < |line|
    requires body == x + ("\n" + (line + ("\n" + y)))
    ensures |x| + 1 + c < |body| && Generated(body)[|x| + 1 + c]
  {
    hide Lines, Trim, Marks, OpenAt;
    var a, b := line[..c], line[c..];
    var pre, rest := x + ("\n" + a), b + ("\n" + y);
    assert line == a + b && b[0] == line[c] && line[c] in line;
    assert rest[0] == b[0] != '\n';
    MiddleLine(x, line, y);
    LinesAppend(x, "\n" + a);
    NewlineFirst(a);
    assert '\n' !in a by { assert forall k :: 0 <= k < |a| ==> a[k] == line[k]; }
    OneLine(a);
    assert |Lines(pre)| == |Lines(x)| + 1;
    SplitMarker(x, a, b, y);
    assert body == pre + rest;
    MarkOfLine(pre, rest, false);
    assert (Lines(x) + [line] + Lines(y))[|Lines(x)|] == line;
    assert Generated(body) == Marks(Lines(body), false) by { GeneratedIs(body); }
  }

  lemma {:induction false} SplitMarker(x: string, a: string, b: string, y: string)
    ensures x + ("\n" + ((a + b) + ("\n" + y))) == (x + ("\n" + a)) + (b + ("\n" + y))
  {
  }

  lemma {:induction false} GeneratedIs(body: string)
    ensures Generated(body) == Marks(Lines(body), false)
  {
  }

  /** An inner line of a text, between its newlines. */
  lemma {:induction false} InnerLineOf(t: string, i: nat) returns (u: string, line: string, v: string)
    requires 0 < i < |Lines(t)| - 1
    ensures t == u + ("\n" + (line + ("\n" + v))) && '\n' !in line && line == Lines(t)[i]
  {
    hide Lines;
    var b: string;
    u, b := SplitAtLine(t, i);
    LinesAppend(u, "\n" + b);
    NewlineFirst(b);
    assert |Lines(b)| > 1;
    if '\n' !in b { OneLine(b); }
    line, v := FirstNewline(b);
    MiddleLine(u, line, v);
  }

  /** An occurrence that overlaps the start of a live one leaves no begin marker inside the two. */
  lemma {:induction false} LiveOverlap(body: string, n: string, h: nat, j: nat)
    requires OccursAt(body, n, h) && LiveAt(body, n, j) && h < j < h + |n|
    ensures Border(n, j - h) && NoMarkerInside(n[..j - h] + n)
  {
    OverlapIsBorder(body, n, h, j);
    var k := j - h;
    var t := n[..k] + n;
    hide Lines, Trim, Generated, OccursAt;
    forall i | 0 < i < |Lines(t)| - 1 ensures Trim(Lines(t)[i]) != SNAPSHOT_BEGIN {
      MarkerInOverlap(body, n, h, j, i);
    }
  }

  lemma {:induction false} MarkerInOverlap(body: string, n: string, h: nat, j: nat, i: nat)
    requires OccursAt(body, n, h) && LiveAt(body, n, j) && h < j < h + |n| && Border(n, j - h)
    requires 0 < i < |Lines(n[..j - h] + n)| - 1
    ensures Trim(Lines(n[..j - h] + n)[i]) != SNAPSHOT_BEGIN
  {
    hide Lines, Trim, Generated;
    var k, t := j - h, n[..j - h] + n;
    var u, line, v := InnerLineOf(t, i);
    MarkersDiffer();
    TrimNothing(line);
    if Trim(line) != SNAPSHOT_BEGIN {
    } else if |u| + 1 + |line| > k {
      OverlapText(body, n, h, j);
      var pre, post := body[..h], body[j + |n|..];
      assert body == (pre + u) + ("\n" + (line + ("\n" + (v + post)))) by { AroundMarker(pre, u, line, v, post); }
      var c := if |u| + 1 >= k then 0 else k - |u| - 1;
      MarkerChar(body, pre + u, line, v + post, c);
    } else {
      var v2 := MarkerInAnchor(n, k, u, line, v);
      var pre, post := body[..j], body[j + |n|..];
      assert body == pre + n + post;
      assert body == (pre + u) + ("\n" + (line + ("\n" + (v2 + post)))) by { AroundMarker(pre, u, line, v2, post); }
      MarkerChar(body, pre + u, line, v2 + post, 0);
    }
  }

  lemma {:induction false} TrimNothing(s: string)
    ensures s == "" ==> Trim(s) == ""
  {
  }

  lemma {:induction false} AroundMarker(pre: string, u: string, line: string, v: string, post: string)
    ensures pre + (u + ("\n" + (line + ("\n" + v)))) + post == (pre + u) + ("\n" + (line + ("\n" + (v + post))))
  {
  }

  /** The text two overlapping occurrences cover. */
  lemma {:induction false} OverlapText(body: string, n: string, h: nat, j: nat)
    requires OccursAt(body, n, h) && OccursAt(body, n, j) && h < j < h + |n|
    ensures j + |n| <= |body| && body == body[..h] + (n[..j - h] + n) + body[j + |n|..]
  {
    assert body[h..h + |n|][..j - h] == body[h..j];
    assert body == body[..h] + body[h..j] + body[j..j + |n|] + body[j + |n|..];
  }

  /** A marker line that ends before the second occurrence begins lies whole in the anchor. */
  lemma {:induction false} MarkerInAnchor(n: string, k: nat, u: string, line: string, v: string) returns (v2: string)
    requires Border(n, k) && n[..k] + n == u + ("\n" + (line + ("\n" + v))) && |u| + 1 + |line| <= k
    ensures n == u + ("\n" + (line + ("\n" + v2)))
  {
    var t, m := n[..k] + n, |u| + 1 + |line| + 1;
    assert n == n[..k] + n[k..] == n[..k] + n[..|n| - k];
    assert t[..|n|] == n;
    assert t == (u + ("\n" + (line + "\n"))) + v;
    assert t[..m] == u + ("\n" + (line + "\n"));
    v2 := n[m..];
    assert n[..m] == t[..|n|][..m] == t[..m];
    assert n == n[..m] + v2;
    assert (u + ("\n" + (line + "\n"))) + v2 == u + ("\n" + (line + ("\n" + v2)));
  }

  // ---------- an anchor that cannot overlap itself live ----------

  /** An occurrence is a hit, or a hit before it overlaps it. */
  lemma {:induction false} HitOrOverlapped(h: string, n: string, from: nat, at: nat)
    requires n != "" && from <= at && OccursAt(h, n, at)
    ensures at in Hits(h, n, from) || exists i :: i in Hits(h, n, from) && i < at < i + |n|
    decreases |h| - from
  {
    hide *;
    IndexFound(h, n, from, at);
    HitsUnfold(h, n, from);
    var i := IndexOf(h, n, from).value;
    var rest := Hits(h, n, i + |n|);
    var hits := [i] + rest;
    assert Hits(h, n, from) == hits && hits[0] == i;
    assert hits[0] in hits && i in Hits(h, n, from);
    assert forall m :: m in rest ==> m in hits;
    if i + |n| <= at { HitOrOverlapped(h, n, i + |n|, at); }
  }

  lemma {:induction false} IndexFound(h: string, n: string, from: nat, at: nat)
    requires from <= at && OccursAt(h, n, at)
    ensures var i := IndexOf(h, n, from); i.Some? && from <= i.value <= at && i.value + |n| <= |h|
  {
    IndexInside(h, n, from);
    hide OccursAt;
    assert IndexOf(h, n, from).None? ==> !OccursAt(h, n, at);
  }

  lemma {:induction false} MadeOnce(body: string, n: string, r: string)
    requires n != "" && !CanOverlap(n) && EditOnce(body, Edit(n, r)).Ok?
    ensures OnceLive(body, n)
  {
    hide Hits, Live, OnlyLive, OccursAt, CanOverlap, LiveHits, EditOnce;
    EditOkIff(body, Edit(n, r));
    LiveHitsAre(body, n);
    var at := LiveHits(body, n)[0];
    assert at in LiveHits(body, n);
    assert LiveAt(body, n, at);
    forall j | LiveAt(body, n, j) ensures j == at { OnlyThisLive(body, n, j, at); }
  }

  lemma {:induction false} OnlyThisLive(body: string, n: string, j: nat, at: nat)
    requires n != "" && !CanOverlap(n) && LiveAt(body, n, j) && LiveHits(body, n) == [at]
    ensures j == at
  {
    hide Live, OccursAt, CanOverlap, LiveHits;
    LiveIsHit(body, n, j);
  }

  lemma {:induction false} LiveIsHit(body: string, n: string, j: nat)
    requires n != "" && !CanOverlap(n) && LiveAt(body, n, j)
    ensures j in LiveHits(body, n)
  {
    hide Live, OccursAt, NoMarkerInside, Border;
    HitOrOverlapped(body, n, 0, j);
    HitsOccur(body, n, 0);
    if i :| i in Hits(body, n, 0) && i < j < i + |n| {
      LiveOverlap(body, n, i, j);
    } else {
      OnlyLiveMembers(body, |n|, Hits(body, n, 0));
    }
  }

  // ---------- an anchor that can ----------

  /** A letter that is not this character. */
  function Other(c: char): char {
    if c == 'x' then 'y' else 'x'
  }

  /** A page of nothing but two overlapping occurrences between two letters. */
  function TwoOf(n: string, k: nat): string
    requires n != "" && k <= |n|
  {
    [Other(n[0])] + (n[..k] + n) + [Other(n[|n| - 1])]
  }

  lemma {:induction false} TwoOccur(n: string, k: nat)
    requires Border(n, k)
    ensures var h := TwoOf(n, k); OccursAt(h, n, 1) && OccursAt(h, n, 1 + k) && !OccursAt(h, n, 0)
    ensures var h := TwoOf(n, k); forall j: nat :: OccursAt(h, n, j) ==> j < 1 + |n|
  {
    var h := TwoOf(n, k);
    FirstOfTwo(n, k);
    SecondOfTwo(n, k);
    FirstDiffers(h, n);
    hide OccursAt, TwoOf;
    forall j: nat | OccursAt(h, n, j) ensures j < 1 + |n| { EndsBefore(h, n, j); }
  }

  lemma {:induction false} FirstOfTwo(n: string, k: nat)
    requires Border(n, k)
    ensures OccursAt(TwoOf(n, k), n, 1)
  {
    var a, z, tail := [Other(n[0])], [Other(n[|n| - 1])], n[|n| - k..];
    OverlapEither(n, k);
    Assoc3(a, n, tail, z);
    OccursIn(a, n, tail + z);
  }

  lemma {:induction false} SecondOfTwo(n: string, k: nat)
    requires Border(n, k)
    ensures OccursAt(TwoOf(n, k), n, 1 + k)
    ensures var h := TwoOf(n, k); |h| == |n| + k + 2 && h[0] == Other(n[0]) && h[|h| - 1] == Other(n[|n| - 1])
  {
    var a, z, head := [Other(n[0])], [Other(n[|n| - 1])], n[..k];
    Assoc(a, head, n);
    OccursIn(a + head, n, z);
  }

  lemma {:induction false} Assoc3(a: string, n: string, tail: string, z: string)
    ensures a + (n + tail) + z == a + n + (tail + z)
  {
  }

  lemma {:induction false} OverlapEither(n: string, k: nat)
    requires Border(n, k)
    ensures n[..k] + n == n + n[|n| - k..]
  {
    assert n == n[..k] + n[k..] == n[..|n| - k] + n[|n| - k..];
    assert n[..k] + (n[..|n| - k] + n[|n| - k..]) == (n[..k] + n[k..]) + n[|n| - k..];
  }

  lemma {:induction false} OccursIn(a: string, n: string, b: string)
    ensures OccursAt(a + n + b, n, |a|)
  {
    assert (a + n + b)[|a|..|a| + |n|] == n;
  }

  lemma {:induction false} FirstDiffers(h: string, n: string)
    requires h != "" && n != "" && h[0] != n[0]
    ensures !OccursAt(h, n, 0)
  {
    if |n| <= |h| { assert h[0..|n|][0] == h[0]; }
  }

  /** An occurrence does not reach the end of a text that ends otherwise. */
  lemma {:induction false} EndsBefore(h: string, n: string, j: nat)
    requires OccursAt(h, n, j) && n != "" && h != "" && h[|h| - 1] != n[|n| - 1]
    ensures j + |n| < |h|
  {
    assert h[j..j + |n|][|n| - 1] == h[j + |n| - 1];
  }

  lemma {:induction false} TwoHits(n: string, k: nat)
    requires Border(n, k)
    ensures Hits(TwoOf(n, k), n, 0) == [1]
  {
    var h := TwoOf(n, k);
    TwoOccur(n, k);
    var i, j := IndexOf(h, n, 0), IndexOf(h, n, 1 + |n|);
    hide OccursAt, IndexOf, TwoOf;
    assert i == Some(1) && j == None;
    assert Hits(h, n, 1 + |n|) == [];
  }

  lemma {:induction false} LastStaysInTrim(s: string)
    requires s != "" && !IsSpace(s[|s| - 1])
    ensures Trim(s) != "" && Trim(s)[|Trim(s)| - 1] == s[|s| - 1]
  {
    var l, r := TrimSplit(s);
    hide Trim, IsSpace;
    var k := |s| - 1;
    NotInMargins(s, l, Trim(s), r, k);
    assert r == [];
  }

  lemma MarkerEnds()
    ensures SNAPSHOT_BEGIN != "" && SNAPSHOT_BEGIN[0] == '<' && SNAPSHOT_BEGIN[|SNAPSHOT_BEGIN| - 1] == '>'
  {
  }

  /** The page between the letters holds no begin marker. */
  lemma {:induction false} NoMarkerAround(a: char, t: string, z: char)
    requires a in {'x', 'y'} && z in {'x', 'y'} && NoMarkerInside(t)
    ensures forall i :: 0 <= i < |Lines([a] + t + [z])| ==> Trim(Lines([a] + t + [z])[i]) != SNAPSHOT_BEGIN
  {
    hide Lines, Trim;
    OneLine([a]);
    OneLine([z]);
    LinesThree([a], t, [z]);
    MeetThree([[a]], Lines(t), [[z]]);
    MarkerEnds();
    var ls, ts, m := Lines([a] + t + [z]), Lines(t), |Lines(t)| - 1;
    forall i | 0 <= i < |ls| ensures Trim(ls[i]) != SNAPSHOT_BEGIN {
      if i == 0 {
        assert ls[0][0] == a;
        FirstStays(ls[0]);
      } else if i == m {
        assert ls[m][|ls[m]| - 1] == z;
        LastStaysInTrim(ls[m]);
      } else {
        MiddleIs([a], ts, [z], i);
      }
    }
  }

  lemma {:induction false} MiddleIs(a: string, ts: seq<string>, z: string, i: nat)
    requires |ts| >= 1 && 0 < i < |ts| - 1
    ensures i < |Meet(Meet([a], ts), [z])| && Meet(Meet([a], ts), [z])[i] == ts[i]
  {
  }

  lemma {:induction false} OverlapAccepted(n: string, k: nat, r: string)
    requires Border(n, k) && NoMarkerInside(n[..k] + n)
    ensures EditOnce(TwoOf(n, k), Edit(n, r)).Ok? && !OnceLive(TwoOf(n, k), n)
  {
    hide Generated, Hits, OccursAt, NoMarkerInside, Lines;
    var h := TwoOf(n, k);
    TwoHits(n, k);
    TwoOccur(n, k);
    NoMarkerAround(Other(n[0]), n[..k] + n, Other(n[|n| - 1]));
    NothingGenerated(h);
    assert Live(h, 1, |n|) && Live(h, 1 + k, |n|) by { OccursInside(h, n, 1); OccursInside(h, n, 1 + k); }
    assert LiveAt(h, n, 1) && LiveAt(h, n, 1 + k);
    assert [1][..0] == [];
    assert OnlyLive(h, |n|, [1]) == [1];
  }

  lemma {:induction false} NothingGenerated(body: string)
    requires forall i :: 0 <= i < |Lines(body)| ==> Trim(Lines(body)[i]) != SNAPSHOT_BEGIN
    ensures forall k :: 0 <= k < |body| ==> !Generated(body)[k]
  {
    hide Lines, Trim;
    NoMarker(Lines(body));
    GeneratedIs(body);
  }

  /** The rule: an edit with the anchor is made exactly when the anchor occurs once outside the
      snapshots. */
  ghost predicate MeansExactlyOnce(n: string) {
    forall body, r :: EditOnce(body, Edit(n, r)).Ok? <==> OnceLive(body, n)
  }

  /** An anchor that occurs once, and cannot overlap itself there, is accepted. */
  lemma {:induction false} OnceIsMade(body: string, n: string, r: string)
    requires n != "" && !CanOverlap(n) && OnceLive(body, n)
    ensures EditOnce(body, Edit(n, r)).Ok?
  {
    hide Hits, Live, OnlyLive, OccursAt, CanOverlap, LiveHits, EditOnce;
    EditOkIff(body, Edit(n, r));
    LiveHitsAre(body, n);
    var at :| LiveAt(body, n, at) && forall j :: LiveAt(body, n, j) ==> j == at;
    LiveIsHit(body, n, at);
    if |LiveHits(body, n)| > 1 { TwoMembers(LiveHits(body, n), at); }
  }

  /** WHEN THE RULE HOLDS, for every anchor: an edit with it is made exactly when it occurs once
      outside the snapshots, on every page, if and only if two occurrences of the anchor
      cannot overlap, or only around the begin marker of a snapshot. */
  lemma {:induction false} ExactlyOnceIff(n: string)
    requires n != ""
    ensures MeansExactlyOnce(n) <==> !CanOverlap(n)
    ensures MeansOnce(n) <==> !CanOverlap(n)
  {
    hide EditOnce, OnceLive, NoMarkerInside, Border;
    if CanOverlap(n) {
      var k :| 0 < k < |n| && Border(n, k) && NoMarkerInside(n[..k] + n);
      OverlapAccepted(n, k, "");
    } else {
      forall body, r ensures EditOnce(body, Edit(n, r)).Ok? <==> OnceLive(body, n) {
        if EditOnce(body, Edit(n, r)).Ok? { MadeOnce(body, n, r); }
        if OnceLive(body, n) { OnceIsMade(body, n, r); }
      }
    }
  }

  /** For an anchor on one line that is: no proper end of it is also its beginning. */
  lemma {:induction false} ExactlyOnceOnALine(n: string)
    requires n != "" && '\n' !in n
    ensures MeansExactlyOnce(n) <==> BorderFree(n)
    ensures MeansOnce(n) <==> BorderFree(n)
  {
    hide MeansOnce, MeansExactlyOnce;
    ExactlyOnceIff(n);
    forall k | 0 < k < |n| && Border(n, k) ensures NoMarkerInside(n[..k] + n) {
      assert '\n' !in n[..k] + n by { assert forall i :: 0 <= i < k ==> n[..k][i] == n[i]; }
      OneLine(n[..k] + n);
    }
  }

  // ---------- refused though it occurs once ----------

  /** A snapshot of two marker lines, and two lines of one character like the end marker's last. */
  function AfterMarker(begin: string, end: string): string {
    begin + ("\n" + (end + ("\n" + (">" + ("\n" + ">")))))
  }

  /** Where the anchor stands on that page: over the end of the marker, and just after it. */
  lemma {:induction false} BareOccurs(begin: string, end: string, i: nat)
    requires '\n' !in begin && '\n' !in end && end != "" && end[0] != '>' && end[|end| - 1] == '>'
    ensures OccursAt(AfterMarker(begin, end), ">\n>", i) <==> i == |begin| + |end| || i == |begin| + |end| + 2
  {
    var h, b, e := AfterMarker(begin, end), |begin|, |begin| + 1 + |end|;
    assert |h| == e + 4;
    assert h[b] == '\n' && h[e] == '\n' && h[e + 2] == '\n' && h[e + 1] == '>' && h[e + 3] == '>';
    assert forall k :: 0 <= k < b ==> h[k] == begin[k];
    assert forall k :: b < k < e ==> h[k] == end[k - b - 1];
    if i + 3 <= |h| { assert h[i..i + 3] == [h[i], h[i + 1], h[i + 2]]; }
    assert ">\n>" == ['>', '\n', '>'];
  }

  lemma {:induction false} AfterMarkerLines(begin: string, end: string)
    requires '\n' !in begin && '\n' !in end
    ensures Lines(AfterMarker(begin, end)) == [begin, end, ">", ">"]
  {
    hide Lines;
    OneLine(">");
    FirstLine(">", ">");
    FirstLine(end, ">" + ("\n" + ">"));
    FirstLine(begin, end + ("\n" + (">" + ("\n" + ">"))));
  }

  /** A UNIQUE ANCHOR MAY BE REFUSED. On a page with a snapshot of its two markers and two more
      lines the anchor occurs once outside the snapshot; but the search first meets it at the
      end of the marker, and passes over the place where it may be edited. */
  lemma {:induction false} RefusedThoughUnique(r: string)
    ensures var body := AfterMarker(SNAPSHOT_BEGIN, SNAPSHOT_END);
      OnceLive(body, ">\n>") && EditOnce(body, Edit(">\n>", r)) == Err(OnlyGenerated)
  {
    MarkersAreLines();
    MarkerShape();
    TrimBracket();
    hide Trim;
    var begin, end := SNAPSHOT_BEGIN, SNAPSHOT_END;
    assert AroundSnapshot(begin, end, ">");
    hide AroundSnapshot;
    var body, n, e := AfterMarker(begin, end), ">\n>", |begin| + |end|;
    MarksAfter(begin, end);
    forall i: nat ensures OccursAt(body, n, i) <==> i == e || i == e + 2 { BareOccurs(begin, end, i); }
    hide AfterMarker, OccursAt, Generated;
    OneHit(body, n, e);
    assert !Live(body, e, 3) && Live(body, e + 2, 3);
    assert LiveAt(body, n, e + 2);
    assert [e][..0] == [];
    assert OnlyLive(body, 3, [e]) == [];
  }

  lemma MarkerShape()
    ensures SNAPSHOT_END != "" && SNAPSHOT_END[0] != '>' && SNAPSHOT_END[|SNAPSHOT_END| - 1] == '>'
  {
  }

  lemma {:induction false} OneHit(h: string, n: string, e: nat)
    requires |n| == 3 && forall i: nat :: OccursAt(h, n, i) <==> i == e || i == e + 2
    ensures Hits(h, n, 0) == [e]
  {
    hide OccursAt;
    var a, b := IndexOf(h, n, 0), IndexOf(h, n, e + 3);
    assert OccursAt(h, n, e);
    assert a == Some(e) && b == None;
    HitsUnfold(h, n, 0);
    HitsUnfold(h, n, e + 3);
  }

  /** Lines that open, end and follow a snapshot. */
  predicate AroundSnapshot(begin: string, end: string, line: string) {
    && OpenAfter(begin, false) && GeneratedLine(end, true) && !OpenAfter(end, true)
    && !GeneratedLine(line, false) && !OpenAfter(line, false)
  }

  /** What is generated on that page. */
  lemma {:induction false} MarksAfter(begin: string, end: string)
    requires '\n' !in begin && '\n' !in end && end != "" && AroundSnapshot(begin, end, ">")
    ensures var body, e := AfterMarker(begin, end), |begin| + |end|;
      && |body| == e + 5 && Generated(body)[e]
      && forall k :: e < k < e + 5 ==> !Generated(body)[k]
  {
    AfterMarkerLines(begin, end);
    hide Lines, OpenAfter, GeneratedLine;
    var body, ls := AfterMarker(begin, end), [begin, end, ">", ">"];
    GeneratedIs(body);
    assert ls[1..] == [end, ">", ">"] && [end, ">", ">"][1..] == [">", ">"] && [">", ">"][1..] == [">"];
    MarksStep(ls, false);
    MarksStep([end, ">", ">"], true);
    MarksStep([">", ">"], false);
    MarksStep([">"], false);
    NoMarks(false);
    assert Marks([">"][1..], false) == [];
    var m0, m1 := LineMarks(begin, false, false), LineMarks(end, true, false);
    assert |m0| == |begin| + 1 && |m1| == |end| + 1;
    assert m1[|end| - 1] && !m1[|end|];
    assert LineMarks(">", false, false) == [false, false] && LineMarks(">", false, true) == [false];
    assert Marks(ls, false) == m0 + (m1 + ([false, false] + ([false] + [])));
  }

  lemma TrimBracket()
    ensures Trim(">") == ">" && ">" != SNAPSHOT_BEGIN && ">" != SNAPSHOT_END
  {
    BareIsTrimmed(">");
    assert SNAPSHOT_BEGIN[0] == '<' && SNAPSHOT_END[0] == '<';
  }
}
