/** Ordered find-and-replace on a page body, and append (src/lib/page-patch.ts). */
module PageEdits {
  import opened Options
  import opened Texts

  const SNAPSHOT_BEGIN: string :=
    "<!-- okf-view:snapshot" + " (generated: do not edit," + " recomputed on save) -->"
  const SNAPSHOT_END: string := "<!-- /okf-view:snapshot -->"

  datatype Edit = Edit(find: string, replace: string)

  datatype Refusal = EmptyFind | NotFound | OnlyGenerated | Ambiguous(hits: nat) | EmptyAppend | NothingToDo
  datatype Result = Ok(body: string) | Err(why: Refusal)

  // ---------- where a text occurs ----------

  predicate OccursAt(h: string, n: string, i: nat) {
    i + |n| <= |h| && h[i..i + |n|] == n
  }

  /** indexOf. */
  function IndexOf(h: string, n: string, from: nat): (r: Option<nat>)
    ensures r.Some? ==> from <= r.value && OccursAt(h, n, r.value)
    ensures forall i :: from <= i && (r.Some? ==> i < r.value) ==> !OccursAt(h, n, i)
    decreases |h| - from
  {
    if from + |n| > |h| then None
    else if OccursAt(h, n, from) then Some(from)
    else IndexOf(h, n, from + 1)
  }

  /** Left to right, each hit past the end of the one before. */
  function Hits(h: string, n: string, from: nat): seq<nat>
    requires n != ""
    decreases |h| - from
  {
    match IndexOf(h, n, from)
    case None => []
    case Some(i) => [i] + Hits(h, n, i + |n|)
  }

  method AllIndexesOf(h: string, n: string) returns (hits: seq<nat>)
    requires n != ""
    ensures hits == Hits(h, n, 0)
  {
    hide IndexOf;
    hits := [];
    var from: nat := 0;
    var i := IndexOf(h, n, from);
    while i.Some?
      invariant i == IndexOf(h, n, from)
      invariant Hits(h, n, 0) == hits + Hits(h, n, from)
      decreases |h| - from
    {
      hits := hits + [i.value];
      from := i.value + |n|;
      i := IndexOf(h, n, from);
    }
  }

  // ---------- generated text ----------

  /** Whether a snapshot is still open after a line. */
  function OpenAfter(line: string, open: bool): bool {
    if open then Trim(line) != SNAPSHOT_END else Trim(line) == SNAPSHOT_BEGIN
  }

  /** A line of a snapshot: from its begin marker to its end marker, or to the end of the page. */
  predicate GeneratedLine(line: string, open: bool) {
    open || Trim(line) == SNAPSHOT_BEGIN
  }

  function Repeat(b: bool, n: nat): (r: seq<bool>)
    ensures |r| == n && forall i :: 0 <= i < n ==> r[i] == b
  {
    seq(n, i => b)
  }

  /** For each character of the lines joined by newlines, whether it is generated. */
  function Marks(lines: seq<string>, open: bool): seq<bool> {
    if lines == [] then []
    else
      var here := Repeat(GeneratedLine(lines[0], open), |lines[0]|);
      if |lines| == 1 then here
      else here + [OpenAfter(lines[0], open)] + Marks(lines[1..], OpenAfter(lines[0], open))
  }

  function Size(lines: seq<string>): nat {
    if lines == [] then 0 else if |lines| == 1 then |lines[0]| else |lines[0]| + 1 + Size(lines[1..])
  }

  lemma {:induction false} MarksSize(lines: seq<string>, open: bool)
    ensures |Marks(lines, open)| == Size(lines)
  {
    if |lines| > 1 { MarksSize(lines[1..], OpenAfter(lines[0], open)); }
  }

  lemma {:induction false} LinesSize(s: string)
    ensures Size(Lines(s)) == |s|
  {
    if s != "" {
      LinesSize(s[1..]);
      var rest := Lines(s[1..]);
      assert ([[s[0]] + rest[0]] + rest[1..])[1..] == rest[1..];
      assert ([""] + rest)[1..] == rest;
    }
  }

  /** Which characters of a body are generated. */
  function Generated(body: string): (m: seq<bool>)
    ensures |m| == |body|
  {
    MarksSize(Lines(body), false);
    LinesSize(body);
    Marks(Lines(body), false)
  }

  datatype Range = Range(from: nat, to: nat)

  predicate InSome(rs: seq<Range>, k: nat) {
    exists r :: r in rs && r.from <= k < r.to
  }

  /** The loop's ranges so far, and one still open, cover the marked characters. */
  ghost predicate CoversMarks(rs: seq<Range>, start: Option<nat>, done: seq<bool>) {
    && (forall k: nat :: k < |done| ==> (done[k] <==> InSome(rs, k) || (start.Some? && start.value <= k)))
    && (forall r :: r in rs ==> r.from < r.to <= |done|)
  }

  lemma InSomeMore(rs: seq<Range>, r: Range)
    ensures forall k: nat :: InSome(rs + [r], k) <==> InSome(rs, k) || r.from <= k < r.to
  {
    forall k: nat ensures InSome(rs + [r], k) <==> InSome(rs, k) || r.from <= k < r.to {
      if r.from <= k < r.to { assert r in rs + [r]; }
      if q :| q in rs && q.from <= k < q.to { assert q in rs + [r]; }
    }
  }

  /** A line outside every snapshot adds unmarked characters; one that opens a snapshot, marked. */
  lemma ClosedLine(rs: seq<Range>, done: seq<bool>, opens: bool, n: nat)
    requires CoversMarks(rs, None, done)
    ensures CoversMarks(rs, if opens then Some(|done|) else None, done + Repeat(opens, n))
  {
  }

  /** A line inside a snapshot adds marked characters; its end marker is marked, the newline
      after it is not. */
  lemma OpenLine(rs: seq<Range>, start: nat, done: seq<bool>, n: nat)
    requires CoversMarks(rs, Some(start), done) && start <= |done|
    ensures CoversMarks(rs, Some(start), done + Repeat(true, n))
  {
  }

  lemma EndLine(rs: seq<Range>, start: nat, done: seq<bool>, n: nat, m: nat)
    requires CoversMarks(rs, Some(start), done) && start <= |done| && start < |done| + n
    ensures CoversMarks(rs + [Range(start, |done| + n)], None, done + Repeat(true, n) + Repeat(false, m))
  {
    InSomeMore(rs, Range(start, |done| + n));
  }

  /** What one line, and the newline after it if there is one, are marked. */
  function LineMarks(line: string, open: bool, last: bool): seq<bool> {
    Repeat(GeneratedLine(line, open), |line|) + (if last then [] else [OpenAfter(line, open)])
  }

  lemma LineMarksAre(line: string, open: bool, last: bool)
    ensures var m := if last then 0 else 1;
      LineMarks(line, open, last) ==
        if open && Trim(line) == SNAPSHOT_END then Repeat(true, |line|) + Repeat(false, m)
        else Repeat(GeneratedLine(line, open), |line| + m)
  {
  }

  /** What the loop makes of one line. */
  lemma OneMoreLine(rs: seq<Range>, start: Option<nat>, done: seq<bool>, line: string, last: bool)
    requires CoversMarks(rs, start, done) && (start.Some? ==> start.value < |done|)
    ensures var open, next := start.Some?, done + LineMarks(line, start.Some?, last);
      if !open then CoversMarks(rs, if Trim(line) == SNAPSHOT_BEGIN then Some(|done|) else None, next)
      else if Trim(line) == SNAPSHOT_END then CoversMarks(rs + [Range(start.value, |done| + |line|)], None, next)
      else CoversMarks(rs, start, next)
  {
    hide Trim, LineMarks, CoversMarks, InSome;
    var m := if last then 0 else 1;
    LineMarksAre(line, start.Some?, last);
    if start.None? {
      ClosedLine(rs, done, Trim(line) == SNAPSHOT_BEGIN, |line| + m);
    } else if Trim(line) == SNAPSHOT_END {
      EndLine(rs, start.value, done, |line|, m);
      assert done + (Repeat(true, |line|) + Repeat(false, m)) == done + Repeat(true, |line|) + Repeat(false, m);
    } else {
      OpenLine(rs, start.value, done, |line| + m);
    }
  }

  /** snapshotRanges. */
  method SnapshotRanges(body: string) returns (ranges: seq<Range>)
    ensures forall k: nat :: k < |body| ==> (Generated(body)[k] <==> InSome(ranges, k))
    ensures forall r :: r in ranges ==> r.from < r.to <= |body|
  {
    hide Trim, Lines, Generated, LineMarks, CoversMarks, InSome, Marks, OpenAfter, GeneratedLine;
    ranges := [];
    var lines := Lines(body);
    var offset: nat := 0;
    var start: Option<nat> := None;
    ghost var done: seq<bool> := [];
    assert |Marks(lines, false)| == |body| by { LinesSize(body); MarksSize(lines, false); }
    assert lines[0..] == lines;
    assert CoversMarks([], None, []) by { NothingCovered(); }
    for i := 0 to |lines|
      invariant Marks(lines, false) == done + Marks(lines[i..], start.Some?)
      invariant if i < |lines| then offset == |done| else |done| == |body|
      invariant start.Some? ==> start.value < |body|
      invariant start.Some? ==> start.value < |done|
      invariant CoversMarks(ranges, start, done)
    {
      var line := lines[i];
      ghost var last := i == |lines| - 1;
      MarksStep(lines[i..], start.Some?);
      assert lines[i..][1..] == lines[i + 1..] && lines[i..][0] == line && (|lines[i..]| == 1 <==> last);
      assert last ==> lines[i + 1..] == [] && Marks(lines[i + 1..], OpenAfter(line, start.Some?)) == [] by {
        NoMarks(OpenAfter(line, start.Some?));
      }
      OpenAfterIs(line, start.Some?);
      OneMoreLine(ranges, start, done, line, last);
      assert |LineMarks(line, start.Some?, last)| == |line| + (if last then 0 else 1) by { LineMarksAre(line, start.Some?, last); }
      done := done + LineMarks(line, start.Some?, last);
      var end := offset + |line|;
      if start.None? {
        if Trim(line) == SNAPSHOT_BEGIN {
          MarkerIsText(line);
          start := Some(offset);
        }
      } else if Trim(line) == SNAPSHOT_END {
        ranges := ranges + [Range(start.value, end)];
        start := None;
      }
      offset := end + 1;
    }
    assert lines[|lines|..] == [];
    assert done == Generated(body) by { MarksOfBody(body, done); }
    if start.Some? {
      EndLine(ranges, start.value, done, 0, 0);
      assert done + Repeat(true, 0) + Repeat(false, 0) == done;
      ranges := ranges + [Range(start.value, |body|)];
    }
    CoversAll(ranges, done);
  }

  lemma NothingCovered()
    ensures CoversMarks([], None, [])
  {
  }

  lemma CoversAll(rs: seq<Range>, done: seq<bool>)
    requires CoversMarks(rs, None, done)
    ensures forall k: nat :: k < |done| ==> (done[k] <==> InSome(rs, k))
    ensures forall r :: r in rs ==> r.from < r.to <= |done|
  {
  }

  lemma MarksOfBody(body: string, done: seq<bool>)
    requires Marks(Lines(body), false) == done + Marks([], true) || Marks(Lines(body), false) == done + Marks([], false)
    ensures done == Generated(body)
  {
    assert done + [] == done;
  }

  lemma NoMarks(open: bool)
    ensures Marks([], open) == []
  {
  }

  lemma OpenAfterIs(line: string, open: bool)
    ensures OpenAfter(line, open) == if open then Trim(line) != SNAPSHOT_END else Trim(line) == SNAPSHOT_BEGIN
  {
    hide Trim;
  }

  lemma MarksStep(ls: seq<string>, open: bool)
    requires |ls| >= 1
    ensures Marks(ls, open) == LineMarks(ls[0], open, |ls| == 1) + Marks(ls[1..], OpenAfter(ls[0], open))
  {
    hide Trim;
  }

  lemma MarkerIsText(line: string)
    requires Trim(line) == SNAPSHOT_BEGIN
    ensures line != ""
  {
  }

  // ---------- edits ----------

  /** No character of the n from `at` on is generated. */
  predicate Live(body: string, at: nat, n: nat) {
    at + n <= |body| && forall k :: at <= k < at + n ==> !Generated(body)[k]
  }

  function OnlyLive(body: string, n: nat, hits: seq<nat>): seq<nat> {
    if hits == [] then []
    else OnlyLive(body, n, hits[..|hits| - 1]) + (if Live(body, hits[|hits| - 1], n) then [hits[|hits| - 1]] else [])
  }

  function Replaced(body: string, at: nat, e: Edit): string
    requires at + |e.find| <= |body|
  {
    body[..at] + e.replace + body[at + |e.find|..]
  }

  lemma {:induction false} OnlyLiveMembers(body: string, n: nat, hits: seq<nat>)
    ensures forall at :: at in OnlyLive(body, n, hits) <==> at in hits && Live(body, at, n)
  {
    hide Live;
    if hits != [] {
      var init, last := hits[..|hits| - 1], hits[|hits| - 1];
      OnlyLiveMembers(body, n, init);
      assert forall at :: at in hits <==> at in init || at == last by { assert hits == init + [last]; }
    }
  }

  /** One edit: its anchor must have one hit that no snapshot touches. */
  function EditOnce(body: string, e: Edit): Result {
    if e.find == "" then Err(EmptyFind)
    else
      var hits := Hits(body, e.find, 0);
      var live := OnlyLive(body, |e.find|, hits);
      if hits == [] then Err(NotFound)
      else if live == [] then Err(OnlyGenerated)
      else if |live| > 1 then Err(Ambiguous(|live|))
      else
        OnlyLiveMembers(body, |e.find|, hits);
        assert live[0] in live;
        Ok(Replaced(body, live[0], e))
  }

  function EditAll(body: string, es: seq<Edit>): Result
    decreases |es|
  {
    if es == [] then Ok(body)
    else match EditOnce(body, es[0])
      case Ok(next) => EditAll(next, es[1..])
      case Err(why) => Err(why)
  }

  /** The addition goes one blank line below the text, and ends in one newline. */
  function Appended(body: string, text: string): Result {
    var addition, base := TrimEnd(text), TrimEnd(body);
    if Trim(addition) == "" then Err(EmptyAppend)
    else Ok(if base == "" then addition + "\n" else base + "\n\n" + addition + "\n")
  }

  function PageEdited(body: string, append: Option<string>, es: seq<Edit>): Result {
    match EditAll(body, es)
    case Err(why) => Err(why)
    case Ok(next) =>
      if append.Some? then Appended(next, append.value)
      else if es == [] then Err(NothingToDo)
      else Ok(next)
  }

  method EditPage(body: string, e: Edit) returns (r: Result)
    ensures r == EditOnce(body, e)
  {
    hide Generated, Hits;
    if e.find == "" {
      return Err(EmptyFind);
    }
    var hits := AllIndexesOf(body, e.find);
    if hits == [] {
      return Err(NotFound);
    }
    var ranges := SnapshotRanges(body);
    var live: seq<nat> := [];
    HitsOccur(body, e.find, 0);
    for i := 0 to |hits|
      invariant live == OnlyLive(body, |e.find|, hits[..i])
    {
      assert hits[..i + 1][..i] == hits[..i];
      assert hits[i] in hits;
      var inSnapshot := exists r :: r in ranges && hits[i] < r.to && hits[i] + |e.find| > r.from;
      TouchesARange(body, ranges, hits[i], |e.find|);
      if !inSnapshot {
        live := live + [hits[i]];
      }
    }
    assert hits[..|hits|] == hits;
    OnlyLiveMembers(body, |e.find|, hits);
    if live == [] {
      return Err(OnlyGenerated);
    }
    if |live| > 1 {
      return Err(Ambiguous(|live|));
    }
    assert live[0] in live;
    return Ok(body[..live[0]] + e.replace + body[live[0] + |e.find|..]);
  }

  lemma {:induction false} HitsOccur(h: string, n: string, from: nat)
    requires n != ""
    ensures forall at :: at in Hits(h, n, from) ==> from <= at && OccursAt(h, n, at)
    decreases |h| - from
  {
    IndexInside(h, n, from);
    hide IndexOf, OccursAt;
    var i := IndexOf(h, n, from);
    if i.Some? {
      var rest := Hits(h, n, i.value + |n|);
      HitsOccur(h, n, i.value + |n|);
      assert Hits(h, n, from) == [i.value] + rest;
      hide Hits;
    }
  }

  lemma IndexInside(h: string, n: string, from: nat)
    ensures IndexOf(h, n, from).Some? ==> IndexOf(h, n, from).value + |n| <= |h|
  {
  }

  lemma TouchesARange(body: string, ranges: seq<Range>, at: nat, n: nat)
    requires forall k: nat :: k < |body| ==> (Generated(body)[k] <==> InSome(ranges, k))
    requires forall r :: r in ranges ==> r.from < r.to <= |body|
    requires at + n <= |body| && n > 0
    ensures (exists r :: r in ranges && at < r.to && at + n > r.from) <==> !Live(body, at, n)
  {
    hide Generated;
    if r :| r in ranges && at < r.to && at + n > r.from {
      var k := if at < r.from then r.from else at;
      assert InSome(ranges, k);
    }
  }

  /** applyPageEdits: the edits in order, then the append; a failing edit ends it. */
  method ApplyPageEdits(body: string, append: Option<string>, es: seq<Edit>) returns (r: Result)
    ensures r == PageEdited(body, append, es)
  {
    hide EditOnce, Appended;
    var next := body;
    assert es[0..] == es;
    for i := 0 to |es|
      invariant EditAll(body, es) == EditAll(next, es[i..])
    {
      assert es[i..][0] == es[i] && es[i..][1..] == es[i + 1..];
      var one := EditPage(next, es[i]);
      if one.Err? {
        return one;
      }
      next := one.body;
    }
    assert EditAll(body, es) == Ok(next);
    if append.Some? {
      return Appended(next, append.value);
    }
    return if es == [] then Err(NothingToDo) else Ok(next);
  }
}
