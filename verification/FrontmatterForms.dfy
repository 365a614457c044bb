/** What the frontmatter reader makes of text however it was written, by hand or by the writer. */
module FrontmatterForms {
  // parseFrontmatter cuts a page by searching its text and reads lines by regular expressions
  // (src/lib/wiki.ts). Here the line-by-line reader is tied to those searches, and each form of a line
  // to the texts its expression matches.

  import opened Options
  import opened Texts
  import opened Frontmatter
  import opened FrontmatterValues
  import opened FrontmatterPages
  import PageEdits

  // ---------- lines that set a key ----------

  predicate Word(k: string) {
    k != "" && forall i :: 0 <= i < |k| ==> IsWordChar(k[i])
  }

  predicate StartsBare(s: string) {
    s == "" || !IsSpace(s[0])
  }

  /** A line sets a key exactly when it is a word, a colon and, after any blanks, a text on one line. */
  lemma KeyLineIff(line: string, k: string, rest: string)
    ensures KeyLine(line) == Some((k, rest)) <==>
      && Word(k) && StartsBare(rest) && OnOneLine(rest)
      && exists w :: Blank(w) && line == k + ":" + w + rest
  {
    hide IsWordChar, IsSpace, IsLineEnd;
    if KeyLine(line) == Some((k, rest)) {
      var n := WordRun(line);
      var w := TrimStartSplit(line[n + 1..]);
      TrimStartClean(line[n + 1..]);
      assert line == line[..n] + ":" + w + rest;
    }
    if w :| Word(k) && StartsBare(rest) && OnOneLine(rest) && Blank(w) && line == k + ":" + w + rest {
      WordEnds(line, k, w + rest);
      TrimStartOff(w, rest);
    }
  }

  lemma WordEnds(line: string, k: string, more: string)
    requires Word(k) && line == k + ":" + more
    ensures WordRun(line) == |k| && WordColon(line) && line[..|k|] == k && line[|k| + 1..] == more
  {
    WordRunIs(line, |k|);
  }

  lemma {:induction false} TrimStartOff(w: string, s: string)
    requires Blank(w) && StartsBare(s)
    ensures TrimStart(w + s) == s
  {
    if w == "" {
      assert w + s == s;
    } else {
      assert (w + s)[1..] == w[1..] + s;
      TrimStartOff(w[1..], s);
    }
  }

  /** The value is cut at the first blank, hash and blank, if it has any. */
  lemma {:induction false} CommentCut(s: string)
    ensures var n := |BeforeComment(s)|;
      && n <= |s| && BeforeComment(s) == s[..n]
      && (n < |s| ==> CommentHere(s[n..]))
      && forall i :: 0 <= i < n ==> !CommentHere(s[i..])
  {
    hide CommentHere;
    if s == "" || CommentHere(s) {
      assert s[0..] == s;
    } else {
      CommentCut(s[1..]);
      var n := |BeforeComment(s[1..])|;
      assert BeforeComment(s) == [s[0]] + BeforeComment(s[1..]);
      assert BeforeComment(s) == s[..n + 1] && s[n + 1..] == s[1..][n..];
      forall i | 0 <= i < n + 1 ensures !CommentHere(s[i..]) {
        if i > 0 { assert s[i..] == s[1..][i - 1..]; } else { assert s[0..] == s; }
      }
    }
  }

  // ---------- quotes ----------

  lemma {:induction false} SingleUnescape(x: string)
    ensures UnescapeQuotes(EscapeChar('"', x)) == x
  {
    if x != "" {
      SingleUnescape(x[1..]);
      var rest := EscapeChar('"', x[1..]);
      EscapedStarts(x[1..]);
      if x[0] == '"' {
        assert EscapeChar('"', x) == ['\\', '"'] + rest;
        assert (['\\', '"'] + rest)[2..] == rest;
      } else {
        assert EscapeChar('"', x) == [x[0]] + rest;
        assert ([x[0]] + rest)[1..] == rest;
      }
    }
  }

  /** No quote stands first in a text whose quotes are escaped. */
  lemma EscapedStarts(x: string)
    ensures EscapeChar('"', x) != "" ==> EscapeChar('"', x)[0] != '"'
  {
  }

  lemma Around(q: char, inner: string)
    requires !IsSpace(q)
    ensures var t := [q] + inner + [q]; Between(t, q) && Trim(t) == t && t[1..|t| - 1] == inner && t[0] == q
  {
    BareIsTrimmed([q] + inner + [q]);
  }

  /** QUOTES COME OFF. Between double quotes a backslash stands before a quote or a backslash of the text;
      between single quotes only before a double quote; and a text without quotes around it is read
      as it is, without the blanks around it. */
  lemma QuotesComeOff(x: string)
    ensures StripQuotes("\"" + EscapeChar('"', EscapeChar('\\', x)) + "\"") == x
    ensures StripQuotes("'" + EscapeChar('"', x) + "'") == x
    ensures !Between(Trim(x), '"') && !Between(Trim(x), '\'') ==> StripQuotes(x) == Trim(x)
  {
    UnescapeEscaped(x);
    SingleUnescape(x);
    var d, s := EscapeChar('"', EscapeChar('\\', x)), EscapeChar('"', x);
    Around('"', d);
    Around('\'', s);
    hide EscapeChar, Unescape, UnescapeQuotes, Trim;
    assert "\"" + d + "\"" == ['"'] + d + ['"'] && "'" + s + "'" == ['\''] + s + ['\''];
  }

  // ---------- lists on one line ----------

  function JoinCommas(ps: seq<string>): string
    requires |ps| >= 1
  {
    if |ps| == 1 then ps[0] else ps[0] + ("," + JoinCommas(ps[1..]))
  }

  predicate NoCommas(ps: seq<string>) {
    forall i :: 0 <= i < |ps| ==> ',' !in ps[i]
  }

  /** The parts hold no comma, and with commas between them make up the text. */
  lemma {:induction false} PartsAre(s: string)
    ensures NoCommas(CommaParts(s)) && JoinCommas(CommaParts(s)) == s
  {
    if s != "" {
      PartsAre(s[1..]);
      var rest := CommaParts(s[1..]);
      assert s == [s[0]] + s[1..];
      if s[0] == ',' {
        assert ([""] + rest)[1..] == rest;
        assert "" + ("," + JoinCommas(rest)) == "," + JoinCommas(rest);
      } else {
        var ps := [[s[0]] + rest[0]] + rest[1..];
        assert ps[1..] == rest[1..];
        if |rest| > 1 {
          assert ([s[0]] + rest[0]) + ("," + JoinCommas(rest[1..])) == [s[0]] + (rest[0] + ("," + JoinCommas(rest[1..])));
        }
      }
    }
  }

  lemma {:induction false} PartsPrefix(a: string, s: string)
    requires ',' !in a
    ensures CommaParts(a + s) == [a + CommaParts(s)[0]] + CommaParts(s)[1..]
  {
    if a == "" {
      assert a + s == s && "" + CommaParts(s)[0] == CommaParts(s)[0];
      assert [CommaParts(s)[0]] + CommaParts(s)[1..] == CommaParts(s);
    } else {
      assert (a + s)[1..] == a[1..] + s;
      PartsPrefix(a[1..], s);
      assert [a[0]] + (a[1..] + CommaParts(s)[0]) == a + CommaParts(s)[0];
    }
  }

  lemma {:induction false} PartsOfJoin(ps: seq<string>)
    requires |ps| >= 1 && NoCommas(ps)
    ensures CommaParts(JoinCommas(ps)) == ps
    decreases |ps|
  {
    if |ps| == 1 {
      PartsPrefix(ps[0], "");
      assert ps[0] + "" == ps[0] && ps[0] + CommaParts("")[0] == ps[0];
    } else {
      PartsOfJoin(ps[1..]);
      var tail := "," + JoinCommas(ps[1..]);
      assert tail[1..] == JoinCommas(ps[1..]);
      PartsPrefix(ps[0], tail);
      assert ps[0] + "" == ps[0];
      assert ps == [ps[0]] + ps[1..];
    }
  }

  /** Blanks at the ends of the text only add to the blanks around its first and last part. */
  lemma {:induction false} PartsTrimmed(ps: seq<string>)
    requires |ps| >= 1 && NoCommas(ps)
    ensures TrimAll(CommaParts(Trim(JoinCommas(ps)))) == TrimAll(ps)
  {
    var s := JoinCommas(ps);
    var l, r := TrimSplit(s);
    var core := Trim(s);
    var qs := CommaParts(core);
    PartsOfJoin(ps);
    NoCommaInBlanks(l);
    NoCommaInBlanks(r);
    hide Trim, JoinCommas, IsSpace;
    assert s == l + (core + r);
    PartsPrefix(l, core + r);
    PartsSuffix(core, r);
    PartsMargins(ps, qs, l, r);
  }

  lemma NoCommaInBlanks(s: string)
    requires Blank(s)
    ensures ',' !in s
  {
  }

  lemma {:induction false} PartsSuffix(s: string, b: string)
    requires ',' !in b
    ensures var qs := CommaParts(s); CommaParts(s + b) == qs[..|qs| - 1] + [qs[|qs| - 1] + b]
  {
    hide CommaParts;
    if s == "" {
      assert s + b == b && b + "" == b;
      PartsPrefix(b, "");
      NoParts(b);
    } else {
      PartsSuffix(s[1..], b);
      assert (s + b)[0] == s[0] && (s + b)[1..] == s[1..] + b;
      PartsStep(s);
      PartsStep(s + b);
      SuffixStep(s[0], CommaParts(s[1..]), b);
    }
  }

  lemma NoParts(b: string)
    ensures CommaParts("") == [""] && [b + ""] + [""][1..] == [b] && [""][..0] + ["" + b] == [b]
  {
    assert b + "" == b && "" + b == b;
  }

  lemma PartsStep(s: string)
    requires s != ""
    ensures var rest := CommaParts(s[1..]); CommaParts(s) == if s[0] == ',' then [""] + rest else [[s[0]] + rest[0]] + rest[1..]
  {
  }

  lemma SuffixStep(c: char, rest: seq<string>, b: string)
    requires |rest| >= 1
    ensures var more := rest[..|rest| - 1] + [rest[|rest| - 1] + b];
      var qs, ms := if c == ',' then [""] + rest else [[c] + rest[0]] + rest[1..], if c == ',' then [""] + more else [[c] + more[0]] + more[1..];
      ms == qs[..|qs| - 1] + [qs[|qs| - 1] + b]
  {
    if c != ',' && |rest| == 1 { assert [c] + (rest[0] + b) == ([c] + rest[0]) + b; }
  }

  lemma PartsMargins(ps: seq<string>, qs: seq<string>, l: string, r: string)
    requires |qs| >= 1 && Blank(l) && Blank(r)
    requires var ms := qs[..|qs| - 1] + [qs[|qs| - 1] + r]; ps == [l + ms[0]] + ms[1..]
    ensures TrimAll(qs) == TrimAll(ps)
  {
    hide Trim, IsSpace;
    forall x: string, y: string, z: string | Blank(x) && Blank(z) ensures Trim(x + y + z) == Trim(y) { TrimMargins(x, y, z); }
    var n := |qs|;
    assert l + qs[0] + "" == l + qs[0] && "" + qs[n - 1] + r == qs[n - 1] + r;
    assert Blank("");
    if n == 1 {
      assert l + (qs[0] + r) == l + qs[0] + r;
      assert ps[0] == l + qs[0] + r;
    } else {
      assert ps[0] == l + qs[0] + "" && ps[n - 1] == "" + qs[n - 1] + r;
      assert forall i :: 0 < i < n - 1 ==> ps[i] == qs[i];
    }
    assert |ps| == n;
    forall i | 0 <= i < n ensures Trim(ps[i]) == Trim(qs[i]) {
    }
  }

  lemma TrimMargins(x: string, y: string, z: string)
    requires Blank(x) && Blank(z)
    ensures Trim(x + y + z) == Trim(y)
  {
    if Trim(y) != "" {
      TrimAround(x, y, z);
    } else {
      var l, r := TrimSplit(y);
      hide Trim, IsSpace;
      assert y == l + ("" + r);
      BlankSum(l, "" + r);
      BlankSum(x, y);
      BlankSum(x + y, z);
      BlankIsNothing(x + y + z);
    }
  }

  lemma StripByTrim(a: string, b: string)
    requires Trim(a) == Trim(b)
    ensures StripQuotes(a) == StripQuotes(b)
  {
    hide Trim;
  }

  /** A LIST ON ONE LINE. Texts without commas, with commas between them in brackets, are read as the list of
      them, each without its quotes and the blanks around it. */
  lemma {:induction false} InlineList(ps: seq<string>)
    requires |ps| >= 1 && NoCommas(ps) && NoComment("[" + JoinCommas(ps) + "]")
    ensures RestValue("[" + JoinCommas(ps) + "]")
      == Plain(List(if Blank(JoinCommas(ps)) then [] else StripEach(ps)))
  {
    var inner := JoinCommas(ps);
    var text := "[" + inner + "]";
    BeforeCommentIs(text);
    assert IsSpace('[') == false && IsSpace(']') == false;
    BareIsTrimmed(text);
    PartsTrimmed(ps);
    BlankOrNot(inner);
    hide Trim, BeforeComment, StripQuotes, JoinCommas, CommaParts, IsSpace, NoComment, Hashes;
    assert text[1..|text| - 1] == inner;
    var qs := CommaParts(Trim(inner));
    assert |qs| == |ps| by { assert |TrimAll(qs)| == |TrimAll(ps)|; }
    forall i | 0 <= i < |ps| ensures StripQuotes(qs[i]) == StripQuotes(ps[i]) {
      assert TrimAll(qs)[i] == TrimAll(ps)[i];
      StripByTrim(qs[i], ps[i]);
    }
    assert StripEach(qs) == StripEach(ps);
  }

  lemma BlankOrNot(s: string)
    ensures Trim(s) == "" <==> Blank(s)
  {
    var l, r := TrimSplit(s);
    hide Trim, IsSpace;
    BlankSum(l + Trim(s), r);
    BlankSum(l, Trim(s));
    if Blank(s) { BlankIsNothing(s); }
  }

  // ---------- list items ----------

  /** The line is this text behind a dash, with blanks before the dash and behind it. */
  ghost predicate Dashed(line: string, rest: string) {
    exists w, b :: w != "" && Blank(w) && b != "" && Blank(b) && line == w + "-" + b + rest
  }

  /** A line is a list item exactly when it can be seen as a text behind a dash, with blanks before the dash and
      behind it, that is no mapping. */
  lemma SimpleItemIff(line: string)
    ensures SimpleItem(line) <==> exists rest :: Dashed(line, rest) && !WordColonBlank(rest)
  {
    hide StripQuotes, SimpleItem;
    if SimpleItem(line) { ItemSeen(line); }
    if rest :| Dashed(line, rest) && !WordColonBlank(rest) {
      var w, b :| w != "" && Blank(w) && b != "" && Blank(b) && line == w + "-" + b + rest;
      DashShows(line, w, b, rest);
    }
  }

  /** The item is the text behind the dash and one blank, without its quotes. */
  lemma ItemSeen(line: string)
    requires SimpleItem(line)
    ensures var t := TrimStart(line);
      && |t| > 1 && IsSpace(t[1]) && Dashed(line, t[2..]) && !WordColonBlank(t[2..])
      && ItemText(line) == StripQuotes(t[2..]) && line == TrimmedOff(line) + "-" + [t[1]] + t[2..]
  {
    hide StripQuotes, IsSpace, WordColonBlank, TrimStart;
    var w := TrimStartSplit(line);
    var t := TrimStart(line);
    assert t == "-" + [t[1]] + t[2..];
    DashSeen(line, w, [t[1]], t[2..]);
    TrimStartLength(line);
    assert w == TrimmedOff(line);
    BlankFirst(t[2..]);
  }

  lemma BlankFirst(s: string)
    ensures s != "" && IsSpace(s[0]) ==> !WordColonBlank(s)
  {
    if s != "" && IsSpace(s[0]) { WordRunIs(s, 0); }
  }

  lemma DashSeen(line: string, w: string, b: string, rest: string)
    requires w != "" && Blank(w) && b != "" && Blank(b) && line == w + ("-" + b + rest)
    ensures Dashed(line, rest)
  {
    hide IsSpace;
    assert line == w + "-" + b + rest;
  }

  /** The blanks a line begins with. */
  function TrimmedOff(line: string): string {
    TrimStartLength(line);
    line[..|line| - |TrimStart(line)|]
  }

  lemma {:induction false} TrimStartLength(s: string)
    ensures |TrimStart(s)| <= |s|
  {
    if s != "" && IsSpace(s[0]) { TrimStartLength(s[1..]); }
  }

  lemma DashShows(line: string, w: string, b: string, rest: string)
    requires w != "" && Blank(w) && b != "" && Blank(b) && line == w + "-" + b + rest && !WordColonBlank(rest)
    ensures SimpleItem(line)
  {
    var tail := "-" + b + rest;
    assert line == w + tail;
    TrimStartOff(w, tail);
    assert tail[1] == b[0];
    if |b| > 1 {
      assert tail[2] == b[1];
    } else {
      assert tail[2..] == rest;
    }
  }

  // ---------- the page, cut by searching ----------

  /** `slice`: nothing when the end is not behind the start. */
  function SliceOf(s: string, from: nat, to: nat): string {
    if from <= to <= |s| then s[from..to] else ""
  }

  /** How the reader cuts a page: the text between the fences, and the body. None when there is no
      frontmatter. */
  function Split(md: string): Option<(string, string)> {
    if !("---\n" <= md) && Trim(md) != "---" then None
    else
      match PageEdits.IndexOf(md, "\n---", 3)
      case None => None
      case Some(end) =>
        Some((SliceOf(md, 4, end),
              match PageEdits.IndexOf(md, "\n", end + 1)
              case None => ""
              case Some(nl) => if nl < |md| then DropOne(md[nl + 1..]) else ""))
  }

  /** What begins with a newline occurs at newlines only. */
  lemma AtNewlines(h: string, n: string, i: nat)
    requires n != "" && n[0] == '\n'
    ensures PageEdits.OccursAt(h, n, i) ==> i < |h| && h[i] == '\n'
  {
    if PageEdits.OccursAt(h, n, i) { assert h[i..i + |n|][0] == h[i]; }
  }

  /** A search passes a stretch without newlines. */
  lemma LinePassed(h: string, n: string, from: nat, to: nat)
    requires from <= to <= |h| && n != "" && n[0] == '\n' && forall i :: from <= i < to ==> h[i] != '\n'
    ensures PageEdits.IndexOf(h, n, from) == PageEdits.IndexOf(h, n, to)
  {
    forall i | from <= i < to ensures !PageEdits.OccursAt(h, n, i) { AtNewlines(h, n, i); }
    SameSearch(h, n, from, to);
  }

  /** Nothing occurs before `to`, so the search may start there. */
  lemma SameSearch(h: string, n: string, from: nat, to: nat)
    requires from <= to && forall i :: from <= i < to ==> !PageEdits.OccursAt(h, n, i)
    ensures PageEdits.IndexOf(h, n, from) == PageEdits.IndexOf(h, n, to)
  {
    hide PageEdits.OccursAt;
    var a, b := PageEdits.IndexOf(h, n, from), PageEdits.IndexOf(h, n, to);
    if a.Some? && b.Some? { assert !(a.value < b.value) && !(b.value < a.value); }
  }

  lemma FoundHere(h: string, n: string, i: nat)
    requires PageEdits.OccursAt(h, n, i)
    ensures PageEdits.IndexOf(h, n, i) == Some(i)
  {
  }

  lemma NothingBehind(h: string, n: string)
    requires n != ""
    ensures PageEdits.IndexOf(h, n, |h|) == None
  {
  }

  lemma {:induction false} FirstIsPrefix(tail: string)
    ensures var first := Lines(tail)[0]; first <= tail && (|first| < |tail| ==> tail[|first|] == '\n')
  {
    if tail != "" && tail[0] != '\n' {
      FirstIsPrefix(tail[1..]);
      assert tail == [tail[0]] + tail[1..];
    }
  }

  /** A newline starts a fence when the line behind it is one. */
  lemma FenceHere(h: string, at: nat, tail: string)
    requires at < |h| && h[at] == '\n' && h[at + 1..] == tail
    ensures PageEdits.OccursAt(h, "\n---", at) <==> IsFence(Lines(tail)[0])
  {
    FirstIsPrefix(tail);
    hide Lines;
    FenceStarts(Lines(tail)[0]);
    FenceStarts(tail);
    if |h| >= at + 4 {
      assert h[at..at + 4] == [h[at], h[at + 1], h[at + 2], h[at + 3]];
      assert h[at + 1] == tail[0] && h[at + 2] == tail[1] && h[at + 3] == tail[2];
      assert "\n---" == ['\n', '-', '-', '-'];
    }
  }

  lemma FirstAndRest(tail: string) returns (first: string, more: string)
    requires '\n' in tail
    ensures '\n' !in first && tail == first + ("\n" + more) && Lines(tail) == [first] + Lines(more)
  {
    FirstIsPrefix(tail);
    first := Lines(tail)[0];
    assert first != tail;
    more := tail[|first| + 1..];
    hide Lines;
    OneLine(first);
    BreakLines(more);
    LinesAppend(first, "\n" + more);
    assert first + "" == first && ([""] + Lines(more))[1..] == Lines(more);
  }

  lemma {:induction false} FenceLater(line: string, ls: seq<string>, i: nat)
    requires i <= |ls|
    ensures FenceAt([line] + ls, i + 1) == 1 + FenceAt(ls, i)
    decreases |ls| - i
  {
    hide IsFence;
    if i < |ls| {
      assert ([line] + ls)[i + 1] == ls[i];
      FenceLater(line, ls, i + 1);
    }
  }

  lemma FenceFirst(ls: seq<string>)
    requires |ls| >= 1
    ensures FenceAt(ls, 0) == if IsFence(ls[0]) then 0 else FenceAt(ls, 1)
    ensures FenceAt([ls[0]], 0) == if IsFence(ls[0]) then 0 else 1
  {
    hide IsFence;
  }

  /** The search for a fence from a newline on finds the first line that is one: behind a text whose lines are
      those before it. */
  predicate Sought(h: string, from: nat, tail: string, block: string, behind: string) {
    var ls, n, at := Lines(tail), FenceAt(Lines(tail), 0), PageEdits.IndexOf(h, "\n---", from);
    && (n == |ls| <==> at.None?)
    && (n == 0 ==> at == Some(from) && behind == tail)
    && (0 < n < |ls| ==> at == Some(from + 1 + |block|) && tail == block + ("\n" + behind) && Lines(block) == ls[..n])
    && (n < |ls| ==> Lines(behind) == ls[n..])
  }

  lemma {:induction false} FenceSought(h: string, from: nat, tail: string) returns (block: string, behind: string)
    requires from < |h| && h[from] == '\n' && h[from + 1..] == tail
    ensures Sought(h, from, tail, block, behind)
    decreases |tail|
  {
    hide Lines, IsFence, PageEdits.IndexOf, PageEdits.OccursAt, FenceAt, Sought;
    FenceHere(h, from, tail);
    if IsFence(Lines(tail)[0]) {
      FoundHere(h, "\n---", from);
      block, behind := "", tail;
      SoughtHere(h, from, tail);
    } else {
      SameSearch(h, "\n---", from, from + 1);
      if '\n' in tail {
        var first, more := FirstAndRest(tail);
        var next := from + 1 + |first|;
        NextBreak(h, from, tail, first, more);
        LinePassed(h, "\n---", from + 1, next);
        block, behind := FenceSought(h, next, more);
        SoughtNext(h, from, first, more, block, behind);
        block := if IsFence(Lines(more)[0]) then first else first + ("\n" + block);
      } else {
        OneLine(tail);
        assert forall i :: from + 1 <= i < |h| ==> h[i] == tail[i - from - 1];
        LinePassed(h, "\n---", from + 1, |h|);
        NothingBehind(h, "\n---");
        block, behind := "", "";
        SoughtNowhere(h, from, tail);
      }
    }
  }

  lemma NextBreak(h: string, from: nat, tail: string, first: string, more: string)
    requires from < |h| && h[from + 1..] == tail == first + ("\n" + more) && '\n' !in first
    ensures var next := from + 1 + |first|;
      && next < |h| && h[next] == '\n' && h[next + 1..] == more
      && forall i :: from + 1 <= i < next ==> h[i] != '\n'
  {
    var next := from + 1 + |first|;
    assert forall i :: from + 1 <= i < |h| ==> h[i] == tail[i - from - 1];
    assert tail[|first|] == '\n' && tail[|first| + 1..] == more;
    assert h[next + 1..] == h[from + 1..][|first| + 1..];
    assert forall i :: 0 <= i < |first| ==> tail[i] == first[i];
  }

  lemma SoughtHere(h: string, from: nat, tail: string)
    requires IsFence(Lines(tail)[0]) && PageEdits.IndexOf(h, "\n---", from) == Some(from)
    ensures Sought(h, from, tail, "", tail)
  {
    hide Lines, IsFence;
    FenceFirst(Lines(tail));
    assert Lines(tail)[0..] == Lines(tail);
  }

  lemma SoughtNowhere(h: string, from: nat, tail: string)
    requires !IsFence(Lines(tail)[0]) && Lines(tail) == [tail] && PageEdits.IndexOf(h, "\n---", from) == None
    ensures Sought(h, from, tail, "", "")
  {
    hide Lines, IsFence;
    FenceFirst(Lines(tail));
  }

  lemma SoughtNext(h: string, from: nat, first: string, more: string, b: string, behind: string)
    requires Sought(h, from + 1 + |first|, more, b, behind) && '\n' !in first && !IsFence(first)
    requires Lines(first + ("\n" + more)) == [first] + Lines(more)
    requires PageEdits.IndexOf(h, "\n---", from) == PageEdits.IndexOf(h, "\n---", from + 1 + |first|)
    ensures Sought(h, from, first + ("\n" + more), if IsFence(Lines(more)[0]) then first else first + ("\n" + b), behind)
  {
    hide Lines, IsFence, PageEdits.IndexOf, FenceAt;
    var ms := Lines(more);
    NextFence(first, ms);
    if IsFence(ms[0]) {
      OneLine(first);
      ShiftedLines(first, ms, 0);
    } else {
      SoughtFurther(h, from, first, more, b, behind);
    }
  }

  lemma NextFence(first: string, ms: seq<string>)
    requires !IsFence(first) && |ms| >= 1
    ensures FenceAt([first] + ms, 0) == 1 + FenceAt(ms, 0)
    ensures FenceAt(ms, 0) == 0 <==> IsFence(ms[0])
  {
    hide IsFence;
    FenceFirst([first] + ms);
    FenceFirst(ms);
    FenceLater(first, ms, 0);
  }

  lemma SoughtFurther(h: string, from: nat, first: string, more: string, b: string, behind: string)
    requires Sought(h, from + 1 + |first|, more, b, behind) && '\n' !in first
    requires Lines(first + ("\n" + more)) == [first] + Lines(more)
    requires FenceAt([first] + Lines(more), 0) == 1 + FenceAt(Lines(more), 0) > 1
    requires PageEdits.IndexOf(h, "\n---", from) == PageEdits.IndexOf(h, "\n---", from + 1 + |first|)
    ensures Sought(h, from, first + ("\n" + more), first + ("\n" + b), behind)
  {
    hide Lines, IsFence, PageEdits.IndexOf, FenceAt;
    var ms := Lines(more);
    FirstThen(first, b);
    FurtherText(first, b, behind);
    ShiftedLines(first, ms, FenceAt(ms, 0));
  }

  lemma FurtherText(first: string, b: string, behind: string)
    ensures (first + ("\n" + b)) + ("\n" + behind) == first + ("\n" + (b + ("\n" + behind)))
    ensures |first + ("\n" + b)| == |first| + 1 + |b|
  {
  }

  lemma ShiftedLines(first: string, ms: seq<string>, n: nat)
    requires n <= |ms|
    ensures ([first] + ms)[..n + 1] == [first] + ms[..n] && ([first] + ms)[n + 1..] == ms[n..]
    ensures [first] + ms[..0] == [first]
  {
  }

  lemma FirstThen(first: string, b: string)
    requires '\n' !in first
    ensures Lines(first + ("\n" + b)) == [first] + Lines(b)
  {
    hide Lines;
    OneLine(first);
    BreakLines(b);
    LinesAppend(first, "\n" + b);
    assert first + "" == first && ([""] + Lines(b))[1..] == Lines(b);
  }

  /** The body a page has behind the line its closing fence stands on. */
  lemma BodySought(h: string, from: nat, behind: string)
    requires from <= |h| && h[from..] == behind
    ensures BodyAfter(Lines(behind)[1..]) ==
      match PageEdits.IndexOf(h, "\n", from)
      case None => ""
      case Some(nl) => if nl < |h| then DropOne(h[nl + 1..]) else ""
  {
    hide Lines, DropOne, PageEdits.IndexOf, PageEdits.OccursAt, BodyAfter;
    if '\n' in behind {
      var first, more := FirstAndRest(behind);
      var nl := from + |first|;
      ThisBreak(h, from, behind, first, more);
      LinePassed(h, "\n", from, nl);
      FoundHere(h, "\n", nl);
      BodyBehind(first, more);
    } else {
      OneLine(behind);
      assert forall i :: from <= i < |h| ==> h[i] == behind[i - from];
      LinePassed(h, "\n", from, |h|);
      NothingBehind(h, "\n");
      NoBody(behind);
    }
  }

  lemma ThisBreak(h: string, from: nat, behind: string, first: string, more: string)
    requires from <= |h| && h[from..] == behind == first + ("\n" + more) && '\n' !in first
    ensures var nl := from + |first|;
      && nl < |h| && PageEdits.OccursAt(h, "\n", nl) && h[nl + 1..] == more
      && forall i :: from <= i < nl ==> h[i] != '\n'
  {
    var nl := from + |first|;
    assert forall i :: from <= i < |h| ==> h[i] == behind[i - from];
    assert behind[|first|] == '\n' && behind[|first| + 1..] == more;
    assert h[nl + 1..] == h[from..][|first| + 1..];
    assert forall i :: 0 <= i < |first| ==> behind[i] == first[i];
    assert h[nl..nl + 1] == [h[nl]];
  }

  lemma BodyBehind(first: string, more: string)
    ensures BodyAfter(([first] + Lines(more))[1..]) == DropOne(more)
  {
    JoinOfLines(more);
    assert ([first] + Lines(more))[1..] == Lines(more);
  }

  lemma NoBody(line: string)
    ensures BodyAfter([line][1..]) == ""
  {
  }

  /** THE READER CUTS WHERE THE SEARCHES DO. Reading a page line by line, up to the first line that starts with
      three dashes, is reading the lines of the text the searches cut out, and its body is theirs. */
  lemma {:induction false} ReadPageSplits(md: string)
    ensures ReadPage(md) ==
      match Split(md)
      case None => Page(NoFields(), md)
      case Some((block, body)) => Page(ReadLines(Lines(block), NoFields()), body)
  {
    hide ReadLines, IsFence, PageEdits.IndexOf, PageEdits.OccursAt, BodyAfter, DropOne, FenceAt, OddFence, Trim, Sought;
    if "---\n" <= md {
      FencedSplits(md, md[4..]);
    } else {
      NotFenced(md);
      if Trim(md) == "---" { OddSplits(md); } else { NoOddFence(md); }
    }
  }

  lemma NoOddFence(md: string)
    requires Trim(md) != "---"
    ensures !OddFence(md)
  {
  }

  lemma FenceText(first: string, more: string)
    ensures first == "---" ==> "---\n" <= first + ("\n" + more)
  {
  }

  lemma NotFenced(md: string)
    requires !("---\n" <= md)
    ensures !(Lines(md)[0] == "---" && |Lines(md)| > 1)
  {
    if '\n' in md {
      var first, more := FirstAndRest(md);
      FenceText(first, more);
    } else {
      OneLine(md);
    }
  }

  lemma {:induction false} FencedSplits(md: string, rest: string)
    requires "---\n" <= md && rest == md[4..]
    ensures ReadPage(md) ==
      match Split(md)
      case None => Page(NoFields(), md)
      case Some((block, body)) => Page(ReadLines(Lines(block), NoFields()), body)
  {
    hide ReadLines, IsFence, PageEdits.IndexOf, PageEdits.OccursAt, BodyAfter, DropOne, FenceAt, OddFence, Trim, Lines;
    FencedText(md, rest);
    FenceIs();
    FirstThen("---", rest);
    var block, behind := FenceSought(md, 3, rest);
    var ls := Lines(rest);
    FenceLater("---", ls, 0);
    var n := FenceAt(ls, 0);
    if n < |ls| {
      FencedLines(ls, n);
      if n == 0 {
        BodySought(md, 4, behind);
        NothingInIt();
      } else {
        BlockText(md, block, behind);
        BodySought(md, 5 + |block|, behind);
      }
    }
  }

  lemma FencedText(md: string, rest: string)
    requires "---\n" <= md && rest == md[4..]
    ensures md == "---" + ("\n" + rest) && |md| >= 4 && md[3] == '\n'
  {
    assert md[..4] == "---\n" == "---" + "\n";
  }

  lemma FencedLines(ls: seq<string>, n: nat)
    requires n < |ls|
    ensures var all := ["---"] + ls;
      all[n + 2..] == ls[n..][1..] && all[1..n + 1] == ls[..n] && (n == 0 ==> all[1..n + 1] == [])
  {
  }

  lemma BlockText(md: string, block: string, behind: string)
    requires |md| >= 4 && md[4..] == block + ("\n" + behind)
    ensures 5 + |block| <= |md| && SliceOf(md, 4, 4 + |block|) == block && md[5 + |block|..] == behind
  {
    var rest := md[4..];
    assert rest[..|block|] == block && rest[|block| + 1..] == behind;
    assert md[4..4 + |block|] == rest[..|block|] && md[5 + |block|..] == rest[|block| + 1..];
  }

  lemma NothingInIt()
    ensures ReadLines(Lines(""), NoFields()) == ReadLines([], NoFields())
  {
    BlankLine("");
  }

  lemma BlankLine(line: string)
    requires Blank(line)
    ensures KeyLine(line) == None
  {
    WordRunIs(line, 0);
  }

  /** Blank lines set no key. */
  lemma {:induction false} BlankBlock(ls: seq<string>)
    requires forall i :: 0 <= i < |ls| ==> Blank(ls[i])
    ensures ReadLines(ls, NoFields()) == NoFields()
  {
    if ls != [] {
      BlankLine(ls[0]);
      BlankBlock(ls[1..]);
    }
  }


  /** Three dashes between blanks, and not at the start of the first line. */
  lemma {:induction false} OddSplits(md: string)
    requires Trim(md) == "---" && !("---\n" <= md)
    ensures ReadPage(md) ==
      match Split(md)
      case None => Page(NoFields(), md)
      case Some((block, body)) => Page(ReadLines(Lines(block), NoFields()), body)
  {
    hide ReadLines, IsFence, PageEdits.IndexOf, PageEdits.OccursAt, BodyAfter, DropOne, FenceAt, OddFence, Lines, Trim;
    NotFenced(md);
    var k := OddPlace(md);
    OddSought(md, k);
    OddFenceIff(md, k);
    if OddFence(md) {
      BodySought(md, k, md[k..]);
      BlankSlice(md, 4, k - 1);
      BlankSliceLines(SliceOf(md, 4, k - 1));
    }
  }

  /** Where the dashes stand: blanks before and behind them. */
  lemma {:induction false} OddPlace(md: string) returns (k: nat)
    requires Trim(md) == "---"
    ensures k + 3 <= |md| && md[k..k + 3] == "---" && TrimStart(md) == md[k..]
    ensures forall i :: 0 <= i < |md| && !(k <= i < k + 3) ==> IsSpace(md[i])
  {
    var l := TrimStartSplit(md);
    var r := TrimEndSplit(TrimStart(md));
    hide IsSpace, TrimStart, TrimEnd;
    k := |l|;
    assert md == l + ("---" + r);
    assert md[k..] == "---" + r && md[k..][..3] == "---";
    assert forall i :: 0 <= i < k ==> md[i] == l[i];
    assert forall i :: k + 3 <= i < |md| ==> md[i] == r[i - k - 3];
  }

  lemma OddFenceIff(md: string, k: nat)
    requires Trim(md) == "---" && k <= |md| && TrimStart(md) == md[k..]
    ensures OddFence(md) <==> k >= 4 && md[k - 1] == '\n'
  {
    hide Trim, TrimStart;
  }

  lemma OddSought(md: string, k: nat)
    requires k + 3 <= |md| && md[k..k + 3] == "---"
    requires forall i :: 0 <= i < |md| && !(k <= i < k + 3) ==> IsSpace(md[i])
    ensures PageEdits.IndexOf(md, "\n---", 3) == if k >= 4 && md[k - 1] == '\n' then Some((k - 1) as nat) else None
  {
    hide PageEdits.OccursAt, IsSpace;
    forall i: nat ensures PageEdits.OccursAt(md, "\n---", i) <==> i + 1 == k && i < |md| && md[i] == '\n' { OddOccurs(md, k, i); }
    var at := PageEdits.IndexOf(md, "\n---", 3);
    if k >= 4 && md[k - 1] == '\n' {
      assert PageEdits.OccursAt(md, "\n---", k - 1);
    }
  }

  lemma OddOccurs(md: string, k: nat, i: nat)
    requires k + 3 <= |md| && md[k..k + 3] == "---"
    requires forall i :: 0 <= i < |md| && !(k <= i < k + 3) ==> IsSpace(md[i])
    ensures PageEdits.OccursAt(md, "\n---", i) <==> i + 1 == k && i < |md| && md[i] == '\n'
  {
    var three := md[k..k + 3];
    assert three == [md[k], md[k + 1], md[k + 2]] && "---" == ['-', '-', '-'];
    NoDash();
    hide IsSpace;
    if i + 4 <= |md| {
      assert md[i..i + 4] == [md[i], md[i + 1], md[i + 2], md[i + 3]];
      assert "\n---" == ['\n', '-', '-', '-'];
    }
  }

  lemma NoDash()
    ensures !IsSpace('-')
  {
  }

  lemma BlankSlice(md: string, from: nat, to: nat)
    requires to <= |md| && forall i :: 0 <= i < to ==> IsSpace(md[i])
    ensures Blank(SliceOf(md, from, to))
  {
  }

  lemma BlankSliceLines(s: string)
    requires Blank(s)
    ensures ReadLines(Lines(s), NoFields()) == NoFields()
  {
    BlankLines(s);
    BlankBlock(Lines(s));
  }

  // ---------- what is written ----------

  /** A text that is written without quotes: it begins with no sign, holds no colon or blank that would end
      it, and does not end in a colon. */
  predicate NeedsNone(t: string) {
    && t != "" && t[0] !in "'\"-?:[]{}#&*!|>%@`" && t[|t| - 1] != ':'
    && (forall i :: 0 <= i < |t| - 1 ==> !(t[i] == ':' && t[i + 1] == ' ') && !(t[i] == ' ' && t[i + 1] == '#'))
  }

  lemma {:induction false} OccursIff(s: string, a: char, b: char)
    ensures Occurs(s, [a, b]) <==> exists i :: 0 <= i < |s| - 1 && s[i] == a && s[i + 1] == b
  {
    if s != "" {
      OccursIff(s[1..], a, b);
      assert [a, b] <= s <==> |s| > 1 && s[0] == a && s[1] == b;
      forall i | 0 <= i < |s[1..]| ensures s[1..][i] == s[i + 1] {
      }
      if i :| 0 <= i < |s| - 1 && s[i] == a && s[i + 1] == b {
        if i > 0 { assert s[1..][i - 1] == a && s[1..][i] == b; }
      }
      if Occurs(s[1..], [a, b]) {
        var i :| 0 <= i < |s[1..]| - 1 && s[1..][i] == a && s[1..][i + 1] == b;
        assert s[i + 1] == a && s[i + 2] == b;
      }
    }
  }

  lemma SameStarts(c: char)
    ensures c in QUOTED_STARTS <==> c in "'\"-?:[]{}#&*!|>%@`"
  {
  }

  /** QUOTES ARE WRITTEN ONLY WHERE THEY ARE NEEDED. A scalar is written as it is, on one line and trimmed, exactly
      when nothing in it could be read as anything else; and otherwise between double quotes with its
      quotes and backslashes escaped. */
  lemma {:induction false} WrittenPlainIff(s: string)
    ensures ScalarText(s) == FlatText(s) <==> NeedsNone(FlatText(s))
    ensures ScalarText(s) != FlatText(s) ==>
      ScalarText(s) == "\"" + EscapeChar('"', EscapeChar('\\', FlatText(s))) + "\""
  {
    var t := FlatText(s);
    FlatFacts(s);
    hide FlatText;
    OccursIff(t, ':', ' ');
    OccursIff(t, ' ', '#');
    assert ": " == [':', ' '] && " #" == [' ', '#'];
    if t != "" { SameStarts(t[0]); }
    assert NeedsQuoting(t) <==> !NeedsNone(t);
    QuotedIsLonger(t);
  }

  lemma {:induction false} QuotedIsLonger(t: string)
    ensures Quoted(t) != t
  {
    EscapedLength('\\', t);
    EscapedLength('"', EscapeChar('\\', t));
    hide EscapeChar;
    assert |Quoted(t)| == |EscapeChar('"', EscapeChar('\\', t))| + 2;
  }

  lemma {:induction false} EscapedLength(c: char, s: string)
    ensures |EscapeChar(c, s)| >= |s|
  {
    if s != "" { EscapedLength(c, s[1..]); }
  }

  /** How an entry under a name on one line is written: a scalar behind the colon and a blank; an empty list as
      brackets; a list as lines of two blanks, a dash, a blank and the item; a nested value as its lines. */
  lemma EntryForm(k: string, v: Value)
    requires '\n' !in k && (v.Block? ==> '\n' !in v.indicator)
    ensures var ls := EntryLines(k, v);
      match v
      case Plain(Scalar(s)) => ls == [k + ": " + ScalarText(s)]
      case Plain(List(items)) =>
        if items == [] then ls == [k + ": []"]
        else |ls| == 1 + |items| && ls[0] == k + ":" && forall i :: 0 <= i < |items| ==> ls[i + 1] == "  - " + ScalarText(items[i])
      case Block(indicator, raw) => ls == [if indicator == "" then k + ":" else k + ": " + indicator] + raw
  {
    hide ScalarText, Lines;
    match v
    case Plain(Scalar(s)) =>
      ScalarShape(s);
      assert k + ":" + (" " + ScalarText(s)) == k + ": " + ScalarText(s);
      OneLine(k + ": " + ScalarText(s));
    case Plain(List(items)) =>
      assert k + ":" + "" == k + ":" && k + ":" + " []" == k + ": []";
      OneLine(k + ":");
      OneLine(k + ": []");
    case Block(indicator, raw) =>
      assert k + ":" + "" == k + ":" && k + ":" + (" " + indicator) == k + ": " + indicator;
      OneLine(k + ":");
      OneLine(k + ": " + indicator);
  }

  /** THE FILE, LINE BY LINE: a fence, the entries in their order, a fence, one empty line, and the lines of the
      body from its first that is not empty. */
  lemma {:induction false} FileLines(page: Page)
    requires TameFront(page.fm)
    ensures Lines(PageText(page))
      == ["---"] + BlockLines(page.fm, |page.fm.order|) + ["---", ""] + Lines(DropNewlines(page.body))
  {
    hide Lines, JoinLines, BlockLines, DropNewlines, TameEntry, IsFence;
    var block := BlockLines(page.fm, |page.fm.order|);
    BlockClean(page.fm, |page.fm.order|);
    FenceIs();
    var h := ["---"] + block + ["---"];
    forall i | 0 <= i < |h| ensures '\n' !in h[i] {
      if 0 < i <= |block| { assert h[i] == block[i - 1]; } else { assert h[i] == "---"; }
    }
    TextLines(h, DropNewlines(page.body));
    assert ["---"] + block + ["---"] + ([""] + Lines(DropNewlines(page.body))) == ["---"] + block + ["---", ""] + Lines(DropNewlines(page.body));
  }
}
