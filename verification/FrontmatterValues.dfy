/** Which values read back from the file as they were sent, and what the others become. */
module FrontmatterValues {
  import opened Options
  import opened Texts
  import opened Frontmatter

  // ---------- comments and line ends ----------

  /** No blank, hash and blank in a row. */
  predicate NoComment(s: string) {
    forall i :: 0 <= i < |s| - 2 ==> !(IsSpace(s[i]) && s[i + 1] == '#' && IsSpace(s[i + 2]))
  }

  function Hashes(s: string): nat {
    if s == "" then 0 else Hashes(s[1..]) + (if s[0] == '#' then 1 else 0)
  }

  lemma {:induction false} HashesAppend(a: string, b: string)
    ensures Hashes(a + b) == Hashes(a) + Hashes(b)
  {
    if a == "" { assert a + b == b; } else {
      assert (a + b)[1..] == a[1..] + b;
      HashesAppend(a[1..], b);
    }
  }

  lemma {:induction false} BlankHasNone(s: string)
    requires Blank(s)
    ensures Hashes(s) == 0
  {
    if s != "" {
      assert Blank(s[1..]) by { assert forall i :: 0 <= i < |s[1..]| ==> s[1..][i] == s[i + 1]; }
      BlankHasNone(s[1..]);
    }
  }

  lemma {:induction false} HashesTrim(s: string)
    ensures Hashes(Trim(s)) == Hashes(s)
  {
    var l, r := TrimSplit(s);
    hide Trim;
    HashesAppend(l + Trim(s), r);
    HashesAppend(l, Trim(s));
    BlankHasNone(l);
    BlankHasNone(r);
  }

  lemma NoCommentTail(s: string)
    requires s != ""
    ensures NoComment(s) <==> !CommentHere(s) && NoComment(s[1..])
  {
    if NoComment(s) {
      assert forall i :: 0 <= i < |s[1..]| ==> s[1..][i] == s[i + 1];
    }
    if !CommentHere(s) && NoComment(s[1..]) {
      forall i | 0 <= i < |s| - 2 ensures !(IsSpace(s[i]) && s[i + 1] == '#' && IsSpace(s[i + 2])) {
        if i > 0 { assert s[1..][i - 1] == s[i] && s[1..][i] == s[i + 1] && s[1..][i + 1] == s[i + 2]; }
      }
    }
  }

  /** Cutting at the first comment leaves the text alone when there is none, and otherwise a
      beginning of it with fewer hashes. */
  lemma {:induction false} BeforeCommentIs(s: string)
    ensures CutsAtComment(s)
  {
    hide CutsAtComment, CommentHere, BeforeComment;
    if s == "" {
      CutsNothing();
    } else if CommentHere(s) {
      CutsHere(s);
    } else {
      BeforeCommentIs(s[1..]);
      CutsLater(s);
    }
  }

  predicate CutsAtComment(s: string) {
    && BeforeComment(s) <= s && NoComment(BeforeComment(s))
    && (NoComment(s) ==> BeforeComment(s) == s)
    && (!NoComment(s) ==> Hashes(BeforeComment(s)) < Hashes(s))
  }

  lemma CutsNothing()
    ensures CutsAtComment("")
  {
  }

  lemma CutsHere(s: string)
    requires CommentHere(s)
    ensures CutsAtComment(s)
  {
    NoCommentTail(s);
    HashesFirst(s);
    HashIsSecond(s);
    HashesFirst(s[1..]);
    CutHere(s);
    hide NoComment, CommentHere, Hashes, BeforeComment, IsSpace;
  }

  lemma CutsLater(s: string)
    requires s != "" && !CommentHere(s) && CutsAtComment(s[1..])
    ensures CutsAtComment(s)
  {
    hide NoComment, CommentHere, Hashes, BeforeComment, IsSpace;
    BeforeStep(s);
    var t := [s[0]] + BeforeComment(s[1..]);
    assert t[1..] == BeforeComment(s[1..]) && s == [s[0]] + s[1..];
    NoCommentTail(s);
    NoCommentTail(t);
    BeginningShows(t, s);
    HashesFirst(s);
    HashesFirst(t);
  }

  lemma CutHere(s: string)
    requires CommentHere(s)
    ensures BeforeComment(s) == "" && NoComment("") && Hashes("") == 0
  {
  }

  lemma HashIsSecond(s: string)
    requires CommentHere(s)
    ensures s[1..] != "" && s[1..][0] == '#'
  {
  }

  lemma BeforeStep(s: string)
    requires s != "" && !CommentHere(s)
    ensures BeforeComment(s) == [s[0]] + BeforeComment(s[1..])
  {
  }

  lemma BeginningShows(t: string, s: string)
    requires t <= s
    ensures CommentHere(t) ==> CommentHere(s)
  {
  }

  lemma HashesFirst(s: string)
    requires s != ""
    ensures Hashes(s) == Hashes(s[1..]) + (if s[0] == '#' then 1 else 0)
  {
  }

  lemma {:induction false} NoCommentPart(a: string, b: string, c: string)
    requires NoComment(a + b + c)
    ensures NoComment(b)
  {
    var s := a + b + c;
    forall i | 0 <= i < |b| - 2 ensures !(IsSpace(b[i]) && b[i + 1] == '#' && IsSpace(b[i + 2])) {
      assert b[i] == s[|a| + i] && b[i + 1] == s[|a| + i + 1] && b[i + 2] == s[|a| + i + 2];
    }
  }

  lemma {:induction false} OneLinePart(a: string, b: string, c: string)
    ensures OnOneLine(a + b + c) <==> OnOneLine(a) && OnOneLine(b) && OnOneLine(c)
  {
    hide IsLineEnd;
    var s := a + b + c;
    assert forall i :: 0 <= i < |a| ==> s[i] == a[i];
    assert forall i :: 0 <= i < |b| ==> s[|a| + i] == b[i];
    assert forall i :: 0 <= i < |c| ==> s[|a| + |b| + i] == c[i];
  }

  // ---------- quotes ----------

  lemma {:induction false} UnescapeEscaped(s: string)
    ensures Unescape(EscapeChar('"', EscapeChar('\\', s))) == s
  {
    if s != "" {
      UnescapeEscaped(s[1..]);
      var inner, rest := EscapeChar('\\', s[1..]), EscapeChar('"', EscapeChar('\\', s[1..]));
      if s[0] == '\\' {
        assert EscapeChar('\\', s) == ['\\', '\\'] + inner;
        assert (['\\', '\\'] + inner)[1..] == ['\\'] + inner && (['\\'] + inner)[1..] == inner;
        assert EscapeChar('"', ['\\'] + inner) == ['\\'] + rest;
        assert EscapeChar('"', ['\\', '\\'] + inner) == ['\\'] + (['\\'] + rest);
        assert (['\\'] + (['\\'] + rest))[2..] == rest;
      } else {
        assert EscapeChar('\\', s) == [s[0]] + inner;
        assert ([s[0]] + inner)[1..] == inner;
        if s[0] == '"' {
          assert EscapeChar('"', [s[0]] + inner) == ['\\', '"'] + rest;
          assert (['\\', '"'] + rest)[2..] == rest;
        } else {
          assert EscapeChar('"', [s[0]] + inner) == [s[0]] + rest;
          assert ([s[0]] + rest)[1..] == rest;
        }
      }
    }
  }

  /** Every comment of `u` is one of `s`, also after one more character before both. */
  predicate Echoes(s: string, u: string) {
    && (NoComment(s) ==> NoComment(u))
    && (HashBlank(u) ==> HashBlank(s))
    && (u != "" && IsSpace(u[0]) ==> s != "" && s[0] == u[0])
  }

  /** A hash and a blank at the start. */
  predicate HashBlank(s: string) {
    |s| >= 2 && s[0] == '#' && IsSpace(s[1])
  }

  lemma EchoesAfter(c: char, s: string, u: string)
    requires Echoes(s, u)
    ensures Echoes([c] + s, [c] + u)
  {
    hide IsSpace, NoComment;
    NoCommentTail([c] + s);
    NoCommentTail([c] + u);
    assert ([c] + s)[1..] == s && ([c] + u)[1..] == u;
  }

  /** Neither blank nor hash: no part of a comment's start. */
  predicate IsMark(c: char) {
    !IsSpace(c) && c != '#'
  }

  /** A mark before a mark is of no account. */
  lemma EchoesUnmarked(c: char, d: char, s: string, u: string)
    requires Echoes(s, u) && IsMark(c) && IsMark(d)
    ensures Echoes([c, d] + s, [d] + u)
  {
    hide IsSpace, NoComment;
    MarkNoComment(c, [d] + s);
    MarkNoComment(d, s);
    MarkNoComment(d, u);
    assert [c] + ([d] + s) == [c, d] + s;
  }

  lemma EchoesMarked(c: char, d: char, s: string, u: string)
    requires Echoes(s, u) && IsMark(c) && IsMark(d)
    ensures Echoes([d] + s, [c, d] + u)
  {
    hide IsSpace, NoComment;
    MarkNoComment(d, s);
    MarkNoComment(c, [d] + u);
    MarkNoComment(d, u);
    assert [c] + ([d] + u) == [c, d] + u;
  }

  lemma MarksAre()
    ensures IsMark('"') && IsMark('\\')
  {
  }

  lemma MarkNoComment(c: char, s: string)
    requires !IsSpace(c)
    ensures NoComment([c] + s) <==> NoComment(s)
  {
    hide IsSpace, NoComment;
    NoCommentTail([c] + s);
    assert ([c] + s)[1..] == s;
  }

  /** Escaping touches no hash and no line end. */
  lemma {:induction false} EscapeFacts(c: char, s: string)
    requires c == '"' || c == '\\'
    ensures Hashes(EscapeChar(c, s)) == Hashes(s)
    ensures OnOneLine(EscapeChar(c, s)) <==> OnOneLine(s)
    ensures '\n' in EscapeChar(c, s) <==> '\n' in s
  {
    if s != "" {
      var head, rest := if s[0] == c then ['\\', c] else [s[0]], EscapeChar(c, s[1..]);
      EscapeFacts(c, s[1..]);
      HashesAppend(head, rest);
      OneLinePart(head, rest, "");
      assert head + rest + "" == head + rest;
      OneLinePart([s[0]], s[1..], "");
      assert [s[0]] + s[1..] + "" == s;
      assert head[1..] == [] || head[1..] == [c];
      assert Hashes(head) == Hashes([s[0]]) by { HashesOf(head, s[0], c); }
      HashesAppend([s[0]], s[1..]);
      assert OnOneLine(head) <==> OnOneLine([s[0]]) by { if s[0] == c { assert head[0] == '\\' && head[1] == c; } }
    }
  }

  lemma HashesOf(head: string, d: char, c: char)
    requires c == '"' || c == '\\'
    requires head == if d == c then ['\\', c] else [d]
    ensures Hashes(head) == Hashes([d])
  {
    assert [d][1..] == "";
    if d == c { assert head[1..] == [c] && [c][1..] == ""; }
  }

  /** Unescaping loses no hash, joins no comment and breaks no line. */
  lemma {:induction false} UnescapeFacts(s: string)
    ensures Hashes(Unescape(s)) == Hashes(s)
    ensures NoComment(s) ==> NoComment(Unescape(s))
    ensures OnOneLine(s) ==> OnOneLine(Unescape(s))
  {
    hide NoComment, OnOneLine, Unescape;
    UnescapeHashes(s);
    UnescapeComments(s);
    UnescapeLines(s);
  }

  lemma {:induction false} UnescapeHashes(s: string)
    ensures Hashes(Unescape(s)) == Hashes(s)
    decreases |s|
  {
    if s != "" {
      if |s| > 1 && s[0] == '\\' && (s[1] == '"' || s[1] == '\\') {
        UnescapeHashes(s[2..]);
        assert s == [s[0], s[1]] + s[2..];
        HashesAppend([s[0], s[1]], s[2..]);
        assert [s[0], s[1]][1..] == [s[1]] && [s[1]][1..] == "";
        HashesAppend([s[1]], Unescape(s[2..]));
      } else {
        UnescapeHashes(s[1..]);
        HashesAppend([s[0]], Unescape(s[1..]));
        HashesAppend([s[0]], s[1..]);
        assert [s[0]] + s[1..] == s;
      }
    }
  }

  lemma {:induction false} UnescapeLines(s: string)
    ensures OnOneLine(s) ==> OnOneLine(Unescape(s))
    decreases |s|
  {
    hide IsLineEnd;
    if s != "" && OnOneLine(s) {
      if |s| > 1 && s[0] == '\\' && (s[1] == '"' || s[1] == '\\') {
        assert OnOneLine(s[2..]);
        UnescapeLines(s[2..]);
      } else {
        assert OnOneLine(s[1..]);
        UnescapeLines(s[1..]);
      }
    }
  }

  /** A blank or a hash comes out of unescaping where it went in. */
  lemma {:induction false} UnescapeComments(s: string)
    ensures Echoes(s, Unescape(s))
    decreases |s|
  {
    hide Echoes, IsMark;
    MarksAre();
    if s == "" {
      SameEchoes(s);
    } else if |s| > 1 && s[0] == '\\' && (s[1] == '"' || s[1] == '\\') {
      UnescapeComments(s[2..]);
      EchoesUnmarked(s[0], s[1], s[2..], Unescape(s[2..]));
      assert s == [s[0], s[1]] + s[2..];
    } else {
      UnescapeComments(s[1..]);
      EchoesAfter(s[0], s[1..], Unescape(s[1..]));
      assert s == [s[0]] + s[1..];
    }
  }

  lemma SameEchoes(s: string)
    ensures Echoes(s, s)
  {
  }

  lemma {:induction false} UnescapeQuotesFacts(s: string)
    ensures Hashes(UnescapeQuotes(s)) == Hashes(s)
    ensures OnOneLine(s) ==> OnOneLine(UnescapeQuotes(s))
    decreases |s|
  {
    hide IsLineEnd;
    if s != "" {
      if |s| > 1 && s[0] == '\\' && s[1] == '"' {
        UnescapeQuotesFacts(s[2..]);
        assert s == [s[0], s[1]] + s[2..];
        HashesAppend([s[0], s[1]], s[2..]);
        assert [s[0], s[1]][1..] == [s[1]] && [s[1]][1..] == "";
        assert "\"" == [s[1]];
        HashesAppend([s[1]], UnescapeQuotes(s[2..]));
        assert OnOneLine(s) ==> OnOneLine(s[2..]);
      } else {
        UnescapeQuotesFacts(s[1..]);
        HashesAppend([s[0]], UnescapeQuotes(s[1..]));
        HashesAppend([s[0]], s[1..]);
        assert [s[0]] + s[1..] == s;
        assert OnOneLine(s) ==> OnOneLine(s[1..]);
      }
    }
  }

  lemma {:induction false} UnescapeQuotesComments(s: string)
    ensures Echoes(s, UnescapeQuotes(s))
    decreases |s|
  {
    hide Echoes, IsMark;
    MarksAre();
    if s == "" {
      SameEchoes(s);
    } else if |s| > 1 && s[0] == '\\' && s[1] == '"' {
      UnescapeQuotesComments(s[2..]);
      EchoesUnmarked(s[0], s[1], s[2..], UnescapeQuotes(s[2..]));
      assert s == [s[0], s[1]] + s[2..] && "\"" == [s[1]];
    } else {
      UnescapeQuotesComments(s[1..]);
      EchoesAfter(s[0], s[1..], UnescapeQuotes(s[1..]));
      assert s == [s[0]] + s[1..];
    }
  }

  /** Taking quotes off loses no hash, joins no comment and breaks no line. */
  lemma {:induction false} StripFacts(v: string)
    ensures Hashes(StripQuotes(v)) == Hashes(v)
    ensures NoComment(v) ==> NoComment(StripQuotes(v))
    ensures OnOneLine(v) ==> OnOneLine(StripQuotes(v))
  {
    var l, r := TrimSplit(v);
    HashesTrim(v);
    hide Trim, NoComment, OnOneLine;
    var t := Trim(v);
    if NoComment(v) { NoCommentPart(l, t, r); }
    OneLinePart(l, t, r);
    if Between(t, '"') || Between(t, '\'') {
      var q, inner := [t[0]], t[1..|t| - 1];
      assert t == q + inner + q;
      if NoComment(t) { NoCommentPart(q, inner, q); }
      OneLinePart(q, inner, q);
      HashesAppend(q + inner, q);
      HashesAppend(q, inner);
      assert q[1..] == "";
      UnescapeFacts(inner);
      UnescapeQuotesFacts(inner);
      UnescapeQuotesComments(inner);
    }
  }

  // ---------- what is written ----------

  predicate BreaksFirst(s: string) {
    |s| > 1 && s[0] == '\r' && s[1] == '\n'
  }

  lemma OneSpaceBreak(s: string)
    requires BreaksFirst(s)
    ensures OneSpace(s) == " " + OneSpace(s[2..])
  {
  }

  lemma OneSpaceFirst(s: string)
    requires s != "" && !BreaksFirst(s)
    ensures OneSpace(s) == [if s[0] == '\n' then ' ' else s[0]] + OneSpace(s[1..])
  {
  }

  lemma OneSpaceNone(b: string)
    ensures OneSpace("") == "" && "" + b == b && "" + OneSpace(b) == OneSpace(b)
  {
  }

  lemma Drop(a: string, b: string, n: nat)
    requires n <= |a|
    ensures (a + b)[n..] == a[n..] + b
  {
  }

  lemma SameGrouping(a: string, b: string, c: string)
    ensures a + (b + c) == (a + b) + c
  {
  }

  lemma {:induction false} OneSpaceAppend(a: string, b: string)
    requires a != "" && b != "" && a[|a| - 1] == '\r' ==> b[0] != '\n'
    ensures OneSpace(a + b) == OneSpace(a) + OneSpace(b)
    decreases |a|
  {
    hide OneSpace;
    if a == "" {
      OneSpaceNone(b);
    } else if BreaksFirst(a) {
      Drop(a, b, 2);
      OneSpaceAppend(a[2..], b);
      OneSpaceBreak(a);
      OneSpaceBreak(a + b);
      SameGrouping(" ", OneSpace(a[2..]), OneSpace(b));
    } else {
      Drop(a, b, 1);
      OneSpaceAppend(a[1..], b);
      OneSpaceFirst(a);
      OneSpaceFirst(a + b);
      SameGrouping([if a[0] == '\n' then ' ' else a[0]], OneSpace(a[1..]), OneSpace(b));
    }
  }

  lemma OneSpaceFacts(s: string)
    ensures '\n' !in OneSpace(s) && Hashes(OneSpace(s)) == Hashes(s)
    ensures '\n' !in s ==> OneSpace(s) == s
    ensures Blank(s) ==> Blank(OneSpace(s))
  {
    hide OneSpace, Hashes;
    OneSpaceBreaksNone(s);
    OneSpaceHashes(s);
    if '\n' !in s { OneSpaceSame(s); }
    if Blank(s) { OneSpaceBlank(s); }
  }

  lemma {:induction false} OneSpaceBreaksNone(s: string)
    ensures '\n' !in OneSpace(s)
    decreases |s|
  {
    hide OneSpace;
    if s == "" {
      OneSpaceNone("");
    } else if BreaksFirst(s) {
      OneSpaceBreaksNone(s[2..]);
      OneSpaceBreak(s);
    } else {
      OneSpaceBreaksNone(s[1..]);
      OneSpaceFirst(s);
    }
  }

  lemma {:induction false} OneSpaceSame(s: string)
    requires '\n' !in s
    ensures OneSpace(s) == s
  {
    hide OneSpace;
    if s == "" {
      OneSpaceNone("");
    } else {
      OneSpaceSame(s[1..]);
      OneSpaceFirst(s);
      assert s == [s[0]] + s[1..];
    }
  }

  lemma OneHash(c: char, s: string)
    ensures Hashes([c] + s) == Hashes(s) + (if c == '#' then 1 else 0)
  {
    assert ([c] + s)[1..] == s;
  }

  lemma {:induction false} OneSpaceHashes(s: string)
    ensures Hashes(OneSpace(s)) == Hashes(s)
    decreases |s|
  {
    hide OneSpace, Hashes;
    if s == "" {
      OneSpaceNone("");
    } else if BreaksFirst(s) {
      OneSpaceHashes(s[2..]);
      OneSpaceBreak(s);
      OneHash(' ', OneSpace(s[2..]));
      OneHash(s[1], s[2..]);
      OneHash(s[0], s[1..]);
      assert s == [s[0]] + s[1..] && s[1..] == [s[1]] + s[2..];
    } else {
      OneSpaceHashes(s[1..]);
      OneSpaceFirst(s);
      OneHash(if s[0] == '\n' then ' ' else s[0], OneSpace(s[1..]));
      OneHash(s[0], s[1..]);
      assert s == [s[0]] + s[1..];
    }
  }

  lemma {:induction false} OneSpaceBlank(s: string)
    requires Blank(s)
    ensures Blank(OneSpace(s))
    decreases |s|
  {
    hide OneSpace;
    if s == "" {
      OneSpaceNone("");
    } else if BreaksFirst(s) {
      OneSpaceBlank(s[2..]);
      OneSpaceBreak(s);
      BlankSum(" ", OneSpace(s[2..]));
    } else {
      OneSpaceBlank(s[1..]);
      OneSpaceFirst(s);
      BlankSum([if s[0] == '\n' then ' ' else s[0]], OneSpace(s[1..]));
    }
  }

  /** A text that begins and ends with something still does. */
  lemma {:induction false} OneSpaceBare(s: string)
    requires Texts.Bare(s)
    ensures Texts.Bare(OneSpace(s))
  {
    var init, last := s[..|s| - 1], [s[|s| - 1]];
    assert s == init + last;
    OneSpaceAppend(init, last);
    assert last[1..] == "";
    assert OneSpace(last) == last;
    if init != "" { assert init[0] == s[0]; }
  }

  /** Only what is between the outer blanks counts. */
  lemma {:induction false} FlatOfTrim(s: string)
    ensures FlatText(s) == FlatText(Trim(s))
    ensures Trim(s) == "" ==> FlatText(s) == ""
    ensures Trim(s) != "" ==> Texts.Bare(FlatText(s))
    ensures '\n' !in Trim(s) ==> FlatText(s) == Trim(s)
  {
    var l, r := TrimSplit(s);
    var core := Trim(s);
    hide Trim, OneSpace, Hashes;
    OneSpaceFacts(l);
    OneSpaceFacts(r);
    OneSpaceFacts(core);
    if core == "" {
      assert l + core + r == l + r;
      OneSpaceFacts(s);
      BlankSum(l, r);
      BlankIsNothing(OneSpace(s));
      OneSpaceNone("");
      BlankIsNothing("");
    } else {
      FlatCore(l, core, r);
    }
  }

  lemma FlatCore(l: string, core: string, r: string)
    requires Texts.Bare(core) && Blank(l) && Blank(r)
    requires Blank(OneSpace(l)) && Blank(OneSpace(r))
    ensures FlatText(l + core + r) == OneSpace(core) == FlatText(core) && Texts.Bare(OneSpace(core))
  {
    CoreParts(l, core, r);
    OneSpaceBare(core);
    BareIsTrimmed(OneSpace(core));
    hide Trim, OneSpace;
    TrimAround(OneSpace(l), OneSpace(core), OneSpace(r));
  }

  lemma CoreParts(l: string, core: string, r: string)
    requires Texts.Bare(core)
    ensures OneSpace(l + core + r) == OneSpace(l) + OneSpace(core) + OneSpace(r)
  {
    LastOf(l, core);
    hide OneSpace, IsSpace;
    OneSpaceAppend(l + core, r);
    OneSpaceAppend(l, core);
  }

  lemma LastOf(l: string, core: string)
    requires Texts.Bare(core)
    ensures (l + core)[|l + core| - 1] == core[|core| - 1] && core[|core| - 1] != '\r' && core[0] != '\n'
  {
  }

  /** What a scalar is written as: on the file's terms it is a word, and without the quotes the
      text itself. */
  lemma {:induction false} ScalarShape(s: string)
    ensures Texts.Bare(ScalarText(s)) && '\n' !in ScalarText(s)
    ensures StripQuotes(ScalarText(s)) == FlatText(s)
    ensures Hashes(ScalarText(s)) == Hashes(s)
    ensures OnOneLine(ScalarText(s)) <==> OnOneLine(FlatText(s))
    ensures ScalarText(s)[0] !in {'[', '|', '>', '\''}
    ensures ScalarText(s)[0] == '"' || (ScalarText(s) == FlatText(s) && !NeedsQuoting(FlatText(s)))
  {
    var flat, text := FlatText(s), ScalarText(s);
    FlatFacts(s);
    if NeedsQuoting(flat) {
      QuotedShape(flat);
    } else {
      UnquotedShape(flat);
    }
  }

  lemma {:induction false} FlatFacts(s: string)
    ensures Hashes(FlatText(s)) == Hashes(s) && '\n' !in FlatText(s)
    ensures FlatText(s) != "" ==> Texts.Bare(FlatText(s))
    ensures Trim(FlatText(s)) == FlatText(s)
  {
    OneSpaceFacts(s);
    HashesTrim(OneSpace(s));
    var l, r := TrimSplit(OneSpace(s));
    TrimTwice(OneSpace(s));
    hide Trim;
    assert forall i :: 0 <= i < |FlatText(s)| ==> FlatText(s)[i] == OneSpace(s)[|l| + i];
  }

  lemma {:induction false} UnquotedShape(flat: string)
    requires !NeedsQuoting(flat)
    ensures Texts.Bare(flat) && StripQuotes(flat) == flat && flat[0] !in {'[', '|', '>', '\'', '"'}
  {
    assert flat[0] !in QUOTED_STARTS;
    StartsQuoted();
    hide Occurs;
    BareIsTrimmed(flat);
  }

  lemma StartsQuoted()
    ensures '[' in QUOTED_STARTS && '|' in QUOTED_STARTS && '>' in QUOTED_STARTS && '\'' in QUOTED_STARTS && '"' in QUOTED_STARTS
  {
    assert QUOTED_STARTS[0] == '\'' && QUOTED_STARTS[1] == '"' && QUOTED_STARTS[5] == '[';
    assert QUOTED_STARTS[13] == '|' && QUOTED_STARTS[14] == '>';
  }

  lemma {:induction false} QuotedShape(flat: string)
    requires '\n' !in flat
    ensures var text := Quoted(flat);
      && Texts.Bare(text) && '\n' !in text && StripQuotes(text) == flat && text[0] == '"'
      && Hashes(text) == Hashes(flat) && (OnOneLine(text) <==> OnOneLine(flat))
  {
    hide OnOneLine, NoComment, Trim;
    var e := EscapeChar('\\', flat);
    var inner, q := EscapeChar('"', e), "\"";
    var text := q + inner + q;
    EscapeFacts('\\', flat);
    EscapeFacts('"', e);
    UnescapeEscaped(flat);
    assert text[0] == '"' && text[|text| - 1] == '"' && text[1..|text| - 1] == inner;
    BareIsTrimmed(text);
    HashesAppend(q + inner, q);
    HashesAppend(q, inner);
    assert q[1..] == "";
    OneLinePart(q, inner, q);
    assert OnOneLine(q) by { QuoteOnOneLine(); }
  }

  lemma QuoteOnOneLine()
    ensures OnOneLine("\"")
  {
  }

  // ---------- what a scalar reads back as ----------

  /** The scalar as the next reader finds it; none when its line cannot be read. */
  function ReadScalar(s: string): Option<string> {
    if OnOneLine(FlatText(s)) then Some(StripQuotes(Trim(BeforeComment(ScalarText(s))))) else None
  }

  /** A text that survives: it has no line end in it, and no blank, hash and blank. */
  predicate Survives(s: string) {
    OnOneLine(Trim(s)) && NoComment(Trim(s))
  }

  /** Quoting neither hides a comment nor makes one. */
  lemma {:induction false} CommentShows(s: string)
    ensures NoComment(ScalarText(s)) <==> NoComment(FlatText(s))
  {
    var flat, text := FlatText(s), ScalarText(s);
    ScalarShape(s);
    if NoComment(text) { StripFacts(text); }
    if NoComment(flat) && text != flat {
      hide NoComment;
      EscapeComments('\\', flat);
      EscapeComments('"', EscapeChar('\\', flat));
      NoCommentQuoted(EscapeChar('"', EscapeChar('\\', flat)));
    }
  }

  lemma {:induction false} EscapeComments(c: char, s: string)
    requires c == '"' || c == '\\'
    ensures Echoes(s, EscapeChar(c, s))
  {
    hide Echoes, IsMark;
    MarksAre();
    if s == "" {
      SameEchoes(s);
    } else {
      EscapeComments(c, s[1..]);
      assert s == [s[0]] + s[1..];
      if s[0] == c {
        EchoesMarked('\\', c, s[1..], EscapeChar(c, s[1..]));
      } else {
        EchoesAfter(s[0], s[1..], EscapeChar(c, s[1..]));
      }
    }
  }

  lemma {:induction false} NoCommentQuoted(inner: string)
    requires NoComment(inner)
    ensures NoComment("\"" + inner + "\"")
  {
    var s := "\"" + inner + "\"";
    forall i | 0 <= i < |s| - 2 ensures !(IsSpace(s[i]) && s[i + 1] == '#' && IsSpace(s[i + 2])) {
      if 0 < i && i + 2 <= |inner| {
        assert s[i] == inner[i - 1] && s[i + 1] == inner[i] && s[i + 2] == inner[i + 1];
      } else {
        assert s[0] == '"' && s[|s| - 1] == '"';
      }
    }
  }

  /** WHICH SCALARS SURVIVE. Up to outer blanks a scalar reads back as it was sent if and only if it
      has no line end and no blank, hash and blank between them; and then it is exactly the
      text without the blanks. What is read is itself a text that survives. */
  lemma {:induction false} ScalarKept(s: string)
    ensures Survives(s) ==> ReadScalar(s) == Some(Trim(s))
    ensures (ReadScalar(s).Some? && Trim(ReadScalar(s).value) == Trim(s)) <==> Survives(s)
    ensures ReadScalar(s).Some? ==> Survives(ReadScalar(s).value) && OnOneLine(ReadScalar(s).value) && NoComment(ReadScalar(s).value)
  {
    var text := ScalarText(s);
    ScalarShape(s);
    CommentShows(s);
    BeforeCommentIs(text);
    FlatOfTrim(s);
    TrimTwice(s);
    hide Trim, NoComment, OnOneLine, FlatText;
    if ReadScalar(s).Some? {
      var x := ReadScalar(s).value;
      CutFacts(text);
      SurvivesTrim(x);
      HashesTrim(x);
      HashesTrim(s);
    }
    if Survives(s) {
      NoNewline(Trim(s));
      BareIsTrimmed(text);
    } else if '\n' !in Trim(s) {
      assert FlatText(s) == Trim(s);
    } else if ReadScalar(s).Some? {
      NoNewline(Trim(ReadScalar(s).value));
    }
  }

  lemma NoNewline(s: string)
    ensures OnOneLine(s) ==> '\n' !in s
  {
  }

  /** What is left of a written scalar. */
  lemma {:induction false} CutFacts(text: string)
    ensures var x := StripQuotes(Trim(BeforeComment(text)));
      && Hashes(x) == Hashes(BeforeComment(text)) && NoComment(x) && (OnOneLine(text) ==> OnOneLine(x))
  {
    BeforeCommentIs(text);
    var b := BeforeComment(text);
    var l, r := TrimSplit(b);
    HashesTrim(b);
    StripFacts(Trim(b));
    hide Trim, NoComment, OnOneLine;
    NoCommentPart(l, Trim(b), r);
    OneLinePart(l, Trim(b), r);
    assert text == "" + b + text[|b|..];
    OneLinePart("", b, text[|b|..]);
  }

  lemma {:induction false} SurvivesTrim(x: string)
    requires NoComment(x) && OnOneLine(x)
    ensures Survives(x)
  {
    var l, r := TrimSplit(x);
    hide Trim, NoComment, OnOneLine;
    NoCommentPart(l, Trim(x), r);
    OneLinePart(l, Trim(x), r);
  }

  // ---------- what a list reads back as ----------

  /** An item that is written without quotes and reads as a mapping. */
  predicate MappingItem(s: string) {
    WordColonBlank(ScalarText(s))
  }

  function FlatTexts(items: seq<string>): (r: seq<string>)
    ensures |r| == |items| && forall i :: 0 <= i < |items| ==> r[i] == FlatText(items[i])
  {
    seq(|items|, i requires 0 <= i < |items| => FlatText(items[i]))
  }

  predicate NoMapping(items: seq<string>) {
    forall i :: 0 <= i < |items| ==> !MappingItem(items[i])
  }

  /** One mapping among them, and the items are kept as lines instead. */
  function ReadList(items: seq<string>): Value {
    if NoMapping(items) then Plain(List(FlatTexts(items))) else Block("", ItemLines(items))
  }

  /** Any value as the next reader finds it; a block is kept as it is. */
  function ReadBack(v: Value): Option<Value> {
    match v
    case Block(_, _) => Some(v)
    case Plain(List(items)) => Some(ReadList(items))
    case Plain(Scalar(s)) => if ReadScalar(s).Some? then Some(Plain(Scalar(ReadScalar(s).value))) else None
  }

  lemma {:induction false} ItemLine(s: string)
    ensures var line := "  - " + ScalarText(s);
      && Indented(line) && '\n' !in line && !IsFence(line) && (SimpleItem(line) <==> !MappingItem(s))
      && ItemText(line) == FlatText(s)
  {
    var text := ScalarText(s);
    var line := "  - " + text;
    ScalarShape(s);
    hide ScalarText, FlatText;
    DashLine(text);
    hide WordColonBlank, StripQuotes, TrimStart;
    assert forall i :: 4 <= i < |line| ==> line[i] == text[i - 4];
    assert !IsFence(line) by { assert line[..3][0] == ' '; }
  }

  lemma {:induction false} DashLine(text: string)
    requires Texts.Bare(text)
    ensures var line := "  - " + text; TrimStart(line) == "- " + text && Trim(line) != "" && ("- " + text)[2..] == text
  {
    var line, t := "  - " + text, "- " + text;
    assert line[1..] == " - " + text && line[1..][1..] == t;
    assert t[0] == '-';
    assert TrimStart(t) == t;
    assert TrimStart(line[1..]) == TrimStart(line[1..][1..]);
    TrimEndKeepsFirst(t);
  }

  lemma {:induction false} ItemsRead(items: seq<string>)
    ensures AllSimple(ItemLines(items)) <==> NoMapping(items)
    ensures ItemTexts(ItemLines(items)) == FlatTexts(items)
    ensures forall i :: 0 <= i < |items| ==> Indented(ItemLines(items)[i]) && '\n' !in ItemLines(items)[i] && !IsFence(ItemLines(items)[i])
  {
    hide SimpleItem, ItemText, Indented, MappingItem, FlatText, ScalarText, IsFence;
    forall i | 0 <= i < |items|
      ensures SimpleItem(ItemLines(items)[i]) <==> !MappingItem(items[i])
      ensures ItemText(ItemLines(items)[i]) == FlatText(items[i])
      ensures Indented(ItemLines(items)[i]) && '\n' !in ItemLines(items)[i] && !IsFence(ItemLines(items)[i])
    {
      ItemLine(items[i]);
    }
  }
}
