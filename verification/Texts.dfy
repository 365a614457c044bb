/** Texts: what trimming takes off, and the lines of a text, of which there is always one. */
module Texts {
  // The importer, the page edits, the frontmatter and the JSONC reader see texts so. The lemma
  // the rest needs is how the lines of two texts make up the lines of both together: the last
  // line of the one and the first of the other become one line, and all others stay. White
  // space is that of ECMA-262, sections 12.2 and 12.3: what `trim` takes off and `\s` matches.

  /** Tab to carriage return, the space, and the blanks, line separators and byte order
      mark beyond ASCII. */
  predicate IsSpace(c: char) {
    || '\t' <= c <= '\r' || c == ' '
    || c in {'\U{00A0}', '\U{1680}', '\U{202F}', '\U{205F}', '\U{3000}', '\U{FEFF}'}
    || '\U{2000}' <= c <= '\U{200A}' || '\U{2028}' <= c <= '\U{2029}'
  }

  function TrimStart(s: string): string {
    if s != [] && IsSpace(s[0]) then TrimStart(s[1..]) else s
  }

  function TrimEnd(s: string): string {
    if s != [] && IsSpace(s[|s| - 1]) then TrimEnd(s[..|s| - 1]) else s
  }

  function Trim(s: string): string {
    TrimEnd(TrimStart(s))
  }

  function TrimAll(ss: seq<string>): (r: seq<string>)
    ensures |r| == |ss| && forall i :: 0 <= i < |ss| ==> r[i] == Trim(ss[i])
  {
    seq(|ss|, i requires 0 <= i < |ss| => Trim(ss[i]))
  }

  lemma {:induction false} TrimEndKeepsStart(s: string)
    requires s != [] ==> !IsSpace(s[0])
    ensures TrimEnd(s) != [] ==> !IsSpace(TrimEnd(s)[0])
    decreases |s|
  {
    if s != [] && IsSpace(s[|s| - 1]) { TrimEndKeepsStart(s[..|s| - 1]); }
  }

  lemma {:induction false} TrimStartClean(s: string)
    ensures TrimStart(s) != [] ==> !IsSpace(TrimStart(s)[0])
  {
    if s != [] && IsSpace(s[0]) { TrimStartClean(s[1..]); }
  }

  lemma {:induction false} TrimEndClean(s: string)
    ensures TrimEnd(s) != [] ==> !IsSpace(TrimEnd(s)[|TrimEnd(s)| - 1])
    decreases |s|
  {
    if s != [] && IsSpace(s[|s| - 1]) { TrimEndClean(s[..|s| - 1]); }
  }

  lemma {:induction false} TrimEndKeepsFirst(s: string)
    requires s != "" && !IsSpace(s[0])
    ensures TrimEnd(s) != "" && TrimEnd(s)[0] == s[0]
  {
    if IsSpace(s[|s| - 1]) { TrimEndKeepsFirst(s[..|s| - 1]); }
  }

  lemma TrimTwice(s: string)
    ensures Trim(Trim(s)) == Trim(s)
  {
    TrimStartClean(s);
    TrimEndKeepsStart(TrimStart(s));
    TrimEndClean(TrimStart(s));
  }

  // ---------- blanks around a text ----------

  predicate Blank(s: string) {
    forall i :: 0 <= i < |s| ==> IsSpace(s[i])
  }

  /** A text that begins and ends with something. */
  predicate Bare(s: string) {
    s != "" && !IsSpace(s[0]) && !IsSpace(s[|s| - 1])
  }

  lemma BareIsTrimmed(s: string)
    requires Bare(s)
    ensures Trim(s) == s
  {
  }

  lemma {:induction false} TrimStartSplit(s: string) returns (l: string)
    ensures s == l + TrimStart(s) && Blank(l)
  {
    if s != "" && IsSpace(s[0]) {
      l := TrimStartSplit(s[1..]);
      l := [s[0]] + l;
    } else {
      l := "";
    }
  }

  lemma {:induction false} TrimEndSplit(s: string) returns (r: string)
    ensures s == TrimEnd(s) + r && Blank(r)
    decreases |s|
  {
    if s != "" && IsSpace(s[|s| - 1]) {
      r := TrimEndSplit(s[..|s| - 1]);
      r := r + [s[|s| - 1]];
    } else {
      r := "";
    }
  }

  /** A text is its trimmed self between blanks. */
  lemma TrimSplit(s: string) returns (l: string, r: string)
    ensures s == l + Trim(s) + r && Blank(l) && Blank(r)
    ensures Trim(s) != "" ==> Bare(Trim(s))
  {
    l := TrimStartSplit(s);
    r := TrimEndSplit(TrimStart(s));
    TrimStartClean(s);
    TrimEndKeepsStart(TrimStart(s));
    TrimEndClean(TrimStart(s));
    hide TrimStart, TrimEnd, IsSpace;
    assert l + (Trim(s) + r) == l + Trim(s) + r;
  }

  /** Two ways to see a bare text between blanks in one text are the same. */
  lemma SameMargins(l: string, core: string, r: string, l': string, core': string, r': string)
    requires Blank(l) && Blank(r) && Blank(l') && Blank(r') && Bare(core) && Bare(core')
    requires l + core + r == l' + core' + r'
    ensures l == l' && core == core' && r == r'
  {
    hide IsSpace;
    var s := l + core + r;
    var e, e' := |l| + |core|, |l'| + |core'|;
    assert s[|l|] == core[0] && s[|l'|] == core'[0];
    assert s[e - 1] == core[|core| - 1] && s[e' - 1] == core'[|core'| - 1];
    NotInMargins(s, l', core', r', |l|);
    NotInMargins(s, l, core, r, |l'|);
    NotInMargins(s, l', core', r', e - 1);
    NotInMargins(s, l, core, r, e' - 1);
    assert l == s[..|l|] && core == s[|l|..e] && r == s[e..];
  }

  /** Something is added to a text that is not blank: trimmed it is the same only if what is added
      is blank. */
  lemma TrimAround(x: string, a: string, y: string)
    requires Trim(a) != ""
    ensures Trim(x + a + y) == Trim(a) <==> Blank(x) && Blank(y)
  {
    hide IsSpace, TrimStart, TrimEnd;
    var l, r := TrimSplit(a);
    var l', r' := TrimSplit(x + a + y);
    var core := Trim(a);
    assert x + a + y == (x + l) + core + (r + y);
    if Blank(x) && Blank(y) {
      BlankSum(x, l);
      BlankSum(r, y);
      assert (x + a + y)[|x + l|] == core[0];
      NotInMargins(x + a + y, l', Trim(x + a + y), r', |x + l|);
      SameMargins(x + l, core, r + y, l', Trim(x + a + y), r');
    } else if Trim(x + a + y) == core {
      SubBlank(x, l, core, r, y, l', r');
    }
  }

  lemma BlankSum(a: string, b: string)
    ensures Blank(a + b) <==> Blank(a) && Blank(b)
  {
    hide IsSpace;
    if Blank(a + b) {
      assert forall i :: 0 <= i < |a| ==> a[i] == (a + b)[i];
      assert forall i :: 0 <= i < |b| ==> b[i] == (a + b)[|a| + i];
    }
  }

  lemma Pieces(l: string, core: string, r: string)
    ensures forall k :: 0 <= k < |l| ==> (l + core + r)[k] == l[k]
    ensures forall k :: |l| + |core| <= k < |l + core + r| ==> (l + core + r)[k] == r[k - |l| - |core|]
  {
  }

  /** What is not blank lies between the blank margins. */
  lemma NotInMargins(s: string, l: string, core: string, r: string, k: nat)
    requires s == l + core + r && Blank(l) && Blank(r) && k < |s| && !IsSpace(s[k])
    ensures |l| <= k < |l| + |core|
  {
    hide IsSpace;
    Pieces(l, core, r);
  }

  /** The margins of a text between others, when its core is that of all of it. */
  lemma SubBlank(x: string, l: string, core: string, r: string, y: string, l': string, r': string)
    requires Bare(core) && Blank(l) && Blank(r) && Blank(l') && Blank(r')
    requires (x + l) + core + (r + y) == l' + core + r'
    ensures Blank(x) && Blank(y)
  {
    hide IsSpace;
    var s := l' + core + r';
    var n := |x + l|;
    assert s == (x + l) + core + (r + y);
    assert s[n] == core[0] && s[n + |core| - 1] == core[|core| - 1];
    NotInMargins(s, l', core, r', n);
    NotInMargins(s, l', core, r', n + |core| - 1);
    assert l' == s[..n] == x + l && r' == s[n + |core|..] == r + y;
    BlankSum(x, l);
    BlankSum(r, y);
  }

  lemma BlankIsNothing(s: string)
    requires Blank(s)
    ensures Trim(s) == ""
  {
    var l, r := TrimSplit(s);
    SpanNotBlank(s, l, Trim(s), r);
  }

  lemma SpanNotBlank(s: string, l: string, t: string, r: string)
    requires s == l + t + r && (t != "" ==> Bare(t))
    ensures Blank(s) ==> t == ""
  {
    hide IsSpace;
    assert t != "" ==> s[|l|] == t[0];
  }

  // ---------- lines ----------

  /** The lines of a text, given those of all but its first character. */
  function Prepend(c: char, ls: seq<string>): (r: seq<string>)
    requires |ls| >= 1
    ensures |r| >= 1
  {
    if c == '\n' then [""] + ls else [[c] + ls[0]] + ls[1..]
  }

  /** The lines of a text: at least one, none holding a newline. */
  function Lines(s: string): (ls: seq<string>)
    ensures |ls| >= 1
    ensures forall i :: 0 <= i < |ls| ==> '\n' !in ls[i]
  {
    if s == "" then [""] else Prepend(s[0], Lines(s[1..]))
  }

  /** Where two texts meet, the last line of one and the first of the other become one line. */
  function Meet(a: seq<string>, b: seq<string>): (r: seq<string>)
    requires |a| >= 1 && |b| >= 1
    ensures |r| == |a| + |b| - 1
  {
    a[..|a| - 1] + [a[|a| - 1] + b[0]] + b[1..]
  }

  lemma MeetPrepend(c: char, a: seq<string>, b: seq<string>)
    requires |a| >= 1 && |b| >= 1
    ensures Meet(Prepend(c, a), b) == Prepend(c, Meet(a, b))
  {
    var l, r := Meet(Prepend(c, a), b), Prepend(c, Meet(a, b));
    assert |l| == |r|;
    if c != '\n' {
      if |a| == 1 { assert [c] + (a[0] + b[0]) == ([c] + a[0]) + b[0]; }
      assert l[0] == r[0];
    }
    assert l == r;
  }

  lemma MeetEmpty(b: seq<string>)
    requires |b| >= 1
    ensures Meet([""], b) == b
  {
    assert "" + b[0] == b[0];
  }

  lemma {:induction false} LinesAppend(s: string, t: string)
    ensures Lines(s + t) == Meet(Lines(s), Lines(t))
  {
    hide Meet, Prepend;
    if s == "" {
      assert s + t == t;
      MeetEmpty(Lines(t));
    } else {
      LinesAppend(s[1..], t);
      assert (s + t)[1..] == s[1..] + t;
      MeetPrepend(s[0], Lines(s[1..]), Lines(t));
    }
  }

  lemma {:induction false} OneLine(s: string)
    requires '\n' !in s
    ensures Lines(s) == [s]
  {
    if s != "" {
      OneLine(s[1..]);
      assert s == [s[0]] + s[1..];
    }
  }

  lemma {:induction false} BlankLines(s: string)
    requires Blank(s)
    ensures forall i :: 0 <= i < |Lines(s)| ==> Blank(Lines(s)[i])
  {
    if s != "" {
      BlankLines(s[1..]);
      assert IsSpace(s[0]);
    }
  }
}
