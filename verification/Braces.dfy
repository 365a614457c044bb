/** Brace expansion by rewriting the first innermost group (scripts/doc-refs.ts, expandBraces),
    against the language a glob with nested groups stands for. */
module Braces {
  // A glob as it is meant is a tree; the text of the tree is what the code rewrites. Each
  // rewriting of the text is shown to be one of the tree, and to keep the strings the tree
  // stands for, so the order in which the code works, innermost first, gives the same strings.


  // ---------- the rewriting ----------

  predicate IsBrace(c: char) {
    c == '{' || c == '}'
  }

  function Opens(s: string): nat {
    if s == "" then 0 else Opens(s[1..]) + (if s[0] == '{' then 1 else 0)
  }

  /** The length of the run before the first brace. */
  function Run(s: string): (n: nat)
    ensures n <= |s| && (forall i :: 0 <= i < n ==> !IsBrace(s[i])) && (n < |s| ==> IsBrace(s[n]))
  {
    if s == "" || IsBrace(s[0]) then 0 else 1 + Run(s[1..])
  }

  /** A group with no brace inside starts here. */
  predicate FlatHere(s: string) {
    s != "" && s[0] == '{' && Run(s[1..]) < |s| - 1 && s[1 + Run(s[1..])] == '}'
  }

  /** Where the first such group starts; the length of the text when there is none. */
  function FirstFlat(s: string): (i: nat)
    ensures i <= |s| && (i < |s| ==> FlatHere(s[i..]))
  {
    if s == "" || FlatHere(s) then 0 else 1 + FirstFlat(s[1..])
  }

  function SplitCommas(s: string): (r: seq<string>)
    ensures |r| >= 1
    ensures forall i :: 0 <= i < |r| ==> forall j :: 0 <= j < |r[i]| ==> r[i][j] in s
  {
    if s == "" then [""]
    else
      var rest := SplitCommas(s[1..]);
      if s[0] == ',' then [""] + rest else [[s[0]] + rest[0]] + rest[1..]
  }

  lemma {:induction false} OpensAppend(s: string, t: string)
    ensures Opens(s + t) == Opens(s) + Opens(t)
  {
    if s == "" { assert s + t == t; } else {
      assert (s + t)[1..] == s[1..] + t;
      OpensAppend(s[1..], t);
    }
  }

  lemma {:induction false} NoOpens(s: string)
    requires '{' !in s
    ensures Opens(s) == 0
  {
    if s != "" { NoOpens(s[1..]); }
  }

  /** The glob with its first innermost group replaced by one alternative. */
  function With(glob: string, alt: string): string
    requires FirstFlat(glob) < |glob|
  {
    var i := FirstFlat(glob);
    glob[..i] + alt + glob[i + Run(glob[i + 1..]) + 2..]
  }

  function Inside(glob: string): string
    requires FirstFlat(glob) < |glob|
  {
    var i := FirstFlat(glob);
    glob[i + 1..][..Run(glob[i + 1..])]
  }

  lemma WithHasFewer(glob: string, alt: string)
    requires FirstFlat(glob) < |glob| && alt in SplitCommas(Inside(glob))
    ensures Opens(With(glob, alt)) < Opens(glob)
  {
    hide SplitCommas, FirstFlat, FlatHere, Opens, Inside;
    var i := FirstFlat(glob);
    var n := GroupAt(glob);
    InsideHasNone(glob, alt);
    ThreeParts(glob, i, i + n + 2);
    FewerOpens(glob[..i], glob[i..i + n + 2], glob[i + n + 2..], alt);
  }

  lemma ThreeParts(s: string, i: nat, j: nat)
    requires i <= j <= |s|
    ensures s == s[..i] + s[i..j] + s[j..]
  {
  }

  lemma GroupAt(glob: string) returns (n: nat)
    requires FirstFlat(glob) < |glob|
    ensures var i := FirstFlat(glob);
      n == Run(glob[i + 1..]) && i + n + 2 <= |glob| && glob[i] == '{' && glob[i + 1 + n] == '}'
  {
    var i := FirstFlat(glob);
    assert FlatHere(glob[i..]) && glob[i..][1..] == glob[i + 1..];
    n := Run(glob[i + 1..]);
  }

  lemma InsideHasNone(glob: string, alt: string)
    requires FirstFlat(glob) < |glob| && alt in SplitCommas(Inside(glob))
    ensures '{' !in alt
  {
    InsideIsBraceless(glob);
    hide SplitCommas, FirstFlat, Inside;
  }

  lemma InsideIsBraceless(glob: string)
    requires FirstFlat(glob) < |glob|
    ensures '{' !in Inside(glob)
  {
    hide FirstFlat, FlatHere, Run;
    RunIsBraceless(glob[FirstFlat(glob) + 1..]);
  }

  lemma RunIsBraceless(t: string)
    ensures '{' !in t[..Run(t)]
  {
    hide Run;
    assert forall k :: 0 <= k < Run(t) ==> t[..Run(t)][k] == t[k] != '{';
  }

  lemma FewerOpens(pre: string, mid: string, post: string, alt: string)
    requires '{' !in alt && mid != "" && mid[0] == '{'
    ensures Opens(pre + alt + post) < Opens(pre + mid + post)
  {
    NoOpens(alt);
    OpensAppend(pre + alt, post);
    OpensAppend(pre, alt);
    OpensAppend(pre + mid, post);
    OpensAppend(pre, mid);
  }

  /** expandBraces. */
  function Expand(glob: string): seq<string>
    decreases Opens(glob), 1, 0
  {
    if FirstFlat(glob) == |glob| then [glob] else ExpandEach(glob, SplitCommas(Inside(glob)), 0)
  }

  function ExpandEach(glob: string, alts: seq<string>, n: nat): seq<string>
    requires FirstFlat(glob) < |glob| && alts == SplitCommas(Inside(glob)) && n <= |alts|
    decreases Opens(glob), 0, |alts| - n
  {
    if n == |alts| then []
    else
      WithHasFewer(glob, alts[n]);
      Expand(With(glob, alts[n])) + ExpandEach(glob, alts, n + 1)
  }

  // ---------- what a glob means ----------

  /** A glob as it is meant: characters, and groups of alternatives, nested freely. */
  datatype Glob = End | Chr(c: char, rest: Glob) | Group(alts: Alts, rest: Glob)
  datatype Alts = One(only: Glob) | More(first: Glob, others: Alts)

  function Print(g: Glob): string {
    match g
    case End => ""
    case Chr(c, r) => [c] + Print(r)
    case Group(a, r) => "{" + PrintAlts(a) + "}" + Print(r)
  }

  function PrintAlts(a: Alts): string {
    match a
    case One(g) => Print(g)
    case More(g, o) => Print(g) + "," + PrintAlts(o)
  }

  /** A brace is never a character; inside a group neither is a comma. */
  predicate WellFormed(g: Glob, inside: bool) {
    match g
    case End => true
    case Chr(c, r) => !IsBrace(c) && (inside ==> c != ',') && WellFormed(r, inside)
    case Group(a, r) => WellFormedAlts(a) && WellFormed(r, inside)
  }

  predicate WellFormedAlts(a: Alts) {
    match a
    case One(g) => WellFormed(g, true)
    case More(g, o) => WellFormed(g, true) && WellFormedAlts(o)
  }

  /** The strings a glob stands for. */
  function Lang(g: Glob): set<string> {
    match g
    case End => {""}
    case Chr(c, r) => set s | s in Lang(r) :: [c] + s
    case Group(a, r) => set s, t | s in LangAlts(a) && t in Lang(r) :: s + t
  }

  function LangAlts(a: Alts): set<string> {
    match a
    case One(g) => Lang(g)
    case More(g, o) => Lang(g) + LangAlts(o)
  }

  predicate HasGroup(g: Glob) {
    match g
    case End => false
    case Chr(_, r) => HasGroup(r)
    case Group(_, _) => true
  }

  predicate AnyHasGroup(a: Alts) {
    match a
    case One(g) => HasGroup(g)
    case More(g, o) => HasGroup(g) || AnyHasGroup(o)
  }

  function Join(g: Glob, r: Glob): Glob
    requires !HasGroup(g)
  {
    match g
    case End => r
    case Chr(c, t) => Chr(c, Join(t, r))
  }

  // ---------- one rewriting step on the meaning ----------


  /** The glob with its first flat group replaced by each of its alternatives in turn. */
  function Steps(g: Glob): (r: seq<Glob>)
    requires HasGroup(g)
    decreases g
  {
    match g
    case Chr(c, r) => var rs := Steps(r); seq(|rs|, i requires 0 <= i < |rs| => Chr(c, rs[i]))
    case Group(a, r) =>
      if AnyHasGroup(a) then var rs := StepsAlts(a); seq(|rs|, i requires 0 <= i < |rs| => Group(rs[i], r))
      else Choices(a, r)
  }

  function StepsAlts(a: Alts): (r: seq<Alts>)
    requires AnyHasGroup(a)
    decreases a
  {
    match a
    case One(g) => var rs := Steps(g); seq(|rs|, i requires 0 <= i < |rs| => One(rs[i]))
    case More(g, o) =>
      if HasGroup(g) then var rs := Steps(g); seq(|rs|, i requires 0 <= i < |rs| => More(rs[i], o))
      else var rs := StepsAlts(o); seq(|rs|, i requires 0 <= i < |rs| => More(g, rs[i]))
  }

  function Choices(a: Alts, r: Glob): seq<Glob>
    requires !AnyHasGroup(a)
  {
    match a
    case One(g) => [Join(g, r)]
    case More(g, o) => [Join(g, r)] + Choices(o, r)
  }

  // ---------- the same step on the text ----------

  /** What comes before the first flat group, what is in it, and what comes after. */
  function Parts(g: Glob): (string, string, string)
    requires HasGroup(g)
    decreases g
  {
    match g
    case Chr(c, r) => var (pre, mid, post) := Parts(r); ([c] + pre, mid, post)
    case Group(a, r) =>
      if AnyHasGroup(a) then var (pre, mid, post) := PartsAlts(a); ("{" + pre, mid, post + "}" + Print(r))
      else ("", PrintAlts(a), Print(r))
  }

  function PartsAlts(a: Alts): (string, string, string)
    requires AnyHasGroup(a)
    decreases a
  {
    match a
    case One(g) => Parts(g)
    case More(g, o) =>
      if HasGroup(g) then var (pre, mid, post) := Parts(g); (pre, mid, post + "," + PrintAlts(o))
      else var (pre, mid, post) := PartsAlts(o); (Print(g) + "," + pre, mid, post)
  }

  predicate NoBrace(s: string) {
    '{' !in s && '}' !in s
  }

  lemma {:induction false} FlatPrint(g: Glob, inside: bool)
    requires WellFormed(g, inside) && !HasGroup(g)
    ensures NoBrace(Print(g)) && (inside ==> ',' !in Print(g)) && Lang(g) == {Print(g)}
    decreases g
  {
    if g.Chr? { FlatPrint(g.rest, inside); }
  }

  lemma {:induction false} FlatPrintAlts(a: Alts)
    requires WellFormedAlts(a) && !AnyHasGroup(a)
    ensures NoBrace(PrintAlts(a))
    decreases a
  {
    match a
    case One(g) => FlatPrint(g, true);
    case More(g, o) => FlatPrint(g, true); FlatPrintAlts(o);
  }

  lemma {:induction false} PartsPrint(g: Glob, inside: bool)
    requires WellFormed(g, inside) && HasGroup(g)
    ensures var (pre, mid, post) := Parts(g);
      Print(g) == pre + "{" + mid + "}" + post && '}' !in pre && NoBrace(mid)
    decreases g
  {
    match g
    case Chr(c, r) => PartsPrint(r, inside);
    case Group(a, r) =>
      if AnyHasGroup(a) {
        PartsPrintAlts(a);
        var (pre, mid, post) := PartsAlts(a);
        assert "{" + (pre + "{" + mid + "}" + post) + "}" + Print(r) == ("{" + pre) + "{" + mid + "}" + (post + "}" + Print(r));
      } else {
        FlatPrintAlts(a);
        assert "{" + PrintAlts(a) + "}" + Print(r) == "" + "{" + PrintAlts(a) + "}" + Print(r);
      }
  }

  lemma {:induction false} PartsPrintAlts(a: Alts)
    requires WellFormedAlts(a) && AnyHasGroup(a)
    ensures var (pre, mid, post) := PartsAlts(a);
      PrintAlts(a) == pre + "{" + mid + "}" + post && '}' !in pre && NoBrace(mid)
    decreases a
  {
    match a
    case One(g) => PartsPrint(g, true);
    case More(g, o) =>
      if HasGroup(g) {
        PartsPrint(g, true);
        var (pre, mid, post) := Parts(g);
        assert (pre + "{" + mid + "}" + post) + "," + PrintAlts(o) == pre + "{" + mid + "}" + (post + "," + PrintAlts(o));
      } else {
        FlatPrint(g, true);
        PartsPrintAlts(o);
        var (pre, mid, post) := PartsAlts(o);
        assert Print(g) + "," + (pre + "{" + mid + "}" + post) == (Print(g) + "," + pre) + "{" + mid + "}" + post;
      }
  }

  lemma {:induction false} RunAtMost(s: string, k: nat)
    requires k < |s| && IsBrace(s[k])
    ensures Run(s) <= k
  {
    if k > 0 && !IsBrace(s[0]) { RunAtMost(s[1..], k - 1); }
  }

  lemma {:induction false} RunIs(s: string, k: nat)
    requires k < |s| && IsBrace(s[k]) && forall i :: 0 <= i < k ==> !IsBrace(s[i])
    ensures Run(s) == k
  {
    RunAtMost(s, k);
  }

  lemma FlatStart(mid: string, post: string)
    requires NoBrace(mid)
    ensures FlatHere("{" + mid + "}" + post)
  {
    assert ("{" + mid + "}" + post)[1..] == mid + "}" + post;
    RunIs(mid + "}" + post, |mid|);
  }

  /** Before the first closing brace, a group that another opens in is not flat. */
  lemma NotFlat(pre: string, rest: string)
    requires pre != "" && '}' !in pre && rest != "" && rest[0] == '{'
    ensures !FlatHere(pre + rest)
  {
    var s := pre + rest;
    assert forall k :: 0 <= k <= |pre| ==> s[k] != '}';
    RunAtMost(s[1..], |pre| - 1);
  }

  lemma {:induction false} FirstFlatAfter(pre: string, rest: string)
    requires '}' !in pre && FlatHere(rest)
    ensures FirstFlat(pre + rest) == |pre|
    decreases |pre|
  {
    if pre == "" {
      assert pre + rest == rest;
    } else {
      assert (pre + rest)[1..] == pre[1..] + rest;
      FirstFlatAfter(pre[1..], rest);
      NotFlat(pre, rest);
    }
  }

  /** A group with no brace inside, after a text with no closing brace, is the first. */
  lemma FirstFlatIs(pre: string, mid: string, post: string)
    requires '}' !in pre && NoBrace(mid)
    ensures FirstFlat(pre + "{" + mid + "}" + post) == |pre|
  {
    FlatStart(mid, post);
    FirstFlatAfter(pre, "{" + mid + "}" + post);
    hide FirstFlat, FlatHere, NoBrace;
    Regroup(pre, "{", mid, "}", post);
  }

  lemma Regroup(a: string, b: string, c: string, d: string, e: string)
    ensures a + (b + c + d + e) == a + b + c + d + e
  {
  }

  lemma PartsOfText(pre: string, mid: string, post: string, alt: string)
    requires '}' !in pre && NoBrace(mid)
    ensures var s := pre + "{" + mid + "}" + post;
      FirstFlat(s) == |pre| && |pre| < |s| && Inside(s) == mid && With(s, alt) == pre + alt + post
  {
    FirstFlatIs(pre, mid, post);
    hide FirstFlat, FlatHere, Run, NoBrace;
    GroupSlices(pre, mid, post);
  }

  lemma GroupSlices(pre: string, mid: string, post: string)
    requires NoBrace(mid)
    ensures var s, i := pre + "{" + mid + "}" + post, |pre|;
      && Run(s[i + 1..]) == |mid| && s[..i] == pre
      && s[i + 1..i + 1 + |mid|] == mid && s[i + |mid| + 2..] == post
  {
    var s := pre + "{" + mid + "}" + post;
    assert s[|pre| + 1..] == mid + "}" + post;
    RunIs(mid + "}" + post, |mid|);
  }

  lemma {:induction false} SplitFirst(x: string, y: string)
    requires ',' !in x
    ensures SplitCommas(x + "," + y) == [x] + SplitCommas(y)
  {
    if x == "" {
      assert ("" + "," + y)[1..] == y;
    } else {
      assert (x + "," + y)[1..] == x[1..] + "," + y;
      SplitFirst(x[1..], y);
      assert [x[0]] + x[1..] == x;
    }
  }

  lemma {:induction false} SplitOne(x: string)
    requires ',' !in x
    ensures SplitCommas(x) == [x]
  {
    if x != "" {
      SplitOne(x[1..]);
      assert [x[0]] + x[1..] == x;
    }
  }

  lemma {:induction false} JoinPrints(g: Glob, r: Glob, inside: bool)
    requires WellFormed(g, true) && !HasGroup(g) && WellFormed(r, inside)
    ensures Print(Join(g, r)) == Print(g) + Print(r) && WellFormed(Join(g, r), inside)
    ensures Lang(Join(g, r)) == set t | t in Lang(r) :: Print(g) + t
    decreases g
  {
    match g
    case End =>
      assert forall t: string :: "" + t == t;
    case Chr(c, u) =>
      JoinPrints(u, r, inside);
      assert forall t: string :: [c] + (Print(u) + t) == ([c] + Print(u)) + t;
      assert [c] + Print(u) == Print(g);
  }

  /** The texts a step leaves are the alternatives in place. */
  predicate StepsMatch(gs: seq<Glob>, pre: string, alts: seq<string>, post: string, inside: bool) {
    |gs| == |alts| && forall i :: 0 <= i < |gs| ==> Print(gs[i]) == pre + alts[i] + post && WellFormed(gs[i], inside)
  }

  lemma {:induction false} ChoicesMatch(a: Alts, r: Glob, inside: bool)
    requires WellFormedAlts(a) && !AnyHasGroup(a) && WellFormed(r, inside)
    ensures StepsMatch(Choices(a, r), "", SplitCommas(PrintAlts(a)), Print(r), inside)
    decreases a
  {
    hide SplitCommas, Print, Join;
    match a
    case One(g) =>
      FlatPrint(g, true);
      SplitOne(Print(g));
      JoinPrints(g, r, inside);
      assert "" + Print(g) + Print(r) == Print(g) + Print(r);
    case More(g, o) =>
      FlatPrint(g, true);
      SplitFirst(Print(g), PrintAlts(o));
      JoinPrints(g, r, inside);
      assert "" + Print(g) + Print(r) == Print(g) + Print(r);
      ChoicesMatch(o, r, inside);
  }

  predicate StepsMatchAlts(as_: seq<Alts>, pre: string, alts: seq<string>, post: string) {
    |as_| == |alts| && forall i :: 0 <= i < |as_| ==> PrintAlts(as_[i]) == pre + alts[i] + post && WellFormedAlts(as_[i])
  }

  lemma {:induction false} StepsPrint(g: Glob, inside: bool)
    requires WellFormed(g, inside) && HasGroup(g)
    ensures var (pre, mid, post) := Parts(g); StepsMatch(Steps(g), pre, SplitCommas(mid), post, inside)
    decreases g
  {
    hide SplitCommas;
    match g
    case Chr(c, r) =>
      StepsPrint(r, inside);
    case Group(a, r) =>
      if AnyHasGroup(a) {
        StepsPrintAlts(a);
        var (pre, mid, post) := PartsAlts(a);
        forall x: string ensures "{" + (pre + x + post) + "}" + Print(r) == ("{" + pre) + x + (post + "}" + Print(r)) { }
      } else {
        ChoicesMatch(a, r, inside);
      }
  }

  lemma {:induction false} StepsPrintAlts(a: Alts)
    requires WellFormedAlts(a) && AnyHasGroup(a)
    ensures var (pre, mid, post) := PartsAlts(a); StepsMatchAlts(StepsAlts(a), pre, SplitCommas(mid), post)
    decreases a
  {
    hide SplitCommas;
    match a
    case One(g) => StepsPrint(g, true);
    case More(g, o) =>
      if HasGroup(g) {
        StepsPrint(g, true);
        var (pre, mid, post) := Parts(g);
        forall x: string ensures (pre + x + post) + "," + PrintAlts(o) == pre + x + (post + "," + PrintAlts(o)) { }
      } else {
        StepsPrintAlts(o);
        var (pre, mid, post) := PartsAlts(o);
        forall x: string ensures Print(g) + "," + (pre + x + post) == (Print(g) + "," + pre) + x + post { }
      }
  }

  // ---------- the step keeps the meaning ----------

  /** What any of these globs stands for. */
  function Union(gs: seq<Glob>): set<string> {
    set i, s | 0 <= i < |gs| && s in Lang(gs[i]) :: s
  }

  function UnionAlts(as_: seq<Alts>): set<string> {
    set i, s | 0 <= i < |as_| && s in LangAlts(as_[i]) :: s
  }

  lemma {:induction false} ChoicesLang(a: Alts, r: Glob, inside: bool)
    requires WellFormedAlts(a) && !AnyHasGroup(a) && WellFormed(r, inside)
    ensures forall s :: s in Union(Choices(a, r)) <==> exists x, t :: x in LangAlts(a) && t in Lang(r) && s == x + t
    decreases a
  {
    var g := if a.One? then a.only else a.first;
    FlatPrint(g, true);
    JoinPrints(g, r, inside);
    var cs := Choices(a, r);
    hide Join, Print;
    assert cs[0] == Join(g, r);
    if a.More? {
      ChoicesLang(a.others, r, inside);
      forall s ensures s in Union(cs) <==> s in Lang(Join(g, r)) || s in Union(Choices(a.others, r)) {
        ConsUnion(Join(g, r), Choices(a.others, r), s);
      }
    } else {
      forall s ensures s in Union(cs) <==> s in Lang(Join(g, r)) { }
    }
  }

  lemma ConsUnion(g: Glob, gs: seq<Glob>, s: string)
    ensures s in Union([g] + gs) <==> s in Lang(g) || s in Union(gs)
  {
    hide Lang;
    var all := [g] + gs;
    assert all[0] == g;
    if s in Union(gs) {
      var i :| 0 <= i < |gs| && s in Lang(gs[i]);
      assert all[i + 1] == gs[i];
    }
    if s in Union(all) {
      var i :| 0 <= i < |all| && s in Lang(all[i]);
      if i > 0 { assert all[i] == gs[i - 1]; }
    }
  }

  lemma {:induction false} StepsLang(g: Glob, inside: bool)
    requires WellFormed(g, inside) && HasGroup(g)
    ensures forall s :: s in Lang(g) <==> s in Union(Steps(g))
    decreases g
  {
    match g
    case Chr(c, r) =>
      StepsLang(r, inside);
      ChrUnion(c, r);
    case Group(a, r) =>
      if AnyHasGroup(a) {
        StepsLangAlts(a);
        GroupUnion(a, r);
      } else {
        ChoicesLang(a, r, inside);
      }
  }

  lemma ChrUnion(c: char, r: Glob)
    requires HasGroup(r) && forall s :: s in Lang(r) <==> s in Union(Steps(r))
    ensures forall s :: s in Lang(Chr(c, r)) <==> s in Union(Steps(Chr(c, r)))
  {
    var rs, gs := Steps(r), Steps(Chr(c, r));
    forall s ensures s in Lang(Chr(c, r)) <==> s in Union(gs) {
      if s in Lang(Chr(c, r)) {
        var t :| t in Lang(r) && s == [c] + t;
        var i :| 0 <= i < |rs| && t in Lang(rs[i]);
        assert gs[i] == Chr(c, rs[i]) && s in Lang(gs[i]);
      }
      if s in Union(gs) {
        var i :| 0 <= i < |gs| && s in Lang(gs[i]);
        assert gs[i] == Chr(c, rs[i]);
        var t :| t in Lang(rs[i]) && s == [c] + t;
        assert t in Union(rs);
      }
    }
  }

  lemma GroupUnion(a: Alts, r: Glob)
    requires AnyHasGroup(a) && forall s :: s in LangAlts(a) <==> s in UnionAlts(StepsAlts(a))
    ensures forall s :: s in Lang(Group(a, r)) <==> s in Union(Steps(Group(a, r)))
  {
    var rs, gs := StepsAlts(a), Steps(Group(a, r));
    forall s ensures s in Lang(Group(a, r)) <==> s in Union(gs) {
      if s in Lang(Group(a, r)) {
        var x, t :| x in LangAlts(a) && t in Lang(r) && s == x + t;
        var i :| 0 <= i < |rs| && x in LangAlts(rs[i]);
        assert gs[i] == Group(rs[i], r) && s in Lang(gs[i]);
      }
      if s in Union(gs) {
        var i :| 0 <= i < |gs| && s in Lang(gs[i]);
        assert gs[i] == Group(rs[i], r);
        var x, t :| x in LangAlts(rs[i]) && t in Lang(r) && s == x + t;
        assert x in UnionAlts(rs);
      }
    }
  }

  lemma {:induction false} StepsLangAlts(a: Alts)
    requires WellFormedAlts(a) && AnyHasGroup(a)
    ensures forall s :: s in LangAlts(a) <==> s in UnionAlts(StepsAlts(a))
    decreases a
  {
    var as_ := StepsAlts(a);
    match a
    case One(g) =>
      StepsLang(g, true);
      var rs := Steps(g);
      forall s ensures s in Union(rs) <==> s in UnionAlts(as_) {
        if s in Union(rs) { var i :| 0 <= i < |rs| && s in Lang(rs[i]); assert as_[i] == One(rs[i]) && s in LangAlts(as_[i]); }
        if s in UnionAlts(as_) { var i :| 0 <= i < |as_| && s in LangAlts(as_[i]); assert as_[i] == One(rs[i]) && s in Lang(rs[i]); }
      }
    case More(g, o) =>
      if HasGroup(g) {
        StepsLang(g, true);
        StepsSome(g);
        FirstUnion(Steps(g), o, as_);
      } else {
        StepsLangAlts(o);
        StepsSomeAlts(o);
        OthersUnion(g, StepsAlts(o), as_);
      }
  }

  lemma FirstUnion(rs: seq<Glob>, o: Alts, as_: seq<Alts>)
    requires |rs| > 0 && |as_| == |rs| && forall i :: 0 <= i < |rs| ==> as_[i] == More(rs[i], o)
    ensures forall s :: s in UnionAlts(as_) <==> s in Union(rs) || s in LangAlts(o)
  {
    forall s ensures s in UnionAlts(as_) <==> s in Union(rs) || s in LangAlts(o) {
      if s in Union(rs) { var i :| 0 <= i < |rs| && s in Lang(rs[i]); assert s in LangAlts(as_[i]); }
      if s in LangAlts(o) { assert s in LangAlts(as_[0]); }
      if s in UnionAlts(as_) { var i :| 0 <= i < |as_| && s in LangAlts(as_[i]); assert s in Lang(rs[i]) || s in LangAlts(o); }
    }
  }

  lemma OthersUnion(g: Glob, rs: seq<Alts>, as_: seq<Alts>)
    requires |rs| > 0 && |as_| == |rs| && forall i :: 0 <= i < |rs| ==> as_[i] == More(g, rs[i])
    ensures forall s :: s in UnionAlts(as_) <==> s in Lang(g) || s in UnionAlts(rs)
  {
    forall s ensures s in UnionAlts(as_) <==> s in Lang(g) || s in UnionAlts(rs) {
      if s in UnionAlts(rs) { var i :| 0 <= i < |rs| && s in LangAlts(rs[i]); assert s in LangAlts(as_[i]); }
      if s in Lang(g) { assert s in LangAlts(as_[0]); }
      if s in UnionAlts(as_) { var i :| 0 <= i < |as_| && s in LangAlts(as_[i]); assert s in Lang(g) || s in LangAlts(rs[i]); }
    }
  }

  /** A step always leaves something. */
  lemma {:induction false} StepsSome(g: Glob)
    requires HasGroup(g)
    ensures |Steps(g)| > 0
    decreases g
  {
    match g
    case Chr(_, r) => StepsSome(r);
    case Group(a, r) => if AnyHasGroup(a) { StepsSomeAlts(a); }
  }

  lemma {:induction false} StepsSomeAlts(a: Alts)
    requires AnyHasGroup(a)
    ensures |StepsAlts(a)| > 0
    decreases a
  {
    match a
    case One(g) => StepsSome(g);
    case More(g, o) => if HasGroup(g) { StepsSome(g); } else { StepsSomeAlts(o); }
  }

  // ---------- in which order, and how often ----------

  function Prefixed(p: string, ts: seq<string>): (r: seq<string>)
    ensures |r| == |ts| && forall i :: 0 <= i < |ts| ==> r[i] == p + ts[i]
  {
    seq(|ts|, i requires 0 <= i < |ts| => p + ts[i])
  }

  /** Each alternative before each of the texts. */
  function Each(alts: seq<string>, ts: seq<string>): seq<string> {
    if alts == [] then [] else Prefixed(alts[0], ts) + Each(alts[1..], ts)
  }

  function EachOf(cs: seq<seq<string>>, ts: seq<string>): seq<string> {
    if cs == [] then [] else Each(cs[0], ts) + EachOf(cs[1..], ts)
  }

  function Heads(x: string, ys: seq<seq<string>>): (r: seq<seq<string>>)
    ensures |r| == |ys| && forall i :: 0 <= i < |ys| ==> r[i] == [x] + ys[i]
  {
    seq(|ys|, i requires 0 <= i < |ys| => [x] + ys[i])
  }

  function Product(xs: seq<string>, ys: seq<seq<string>>): seq<seq<string>> {
    if xs == [] then [] else Heads(xs[0], ys) + Product(xs[1..], ys)
  }

  function Singles(xs: seq<string>): (r: seq<seq<string>>)
    ensures |r| == |xs| && forall i :: 0 <= i < |xs| ==> r[i] == [xs[i]]
  {
    seq(|xs|, i requires 0 <= i < |xs| => [xs[i]])
  }

  /** What a glob is expanded to, in order. A group with groups inside stands for its
      alternatives once for every way to choose in these, so an alternative without a group is
      repeated as often as its neighbours have choices. */
  function ListOf(g: Glob): seq<string>
    decreases g
  {
    match g
    case End => [""]
    case Chr(c, r) => Prefixed([c], ListOf(r))
    case Group(a, r) => EachOf(ChoicesIn(a), ListOf(r))
  }

  /** The lists of alternatives a group is left with once the groups in it are chosen. */
  function ChoicesIn(a: Alts): seq<seq<string>>
    decreases a
  {
    match a
    case One(g) => Singles(ListOf(g))
    case More(g, o) => Product(ListOf(g), ChoicesIn(o))
  }

  function Lists(gs: seq<Glob>): seq<string> {
    if gs == [] then [] else ListOf(gs[0]) + Lists(gs[1..])
  }

  function ListsIn(as_: seq<Alts>): seq<seq<string>> {
    if as_ == [] then [] else ChoicesIn(as_[0]) + ListsIn(as_[1..])
  }

  lemma {:induction false} EachOfAppend(a: seq<seq<string>>, b: seq<seq<string>>, ts: seq<string>)
    ensures EachOf(a + b, ts) == EachOf(a, ts) + EachOf(b, ts)
  {
    if a == [] { assert a + b == b; } else {
      assert (a + b)[1..] == a[1..] + b;
      EachOfAppend(a[1..], b, ts);
    }
  }

  lemma {:induction false} ProductAppend(a: seq<string>, b: seq<string>, ys: seq<seq<string>>)
    ensures Product(a + b, ys) == Product(a, ys) + Product(b, ys)
  {
    if a == [] { assert a + b == b; } else {
      assert (a + b)[1..] == a[1..] + b;
      ProductAppend(a[1..], b, ys);
    }
  }

  lemma {:induction false} ListsChr(c: char, gs: seq<Glob>, cs: seq<Glob>)
    requires |cs| == |gs| && forall i :: 0 <= i < |gs| ==> cs[i] == Chr(c, gs[i])
    ensures Lists(cs) == Prefixed([c], Lists(gs))
    decreases |gs|
  {
    if gs != [] { ListsChr(c, gs[1..], cs[1..]); }
  }

  lemma {:induction false} ListsGroup(as_: seq<Alts>, r: Glob, gs: seq<Glob>)
    requires |gs| == |as_| && forall i :: 0 <= i < |as_| ==> gs[i] == Group(as_[i], r)
    ensures Lists(gs) == EachOf(ListsIn(as_), ListOf(r))
    decreases |as_|
  {
    if as_ != [] {
      ListsGroup(as_[1..], r, gs[1..]);
      EachOfAppend(ChoicesIn(as_[0]), ListsIn(as_[1..]), ListOf(r));
    }
  }

  lemma {:induction false} ListsOne(gs: seq<Glob>, as_: seq<Alts>)
    requires |as_| == |gs| && forall i :: 0 <= i < |gs| ==> as_[i] == One(gs[i])
    ensures ListsIn(as_) == Singles(Lists(gs))
    decreases |gs|
  {
    if gs != [] { ListsOne(gs[1..], as_[1..]); }
  }

  lemma {:induction false} ListsMore(gs: seq<Glob>, o: Alts, as_: seq<Alts>)
    requires |as_| == |gs| && forall i :: 0 <= i < |gs| ==> as_[i] == More(gs[i], o)
    ensures ListsIn(as_) == Product(Lists(gs), ChoicesIn(o))
    decreases |gs|
  {
    if gs != [] {
      ListsMore(gs[1..], o, as_[1..]);
      ProductAppend(ListOf(gs[0]), Lists(gs[1..]), ChoicesIn(o));
    }
  }

  lemma OneProduct(x: string, ys: seq<seq<string>>)
    ensures Product([x], ys) == Heads(x, ys)
  {
    assert [x][1..] == [];
    assert Product([], ys) == [];
    assert Heads(x, ys) + [] == Heads(x, ys);
  }

  lemma OneEachOf(alts: seq<string>, ts: seq<string>)
    ensures EachOf([alts], ts) == Each(alts, ts)
  {
    assert [alts][1..] == [];
    assert EachOf([], ts) == [];
    assert Each(alts, ts) + [] == Each(alts, ts);
  }

  lemma {:induction false} ListsOthers(x: string, g: Glob, rs: seq<Alts>, as_: seq<Alts>)
    requires |as_| == |rs| && (forall i :: 0 <= i < |rs| ==> as_[i] == More(g, rs[i])) && ListOf(g) == [x]
    ensures ListsIn(as_) == Product([x], ListsIn(rs))
    decreases |rs|
  {
    OneProduct(x, ListsIn(rs));
    if rs != [] {
      ListsOthers(x, g, rs[1..], as_[1..]);
      OneProduct(x, ListsIn(rs[1..]));
      OneProduct(x, ChoicesIn(rs[0]));
      assert Heads(x, ChoicesIn(rs[0]) + ListsIn(rs[1..])) == Heads(x, ChoicesIn(rs[0])) + Heads(x, ListsIn(rs[1..]));
    }
  }

  lemma {:induction false} FlatList(g: Glob, inside: bool)
    requires WellFormed(g, inside) && !HasGroup(g)
    ensures ListOf(g) == [Print(g)]
    decreases g
  {
    if g.Chr? { FlatList(g.rest, inside); }
  }

  lemma {:induction false} JoinList(g: Glob, r: Glob)
    requires !HasGroup(g)
    ensures ListOf(Join(g, r)) == Prefixed(Print(g), ListOf(r))
    decreases g
  {
    if g.Chr? {
      JoinList(g.rest, r);
      forall t: string ensures [g.c] + (Print(g.rest) + t) == Print(g) + t {
        assert [g.c] + (Print(g.rest) + t) == ([g.c] + Print(g.rest)) + t;
      }
      assert Prefixed([g.c], Prefixed(Print(g.rest), ListOf(r))) == Prefixed(Print(g), ListOf(r));
    } else {
      forall t: string ensures "" + t == t { }
      assert Prefixed("", ListOf(r)) == ListOf(r);
    }
  }

  /** The alternatives of a group with no group inside. */
  function FlatAlts(a: Alts): seq<string> {
    match a
    case One(g) => [Print(g)]
    case More(g, o) => [Print(g)] + FlatAlts(o)
  }

  lemma {:induction false} FlatChoices(a: Alts)
    requires WellFormedAlts(a) && !AnyHasGroup(a)
    ensures ChoicesIn(a) == [FlatAlts(a)]
    decreases a
  {
    match a
    case One(g) => FlatList(g, true);
    case More(g, o) =>
      FlatList(g, true);
      FlatChoices(o);
      OneProduct(Print(g), [FlatAlts(o)]);
      assert Heads(Print(g), [FlatAlts(o)]) == [[Print(g)] + FlatAlts(o)];
  }

  lemma {:induction false} ChoicesList(a: Alts, r: Glob)
    requires !AnyHasGroup(a)
    ensures Lists(Choices(a, r)) == Each(FlatAlts(a), ListOf(r))
    decreases a
  {
    match a
    case One(g) =>
      JoinList(g, r);
      assert [Print(g)][1..] == [] && [Join(g, r)][1..] == [];
    case More(g, o) =>
      JoinList(g, r);
      ChoicesList(o, r);
      assert ([Print(g)] + FlatAlts(o))[1..] == FlatAlts(o) && ([Join(g, r)] + Choices(o, r))[1..] == Choices(o, r);
  }

  /** One rewriting keeps the list: the lists of what it leaves, one after the other. */
  lemma {:induction false} StepsList(g: Glob, inside: bool)
    requires WellFormed(g, inside) && HasGroup(g)
    ensures ListOf(g) == Lists(Steps(g))
    decreases g
  {
    match g
    case Chr(c, r) =>
      StepsList(r, inside);
      ListsChr(c, Steps(r), Steps(g));
    case Group(a, r) =>
      if AnyHasGroup(a) {
        StepsListAlts(a);
        ListsGroup(StepsAlts(a), r, Steps(g));
      } else {
        FlatChoices(a);
        ChoicesList(a, r);
        OneEachOf(FlatAlts(a), ListOf(r));
      }
  }

  lemma {:induction false} StepsListAlts(a: Alts)
    requires WellFormedAlts(a) && AnyHasGroup(a)
    ensures ChoicesIn(a) == ListsIn(StepsAlts(a))
    decreases a
  {
    match a
    case One(g) =>
      StepsList(g, true);
      ListsOne(Steps(g), StepsAlts(a));
    case More(g, o) =>
      if HasGroup(g) {
        StepsList(g, true);
        ListsMore(Steps(g), o, StepsAlts(a));
      } else {
        FlatList(g, true);
        StepsListAlts(o);
        ListsOthers(Print(g), g, StepsAlts(o), StepsAlts(a));
      }
  }

  // ---------- every balanced text is a glob ----------

  /** Every brace that closes closes one, and none is left open. */
  predicate Balanced(s: string, depth: nat) {
    if s == "" then depth == 0
    else if s[0] == '{' then Balanced(s[1..], depth + 1)
    else if s[0] == '}' then depth > 0 && Balanced(s[1..], depth - 1)
    else Balanced(s[1..], depth)
  }

  /** One alternative, up to the comma or the brace that ends it. */
  lemma {:induction false} ParseAlternative(s: string, depth: nat) returns (g: Glob, rest: string)
    requires depth > 0 && Balanced(s, depth)
    ensures s == Print(g) + rest && WellFormed(g, true) && Balanced(rest, depth)
    ensures rest != "" && rest[0] in {',', '}'}
    decreases |s|, 0
  {
    if s[0] == ',' || s[0] == '}' {
      g, rest := End, s;
    } else if s[0] == '{' {
      var alts, after := ParseGroup(s[1..], depth + 1);
      var tail;
      tail, rest := ParseAlternative(after, depth);
      g := Group(alts, tail);
      GroupPrint(s, alts, tail, rest);
    } else {
      var tail;
      tail, rest := ParseAlternative(s[1..], depth);
      g := Chr(s[0], tail);
      assert [s[0]] + (Print(tail) + rest) == ([s[0]] + Print(tail)) + rest;
    }
  }

  /** The alternatives of a group, and what follows its closing brace. */
  lemma {:induction false} ParseGroup(s: string, depth: nat) returns (a: Alts, rest: string)
    requires depth > 0 && Balanced(s, depth)
    ensures s == PrintAlts(a) + "}" + rest && WellFormedAlts(a) && Balanced(rest, depth - 1)
    ensures |rest| < |s|
    decreases |s|, 1
  {
    var g, after := ParseAlternative(s, depth);
    if after[0] == '}' {
      a, rest := One(g), after[1..];
      assert after == "}" + rest;
    } else {
      var others;
      others, rest := ParseGroup(after[1..], depth);
      a := More(g, others);
      assert after == "," + (PrintAlts(others) + "}" + rest);
      assert Print(g) + ("," + (PrintAlts(others) + "}" + rest)) == (Print(g) + "," + PrintAlts(others)) + "}" + rest;
    }
  }

  lemma {:induction false} GroupPrint(s: string, a: Alts, tail: Glob, rest: string)
    requires s != "" && s[0] == '{' && s[1..] == PrintAlts(a) + "}" + (Print(tail) + rest)
    ensures s == Print(Group(a, tail)) + rest
  {
    assert s == "{" + s[1..];
    assert "{" + (PrintAlts(a) + "}" + (Print(tail) + rest)) == ("{" + PrintAlts(a) + "}" + Print(tail)) + rest;
  }

  /** The glob a balanced text is. */
  lemma {:induction false} Parse(s: string) returns (g: Glob)
    requires Balanced(s, 0)
    ensures s == Print(g) && WellFormed(g, false)
    decreases |s|
  {
    if s == "" {
      g := End;
    } else if s[0] == '{' {
      var alts, after := ParseGroup(s[1..], 1);
      var tail := Parse(after);
      g := Group(alts, tail);
      assert Print(tail) + "" == Print(tail) && Print(g) + "" == Print(g);
      GroupPrint(s, alts, tail, "");
    } else {
      var tail := Parse(s[1..]);
      g := Chr(s[0], tail);
    }
  }

  // ---------- the main result ----------

  lemma {:induction false} NoFlat(s: string)
    requires '{' !in s
    ensures FirstFlat(s) == |s|
  {
    if s != "" { NoFlat(s[1..]); }
  }

  lemma {:induction false} ExpandEachMembers(glob: string, alts: seq<string>, n: nat)
    requires FirstFlat(glob) < |glob| && alts == SplitCommas(Inside(glob)) && n <= |alts|
    ensures forall s :: s in ExpandEach(glob, alts, n) <==> exists i :: n <= i < |alts| && s in Expand(With(glob, alts[i]))
    decreases |alts| - n
  {
    hide Expand, With, Inside, SplitCommas, FirstFlat;
    if n < |alts| { ExpandEachMembers(glob, alts, n + 1); }
  }

  /** EXPANSION IS THE LANGUAGE. For every balanced glob with groups nested to any depth, the
      inner-first rewriting comes to an end and yields exactly the strings the glob stands
      for. */
  lemma {:induction false} ExpandIsLang(g: Glob)
    requires WellFormed(g, false)
    ensures forall s :: s in Expand(Print(g)) <==> s in Lang(g)
    decreases Opens(Print(g))
  {
    hide With, Inside, SplitCommas, FirstFlat, Lang, Opens, Steps, Parts;
    var glob := Print(g);
    if !HasGroup(g) {
      FlatPrint(g, false);
      NoFlat(glob);
    } else {
      PartsPrint(g, false);
      StepsPrint(g, false);
      StepsLang(g, false);
      var (pre, mid, post) := Parts(g);
      var alts, gs := SplitCommas(mid), Steps(g);
      PartsOfText(pre, mid, post, "");
      forall i | 0 <= i < |alts|
        ensures forall s :: s in Expand(With(glob, alts[i])) <==> s in Lang(gs[i])
      {
        PartsOfText(pre, mid, post, alts[i]);
        assert With(glob, alts[i]) == Print(gs[i]);
        WithHasFewer(glob, alts[i]);
        ExpandIsLang(gs[i]);
      }
      ExpandEachMembers(glob, alts, 0);
    }
  }

  lemma {:induction false} ExpandEachList(glob: string, alts: seq<string>, gs: seq<Glob>, n: nat)
    requires FirstFlat(glob) < |glob| && alts == SplitCommas(Inside(glob)) && n <= |alts| == |gs|
    requires forall i :: n <= i < |alts| ==> Expand(With(glob, alts[i])) == ListOf(gs[i])
    ensures ExpandEach(glob, alts, n) == Lists(gs[n..])
    decreases |alts| - n
  {
    hide Expand, With, Inside, SplitCommas, FirstFlat, ListOf;
    if n < |alts| {
      ExpandEachList(glob, alts, gs, n + 1);
      assert gs[n..][0] == gs[n] && gs[n..][1..] == gs[n + 1..];
    }
  }

  /** THE EXPANSION TO THE LETTER: the list itself, with its order and its repeats. */
  lemma {:induction false} ExpandIsList(g: Glob)
    requires WellFormed(g, false)
    ensures Expand(Print(g)) == ListOf(g)
    decreases Opens(Print(g))
  {
    hide With, Inside, SplitCommas, FirstFlat, ListOf, Opens, Steps, Parts;
    var glob := Print(g);
    if !HasGroup(g) {
      FlatPrint(g, false);
      NoFlat(glob);
      FlatList(g, false);
    } else {
      PartsPrint(g, false);
      StepsPrint(g, false);
      StepsList(g, false);
      var (pre, mid, post) := Parts(g);
      var alts, gs := SplitCommas(mid), Steps(g);
      PartsOfText(pre, mid, post, "");
      forall i | 0 <= i < |alts| ensures Expand(With(glob, alts[i])) == ListOf(gs[i]) {
        PartsOfText(pre, mid, post, alts[i]);
        assert With(glob, alts[i]) == Print(gs[i]);
        WithHasFewer(glob, alts[i]);
        ExpandIsList(gs[i]);
      }
      ExpandEachList(glob, alts, gs, 0);
      assert gs[0..] == gs;
    }
  }

  /** So of every balanced text. */
  lemma ExpandBalanced(s: string) returns (g: Glob)
    requires Balanced(s, 0)
    ensures s == Print(g) && WellFormed(g, false)
    ensures Expand(s) == ListOf(g) && forall t :: t in Expand(s) <==> t in Lang(g)
  {
    g := Parse(s);
    ExpandIsLang(g);
    ExpandIsList(g);
  }
}
