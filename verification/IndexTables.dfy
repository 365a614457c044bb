/** The three index tables of one brain and the statements that change them (src/lib/brain-index.ts). */
module IndexTables {
  // The link and field tables are grouped by their page column, which every statement that
  // clears them filters on.

  import opened Options
  import opened Paths

  /** A blob in the branch. Its git object id is a function of the bytes and is
      taken as injective, so a blob stands for its own id. A blob GraphQL returns no
      text for is Binary. */
  datatype Blob = Text(content: string) | Binary(bytes: seq<nat>)

  datatype Kind = Md | Wiki
  datatype LinkKey = LinkKey(target: string, kind: Kind)
  datatype Field = Field(key: string, value: string)

  /** What the code computes from one page's text. */
  datatype Derived = Derived(title: string, links: seq<(LinkKey, nat)>, fields: seq<Field>)
  type Derive = (Path, string) -> Derived

  datatype PageRow = PageRow(title: string, blob: Blob, content: string)
  datatype Tables = Tables(
    pages: map<Path, PageRow>,
    links: map<Path, map<LinkKey, nat>>,
    fields: map<Path, set<Field>>)

  const NoRows := Tables(map[], map[], map[])

  datatype Stmt =
    | WipePages
    | WipeLinks
    | WipeFields
    | PutPage(path: Path, row: PageRow)
    | SetTitle(path: Path, title: string)
    | DropPage(path: Path)
    | DropLinks(path: Path)
    | DropFields(path: Path)
    | PutLink(path: Path, link: LinkKey, cnt: nat)
    | PutField(path: Path, field: Field)

  /** All the rows the tables hold for one path. */
  datatype Slice = Slice(page: Option<PageRow>, links: map<LinkKey, nat>, fields: set<Field>)

  const EmptySlice := Slice(None, map[], {})

  function PageAt(t: Tables, p: Path): Option<PageRow> {
    if p in t.pages then Some(t.pages[p]) else None
  }

  function LinksAt(t: Tables, p: Path): map<LinkKey, nat> {
    if p in t.links then t.links[p] else map[]
  }

  function FieldsAt(t: Tables, p: Path): set<Field> {
    if p in t.fields then t.fields[p] else {}
  }

  function At(t: Tables, p: Path): Slice {
    Slice(PageAt(t, p), LinksAt(t, p), FieldsAt(t, p))
  }

  /** One statement. */
  function Exec(t: Tables, s: Stmt): Tables {
    match s
    case WipePages => t.(pages := map[])
    case WipeLinks => t.(links := map[])
    case WipeFields => t.(fields := map[])
    case PutPage(p, row) => t.(pages := t.pages[p := row])
    case SetTitle(p, title) =>
      if p in t.pages then t.(pages := t.pages[p := t.pages[p].(title := title)]) else t
    case DropPage(p) => t.(pages := t.pages - {p})
    case DropLinks(p) => t.(links := t.links - {p})
    case DropFields(p) => t.(fields := t.fields - {p})
    case PutLink(p, k, n) => t.(links := t.links[p := LinksAt(t, p)[k := n]])
    case PutField(p, f) => t.(fields := t.fields[p := FieldsAt(t, p) + {f}])
  }

  function ExecAll(t: Tables, ss: seq<Stmt>): Tables
    decreases |ss|
  {
    if ss == [] then t else ExecAll(Exec(t, ss[0]), ss[1..])
  }

  predicate Wipes(s: Stmt) {
    s.WipePages? || s.WipeLinks? || s.WipeFields?
  }

  /** What the statements of one path do to that path's rows. */
  function ExecSlice(x: Slice, s: Stmt): Slice {
    match s
    case WipePages => x.(page := None)
    case WipeLinks => x.(links := map[])
    case WipeFields => x.(fields := {})
    case PutPage(_, row) => x.(page := Some(row))
    case SetTitle(_, title) => if x.page.Some? then x.(page := Some(x.page.value.(title := title))) else x
    case DropPage(_) => x.(page := None)
    case DropLinks(_) => x.(links := map[])
    case DropFields(_) => x.(fields := {})
    case PutLink(_, k, n) => x.(links := x.links[k := n])
    case PutField(_, f) => x.(fields := x.fields + {f})
  }

  function ExecSlices(x: Slice, ss: seq<Stmt>): Slice
    decreases |ss|
  {
    if ss == [] then x else ExecSlices(ExecSlice(x, ss[0]), ss[1..])
  }

  /** Every statement concerns the path p. */
  predicate Concerns(ss: seq<Stmt>, p: Path) {
    forall i :: 0 <= i < |ss| ==> !Wipes(ss[i]) && ss[i].path == p
  }

  lemma ExecAt(t: Tables, s: Stmt)
    requires !Wipes(s)
    ensures At(Exec(t, s), s.path) == ExecSlice(At(t, s.path), s)
    ensures forall q :: q != s.path ==> At(Exec(t, s), q) == At(t, q)
  {
    match s
    case PutPage(_, _) =>
    case SetTitle(_, _) =>
    case DropPage(_) =>
    case DropLinks(_) =>
    case DropFields(_) =>
    case PutLink(_, _, _) =>
    case PutField(_, _) =>
  }

  lemma {:induction false} ExecAllAt(t: Tables, ss: seq<Stmt>, p: Path)
    requires Concerns(ss, p)
    ensures At(ExecAll(t, ss), p) == ExecSlices(At(t, p), ss)
    ensures forall q :: q != p ==> At(ExecAll(t, ss), q) == At(t, q)
    decreases |ss|
  {
    if ss != [] {
      ExecAt(t, ss[0]);
      ExecAllAt(Exec(t, ss[0]), ss[1..], p);
    }
  }

  lemma {:induction false} ExecAllAppend(t: Tables, a: seq<Stmt>, b: seq<Stmt>)
    ensures ExecAll(t, a + b) == ExecAll(ExecAll(t, a), b)
    decreases |a|
  {
    if a == [] {
      assert a + b == b;
    } else {
      assert (a + b)[1..] == a[1..] + b;
      ExecAllAppend(Exec(t, a[0]), a[1..], b);
    }
  }

  lemma {:induction false} ExecSlicesAppend(x: Slice, a: seq<Stmt>, b: seq<Stmt>)
    ensures ExecSlices(x, a + b) == ExecSlices(ExecSlices(x, a), b)
    decreases |a|
  {
    if a == [] {
      assert a + b == b;
    } else {
      assert (a + b)[1..] == a[1..] + b;
      ExecSlicesAppend(ExecSlice(x, a[0]), a[1..], b);
    }
  }

  // ---------- the statements of one page ----------

  function LinkRows(ls: seq<(LinkKey, nat)>): map<LinkKey, nat> {
    if ls == [] then map[] else LinkRows(ls[..|ls| - 1])[ls[|ls| - 1].0 := ls[|ls| - 1].1]
  }

  function FieldRows(fs: seq<Field>): set<Field> {
    set f | f in fs
  }

  function PutLinks(p: Path, ls: seq<(LinkKey, nat)>): (ss: seq<Stmt>)
    ensures |ss| == |ls| && forall i :: 0 <= i < |ls| ==> ss[i] == PutLink(p, ls[i].0, ls[i].1)
  {
    seq(|ls|, i requires 0 <= i < |ls| => PutLink(p, ls[i].0, ls[i].1))
  }

  function PutFields(p: Path, fs: seq<Field>): (ss: seq<Stmt>)
    ensures |ss| == |fs| && forall i :: 0 <= i < |fs| ==> ss[i] == PutField(p, fs[i])
  {
    seq(|fs|, i requires 0 <= i < |fs| => PutField(p, fs[i]))
  }

  /** The statements that replace one page: its row, its links, its fields. */
  function PageGroup(p: Path, content: string, blob: Blob, d: Derived): seq<Stmt> {
    [PutPage(p, PageRow(d.title, blob, content)), DropLinks(p), DropFields(p)]
    + PutLinks(p, d.links) + PutFields(p, d.fields)
  }

  /** The statements that drop one page. */
  function DropGroup(p: Path): seq<Stmt> {
    [DropPage(p), DropLinks(p), DropFields(p)]
  }

  /** The statements that recompute what is derived from a stored page. */
  function RederiveGroup(p: Path, d: Derived): seq<Stmt> {
    [SetTitle(p, d.title), DropLinks(p), DropFields(p)] + PutLinks(p, d.links) + PutFields(p, d.fields)
  }

  function PageSlice(content: string, blob: Blob, d: Derived): Slice {
    Slice(Some(PageRow(d.title, blob, content)), LinkRows(d.links), FieldRows(d.fields))
  }

  lemma {:induction false} PutLinksSlice(x: Slice, p: Path, ls: seq<(LinkKey, nat)>)
    requires x.links == map[]
    ensures ExecSlices(x, PutLinks(p, ls)) == x.(links := LinkRows(ls))
    decreases |ls|
  {
    if ls == [] {
      assert PutLinks(p, ls) == [];
    } else {
      var init := ls[..|ls| - 1];
      var last := ls[|ls| - 1];
      assert PutLinks(p, ls) == PutLinks(p, init) + [PutLink(p, last.0, last.1)];
      ExecSlicesAppend(x, PutLinks(p, init), [PutLink(p, last.0, last.1)]);
      PutLinksSlice(x, p, init);
      var y := x.(links := LinkRows(init));
      assert ExecSlices(y, [PutLink(p, last.0, last.1)]) == ExecSlice(y, PutLink(p, last.0, last.1));
    }
  }

  lemma {:induction false} PutFieldsSlice(x: Slice, p: Path, fs: seq<Field>)
    requires x.fields == {}
    ensures ExecSlices(x, PutFields(p, fs)) == x.(fields := FieldRows(fs))
    decreases |fs|
  {
    if fs == [] {
      assert PutFields(p, fs) == [];
      assert FieldRows(fs) == {};
    } else {
      var init := fs[..|fs| - 1];
      var last := fs[|fs| - 1];
      assert PutFields(p, fs) == PutFields(p, init) + [PutField(p, last)];
      ExecSlicesAppend(x, PutFields(p, init), [PutField(p, last)]);
      PutFieldsSlice(x, p, init);
      var y := x.(fields := FieldRows(init));
      assert ExecSlices(y, [PutField(p, last)]) == ExecSlice(y, PutField(p, last));
      assert fs == init + [last];
      assert FieldRows(fs) == FieldRows(init) + {last};
    }
  }

  /** Whatever a path held, its page group leaves exactly the new page's rows. */
  lemma PageGroupSlices(x: Slice, p: Path, content: string, blob: Blob, d: Derived)
    ensures Concerns(PageGroup(p, content, blob, d), p)
    ensures ExecSlices(x, PageGroup(p, content, blob, d)) == PageSlice(content, blob, d)
  {
    var head := [PutPage(p, PageRow(d.title, blob, content)), DropLinks(p), DropFields(p)];
    TailEffect(x, p, head, d, Slice(Some(PageRow(d.title, blob, content)), map[], {}));
  }

  lemma PageGroupEffect(t: Tables, p: Path, content: string, blob: Blob, d: Derived)
    ensures Concerns(PageGroup(p, content, blob, d), p)
    ensures At(ExecAll(t, PageGroup(p, content, blob, d)), p) == PageSlice(content, blob, d)
    ensures forall q :: q != p ==> At(ExecAll(t, PageGroup(p, content, blob, d)), q) == At(t, q)
  {
    PageGroupSlices(At(t, p), p, content, blob, d);
    ExecAllAt(t, PageGroup(p, content, blob, d), p);
  }

  lemma RederiveGroupEffect(t: Tables, p: Path, d: Derived)
    requires p in t.pages
    ensures Concerns(RederiveGroup(p, d), p)
    ensures At(ExecAll(t, RederiveGroup(p, d)), p) == PageSlice(t.pages[p].content, t.pages[p].blob, d)
    ensures forall q :: q != p ==> At(ExecAll(t, RederiveGroup(p, d)), q) == At(t, q)
  {
    var head := [SetTitle(p, d.title), DropLinks(p), DropFields(p)];
    TailEffect(At(t, p), p, head, d, Slice(Some(t.pages[p].(title := d.title)), map[], {}));
    ExecAllAt(t, RederiveGroup(p, d), p);
  }

  lemma DropGroupEffect(t: Tables, p: Path)
    ensures Concerns(DropGroup(p), p)
    ensures At(ExecAll(t, DropGroup(p)), p) == EmptySlice
    ensures forall q :: q != p ==> At(ExecAll(t, DropGroup(p)), q) == At(t, q)
  {
    ExecAllAt(t, DropGroup(p), p);
    Three(At(t, p), DropPage(p), DropLinks(p), DropFields(p));
  }

  lemma Three(x: Slice, a: Stmt, b: Stmt, c: Stmt)
    ensures ExecSlices(x, [a, b, c]) == ExecSlice(ExecSlice(ExecSlice(x, a), b), c)
  {
    assert [a, b, c] == [a] + ([b] + [c]);
    ExecSlicesAppend(x, [a], [b] + [c]);
    ExecSlicesAppend(ExecSlice(x, a), [b], [c]);
  }

  lemma TailEffect(x: Slice, p: Path, head: seq<Stmt>, d: Derived, cleared: Slice)
    requires |head| == 3 && head[1] == DropLinks(p) && head[2] == DropFields(p)
    requires cleared == ExecSlice(ExecSlice(ExecSlice(x, head[0]), head[1]), head[2])
    requires cleared.links == map[] && cleared.fields == {}
    ensures ExecSlices(x, head + PutLinks(p, d.links) + PutFields(p, d.fields))
         == cleared.(links := LinkRows(d.links), fields := FieldRows(d.fields))
  {
    assert head == [head[0], head[1], head[2]];
    Three(x, head[0], head[1], head[2]);
    ExecSlicesAppend(x, head + PutLinks(p, d.links), PutFields(p, d.fields));
    ExecSlicesAppend(x, head, PutLinks(p, d.links));
    PutLinksSlice(cleared, p, d.links);
    PutFieldsSlice(cleared.(links := LinkRows(d.links)), p, d.fields);
  }

  // ---------- runs of groups, one path each ----------

  datatype Group = Group(path: Path, stmts: seq<Stmt>)

  function Flatten(gs: seq<Group>): seq<Stmt> {
    if gs == [] then [] else gs[0].stmts + Flatten(gs[1..])
  }

  predicate AllConcern(gs: seq<Group>) {
    forall i :: 0 <= i < |gs| ==> Concerns(gs[i].stmts, gs[i].path)
  }

  /** What a run of groups does to the rows of one path: its own groups, in order. */
  function OnPath(x: Slice, gs: seq<Group>, p: Path): Slice
    decreases |gs|
  {
    if gs == [] then x
    else OnPath(if gs[0].path == p then ExecSlices(x, gs[0].stmts) else x, gs[1..], p)
  }

  lemma {:induction false} FlattenAppend(a: seq<Group>, b: seq<Group>)
    ensures Flatten(a + b) == Flatten(a) + Flatten(b)
    decreases |a|
  {
    if a == [] {
      assert a + b == b;
    } else {
      assert (a + b)[1..] == a[1..] + b;
      FlattenAppend(a[1..], b);
    }
  }

  /** Groups act path by path, whatever order their statements reach the database in. */
  lemma {:induction false} FlattenAt(t: Tables, gs: seq<Group>, p: Path)
    requires AllConcern(gs)
    ensures At(ExecAll(t, Flatten(gs)), p) == OnPath(At(t, p), gs, p)
    decreases |gs|
  {
    if gs != [] {
      ExecAllAt(t, gs[0].stmts, gs[0].path);
      ExecAllAppend(t, gs[0].stmts, Flatten(gs[1..]));
      FlattenAt(ExecAll(t, gs[0].stmts), gs[1..], p);
    }
  }

  lemma {:induction false} OnPathAppend(x: Slice, a: seq<Group>, b: seq<Group>, p: Path)
    ensures OnPath(x, a + b, p) == OnPath(OnPath(x, a, p), b, p)
    decreases |a|
  {
    if a == [] {
      assert a + b == b;
    } else {
      assert (a + b)[1..] == a[1..] + b;
      OnPathAppend(if a[0].path == p then ExecSlices(x, a[0].stmts) else x, a[1..], b, p);
    }
  }

  /** A path no group names keeps its rows. */
  lemma {:induction false} OnPathElsewhere(x: Slice, gs: seq<Group>, p: Path)
    requires forall i :: 0 <= i < |gs| ==> gs[i].path != p
    ensures OnPath(x, gs, p) == x
    decreases |gs|
  {
    if gs != [] { OnPathElsewhere(x, gs[1..], p); }
  }

  /** A path named once sees that one group. */
  lemma {:induction false} OnPathOnce(x: Slice, gs: seq<Group>, i: nat)
    requires i < |gs|
    requires forall j :: 0 <= j < |gs| && j != i ==> gs[j].path != gs[i].path
    ensures OnPath(x, gs, gs[i].path) == ExecSlices(x, gs[i].stmts)
    decreases |gs|
  {
    var p, rest := gs[i].path, gs[1..];
    if i == 0 {
      assert forall j :: 0 <= j < |rest| ==> rest[j] == gs[j + 1];
      OnPathElsewhere(ExecSlices(x, gs[0].stmts), rest, p);
    } else {
      assert forall j :: 0 <= j < |rest| ==> rest[j] == gs[j + 1];
      OnPathOnce(x, rest, i - 1);
    }
  }

  /** Stopping between groups leaves every path either untouched or finished. */
  lemma CutEither(t: Tables, gs: seq<Group>, n: nat, p: Path)
    requires AllConcern(gs) && n <= |gs|
    requires forall i, j :: 0 <= i < j < |gs| ==> gs[i].path != gs[j].path
    ensures At(ExecAll(t, Flatten(gs[..n])), p) in {At(t, p), At(ExecAll(t, Flatten(gs)), p)}
  {
    FlattenAt(t, gs, p);
    FlattenAt(t, gs[..n], p);
    if i :| 0 <= i < |gs| && gs[i].path == p {
      OnPathOnce(At(t, p), gs, i);
      if i < n {
        assert gs[..n][i] == gs[i];
        OnPathOnce(At(t, p), gs[..n], i);
      } else {
        OnPathElsewhere(At(t, p), gs[..n], p);
      }
    } else {
      OnPathElsewhere(At(t, p), gs[..n], p);
    }
  }

  // ---------- cuts inside a group ----------

  /** The same groups, with only their first n statements left. */
  function CutGroups(gs: seq<Group>, n: nat): (r: seq<Group>)
    ensures |r| == |gs| && forall i :: 0 <= i < |gs| ==> r[i].path == gs[i].path
  {
    if gs == [] then []
    else
      var k := |gs[0].stmts|;
      if n <= k then [Group(gs[0].path, gs[0].stmts[..n])] + CutGroups(gs[1..], 0)
      else [gs[0]] + CutGroups(gs[1..], n - k)
  }

  lemma {:induction false} CutGroupsFlatten(gs: seq<Group>, n: nat)
    requires n <= |Flatten(gs)|
    ensures Flatten(CutGroups(gs, n)) == Flatten(gs)[..n]
    decreases |gs|
  {
    if gs != [] {
      var g, k := gs[0], |gs[0].stmts|;
      if n <= k {
        CutGroupsFlatten(gs[1..], 0);
      } else {
        CutGroupsFlatten(gs[1..], n - k);
      }
    }
  }

  /** How many statements of group i are among the first n. */
  function Ran(gs: seq<Group>, n: nat, i: nat): (r: nat)
    requires i < |gs|
    ensures r <= |gs[i].stmts|
  {
    var before := |Flatten(gs[..i])|;
    if n <= before then 0 else if n - before <= |gs[i].stmts| then n - before else |gs[i].stmts|
  }

  lemma {:induction false} CutGroupsAt(gs: seq<Group>, n: nat, i: nat)
    requires i < |gs|
    ensures CutGroups(gs, n)[i].stmts == gs[i].stmts[..Ran(gs, n, i)]
    decreases |gs|
  {
    var k := |gs[0].stmts|;
    if i == 0 {
      assert gs[..0] == [];
      if n > k { assert gs[0].stmts[..k] == gs[0].stmts; }
    } else {
      assert gs[..i][0] == gs[0] && gs[..i][1..] == gs[1..][..i - 1];
      CutGroupsAt(gs[1..], if n <= k then 0 else n - k, i - 1);
    }
  }

  /** A run of groups, one path each, cut after n statements: each path has seen its own
      statements among them. */
  lemma CutAt(t: Tables, gs: seq<Group>, n: nat, i: nat)
    requires AllConcern(gs) && i < |gs|
    requires forall j, k :: 0 <= j < k < |gs| ==> gs[j].path != gs[k].path
    ensures At(Cut(t, Flatten(gs), n), gs[i].path) == ExecSlices(At(t, gs[i].path), gs[i].stmts[..Ran(gs, n, i)])
  {
    hide ExecAll, ExecSlices, Flatten, CutGroups, Ran;
    var m := if n <= |Flatten(gs)| then n else |Flatten(gs)|;
    var cs := CutGroups(gs, m);
    CutGroupsFlatten(gs, m);
    RanEnough(gs, n, i);
    assert Flatten(gs)[..|Flatten(gs)|] == Flatten(gs);
    CutConcern(gs, m);
    FlattenAt(t, cs, gs[i].path);
    OnPathOnce(At(t, gs[i].path), cs, i);
    CutGroupsAt(gs, m, i);
  }

  lemma CutConcern(gs: seq<Group>, n: nat)
    requires AllConcern(gs)
    ensures AllConcern(CutGroups(gs, n))
  {
    hide CutGroups;
    var cs := CutGroups(gs, n);
    forall i | 0 <= i < |gs| ensures Concerns(cs[i].stmts, cs[i].path) {
      CutGroupsAt(gs, n, i);
      assert Concerns(gs[i].stmts, gs[i].path);
    }
  }

  lemma RanEnough(gs: seq<Group>, n: nat, i: nat)
    requires i < |gs|
    ensures Ran(gs, n, i) == Ran(gs, if n <= |Flatten(gs)| then n else |Flatten(gs)|, i)
  {
    assert gs == gs[..i] + gs[i..];
    FlattenAppend(gs[..i], gs[i..]);
    assert Flatten(gs[i..]) == gs[i].stmts + Flatten(gs[i..][1..]);
  }

  lemma CutElsewhere(t: Tables, gs: seq<Group>, n: nat, p: Path)
    requires AllConcern(gs) && forall i :: 0 <= i < |gs| ==> gs[i].path != p
    ensures At(Cut(t, Flatten(gs), n), p) == At(t, p)
  {
    hide ExecAll, Flatten, CutGroups;
    var m := if n <= |Flatten(gs)| then n else |Flatten(gs)|;
    assert Flatten(gs)[..|Flatten(gs)|] == Flatten(gs);
    CutGroupsFlatten(gs, m);
    CutConcern(gs, m);
    FlattenAt(t, CutGroups(gs, m), p);
    OnPathElsewhere(At(t, p), CutGroups(gs, m), p);
  }

  /** The tables once the first n statements have run. */
  function Cut(t: Tables, ss: seq<Stmt>, n: nat): Tables {
    ExecAll(t, if n <= |ss| then ss[..n] else ss)
  }

  /** The run of groups, cut after n statements, has left every path untouched or finished. */
  ghost predicate CleanCut(t: Tables, gs: seq<Group>, n: nat) {
    forall p :: At(Cut(t, Flatten(gs), n), p) in {At(t, p), At(ExecAll(t, Flatten(gs)), p)}
  }

  lemma {:induction false} FlattenMembers(gs: seq<Group>, s: Stmt)
    requires AllConcern(gs) && s in Flatten(gs)
    ensures !Wipes(s) && exists i :: 0 <= i < |gs| && gs[i].path == s.path && s in gs[i].stmts
  {
    if s in gs[0].stmts {
      var j :| 0 <= j < |gs[0].stmts| && gs[0].stmts[j] == s;
      assert gs[0].path == s.path;
    } else {
      FlattenMembers(gs[1..], s);
      var i :| 0 <= i < |gs[1..]| && gs[1..][i].path == s.path && s in gs[1..][i].stmts;
      assert gs[i + 1].path == s.path && s in gs[i + 1].stmts;
    }
  }

  lemma RederiveGroupMembers(p: Path, d: Derived, s: Stmt)
    requires s in RederiveGroup(p, d)
    ensures s.SetTitle? || s.DropLinks? || s.DropFields? || s.PutLink? || s.PutField?
  {
    var i :| 0 <= i < |RederiveGroup(p, d)| && RederiveGroup(p, d)[i] == s;
    var n := |d.links|;
    if i >= 3 + n {
      assert s == PutFields(p, d.fields)[i - 3 - n];
    } else if i >= 3 {
      assert s == PutLinks(p, d.links)[i - 3];
    }
  }
}
