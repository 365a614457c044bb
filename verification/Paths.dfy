/** Repository paths in code-unit order, and resuming a walk from a cursor. */
module Paths {
  // The order is that of SQLite's `ORDER BY path`, which the rebuild cursor and the resumable
  // passes all walk in. Here are the order itself, the least member of a set and a set in
  // order, and what it means to resume: the sequence past the k-th member is the rest of the
  // sequence. Everything that pages through a brain rests on these few lemmas.

  import opened Options

  type Path = string

  /** a sorts strictly before b. */
  predicate Less(a: Path, b: Path) {
    |b| > 0 && (|a| == 0 || a[0] < b[0] || (a[0] == b[0] && Less(a[1..], b[1..])))
  }

  lemma {:induction false} LessIrreflexive(a: Path)
    ensures !Less(a, a)
  {
    if |a| > 0 { LessIrreflexive(a[1..]); }
  }

  lemma {:induction false} LessTransitive(a: Path, b: Path, c: Path)
    requires Less(a, b) && Less(b, c)
    ensures Less(a, c)
  {
    if |a| > 0 && a[0] == b[0] && b[0] == c[0] {
      LessTransitive(a[1..], b[1..], c[1..]);
    }
  }

  lemma {:induction false} LessTotal(a: Path, b: Path)
    ensures a == b || Less(a, b) || Less(b, a)
  {
    if |a| > 0 && |b| > 0 && a[0] == b[0] {
      LessTotal(a[1..], b[1..]);
      assert a == [a[0]] + a[1..] && b == [b[0]] + b[1..];
    }
  }

  predicate Increasing(r: seq<Path>) {
    forall i, j :: 0 <= i < j < |r| ==> Less(r[i], r[j])
  }

  predicate IsLeast(m: Path, s: set<Path>) {
    m in s && forall q :: q in s ==> q == m || Less(m, q)
  }

  lemma LeastExists(s: set<Path>) returns (m: Path)
    requires s != {}
    ensures IsLeast(m, s)
  {
    var x :| x in s;
    var rest := s - {x};
    if rest == {} {
      m := x;
      assert s == {x};
    } else {
      var r := LeastExists(rest);
      LessTotal(x, r);
      m := if Less(x, r) then x else r;
      forall q | q in s ensures q == m || Less(m, q) {
        if q != x {
          assert q in rest;
          if q != r && Less(x, r) { LessTransitive(x, r, q); }
        }
      }
    }
  }

  lemma LeastUnique(s: set<Path>, a: Path, b: Path)
    requires IsLeast(a, s) && IsLeast(b, s)
    ensures a == b
  {
    if a != b {
      LessTransitive(a, b, a);
      LessIrreflexive(a);
    }
  }

  function Least(s: set<Path>): (m: Path)
    requires s != {}
    ensures IsLeast(m, s)
  {
    assert exists m :: IsLeast(m, s) by { var m := LeastExists(s); }
    assert forall a, b :: IsLeast(a, s) && IsLeast(b, s) ==> a == b by {
      forall a, b | IsLeast(a, s) && IsLeast(b, s) ensures a == b { LeastUnique(s, a, b); }
    }
    var m :| m in s && IsLeast(m, s);
    m
  }

  /** The members of a set, in order: what `ORDER BY path` returns. */
  function Ascending(s: set<Path>): (r: seq<Path>)
    ensures forall p :: p in r <==> p in s
    ensures Increasing(r)
    ensures |r| == |s|
  {
    if s == {} then [] else
      var m := Least(s);
      [m] + Ascending(s - {m})
  }

  lemma {:induction false} IncreasingCount(r: seq<Path>)
    requires Increasing(r)
    ensures |set p | p in r| == |r|
  {
    if r != [] {
      var init, last := r[..|r| - 1], r[|r| - 1];
      IncreasingCount(init);
      assert last !in init by { LessIrreflexive(last); }
      assert (set p | p in r) == (set p | p in init) + {last} by { assert r == init + [last]; }
    }
  }

  lemma LessAsymmetric(x: Path, y: Path)
    requires Less(x, y)
    ensures !Less(y, x) && x != y
  {
    if Less(y, x) { LessTransitive(x, y, x); }
    LessIrreflexive(x);
  }

  /** An increasing sequence is determined by its members. */
  lemma IncreasingUnique(r: seq<Path>, t: seq<Path>)
    requires Increasing(r) && Increasing(t) && forall p :: p in r <==> p in t
    ensures r == t
    decreases |r|
  {
    hide Less;
    if r == [] || t == [] {
      HasMember(r);
      HasMember(t);
    } else {
      assert r[0] in r && r[0] in t;
      FirstIsLeast(r);
      FirstIsLeast(t);
      assert t[0] in t && t[0] in r;
      if r[0] != t[0] { LessAsymmetric(r[0], t[0]); }
      forall p ensures p in r[1..] <==> p in t[1..] {
        InTail(r, p);
        InTail(t, p);
      }
      IncreasingUnique(r[1..], t[1..]);
      assert r == [r[0]] + r[1..] && t == [t[0]] + t[1..];
    }
  }

  lemma HasMember(r: seq<Path>)
    ensures r != [] ==> exists p :: p in r
  {
    if r != [] { assert r[0] in r; }
  }

  lemma FirstIsLeast(r: seq<Path>)
    requires r != [] && Increasing(r)
    ensures forall p :: p in r ==> p == r[0] || Less(r[0], p)
  {
    hide Less;
  }

  lemma InTail(r: seq<Path>, p: Path)
    requires r != [] && Increasing(r)
    ensures p in r[1..] <==> p in r && p != r[0]
  {
    LessIrreflexive(r[0]);
    hide Less;
    if p in r[1..] {
      var i :| 0 <= i < |r[1..]| && r[1..][i] == p;
      assert r[i + 1] == p;
    }
  }

  // ---------- resuming a walk from a cursor ----------

  predicate Passed(cursor: Option<Path>, p: Path) {
    cursor.None? || Less(cursor.value, p)
  }

  /** The members past a cursor, in order. */
  function Beyond(s: set<Path>, cursor: Option<Path>): (r: seq<Path>)
    ensures forall p :: p in r <==> p in s && Passed(cursor, p)
    ensures Increasing(r)
  {
    Ascending(set p | p in s && Passed(cursor, p))
  }

  lemma AfterCut(ps: seq<Path>, k: nat, p: Path)
    requires Increasing(ps) && 0 < k <= |ps|
    ensures p in ps[k..] <==> p in ps && Less(ps[k - 1], p)
  {
    hide Less;
    if p in ps && Less(ps[k - 1], p) {
      var i :| 0 <= i < |ps| && ps[i] == p;
      if i < k {
        if i < k - 1 { LessAsymmetric(p, ps[k - 1]); }
        LessIrreflexive(p);
      }
      assert ps[k..][i - k] == p;
    }
    if p in ps[k..] {
      var i :| 0 <= i < |ps[k..]| && ps[k..][i] == p;
      assert ps[k + i] == p;
    }
  }

  /** Resuming at the k-th member leaves exactly the members after it. */
  lemma ResumeBeyond(s: set<Path>, cursor: Option<Path>, k: nat)
    requires 0 < k <= |Beyond(s, cursor)|
    ensures Beyond(s, Some(Beyond(s, cursor)[k - 1])) == Beyond(s, cursor)[k..]
  {
    hide Less;
    var ps := Beyond(s, cursor);
    var m := ps[k - 1];
    assert m in ps;
    forall p ensures p in Beyond(s, Some(m)) <==> p in ps[k..] {
      AfterCut(ps, k, p);
      if p in s && Less(m, p) && cursor.Some? { LessTransitive(cursor.value, m, p); }
    }
    IncreasingUnique(Beyond(s, Some(m)), ps[k..]);
  }

  lemma PrefixIncreasing(ps: seq<Path>, n: nat)
    requires Increasing(ps) && n <= |ps|
    ensures Increasing(ps[..n])
  {
    hide Less;
  }

  lemma NothingAfterLast(ps: seq<Path>, p: Path)
    requires Increasing(ps) && p in ps
    ensures !Less(ps[|ps| - 1], p)
  {
    hide Less;
    var i :| 0 <= i < |ps| && ps[i] == p;
    if i < |ps| - 1 { LessAsymmetric(p, ps[|ps| - 1]); } else { LessIrreflexive(p); }
  }
}
