/** The harness's stand-in for a blob sha (dev/harness.ts, pageSha), in 32-bit arithmetic. */
module PageSha {
  import opened Options

  const TWO_31: int := 0x8000_0000
  const TWO_32: int := 0x1_0000_0000

  /** A UTF-16 code unit. */
  newtype Unit = i: int | 0 <= i < 0x1_0000

  /** ToInt32: the signed 32-bit integer a number wraps to. */
  function ToInt32(x: int): (r: int)
    ensures -TWO_31 <= r < TWO_31
    ensures (r - x) % TWO_32 == 0
  {
    var u := x % TWO_32;
    if u < TWO_31 then u else u - TWO_32
  }

  /** The base-31 polynomial of the code units. */
  function Poly(s: seq<Unit>): int {
    if s == [] then 0 else 31 * Poly(s[..|s| - 1]) + (s[|s| - 1] as int)
  }

  lemma SameMod(a: int, b: int, c: int)
    requires (a - b) % TWO_32 == 0
    ensures (31 * a + c - (31 * b + c)) % TWO_32 == 0 && a % TWO_32 == b % TWO_32
  {
    var k := (a - b) / TWO_32;
    assert a == b + TWO_32 * k;
    assert 31 * a + c - (31 * b + c) == TWO_32 * (31 * k);
  }

  lemma AddMod(a: int, b: int, c: int)
    requires (a - b) % TWO_32 == 0 && (b - c) % TWO_32 == 0
    ensures (a - c) % TWO_32 == 0
  {
    assert a - c == (a - b) + (b - c);
  }

  /** The number whose hexadecimal digits follow `sha-`; none for a page that is not there. */
  method Sha(md: Option<seq<Unit>>) returns (r: Option<int>)
    ensures r.Some? <==> md.Some?
    ensures md.Some? ==> r.value == Poly(md.value) % TWO_32
  {
    if md.None? {
      return None;
    }
    var s := md.value;
    var h := 0;
    for i := 0 to |s|
      invariant -TWO_31 <= h < TWO_31
      invariant (h - Poly(s[..i])) % TWO_32 == 0
    {
      assert s[..i + 1][..i] == s[..i];
      var product := ToInt32(h * 31);
      var c := s[i] as int;
      SameMod(h, Poly(s[..i]), c);
      AddMod(product + c, 31 * h + c, Poly(s[..i + 1]));
      h := ToInt32(product + c);
      AddMod(h, product + c, Poly(s[..i + 1]));
    }
    assert s[..|s|] == s;
    SameMod(h, Poly(s), 0);
    return Some(h % TWO_32);
  }

  // ---------- what the hash tells apart ----------

  const INVERSE_31: int := 3186588639

  lemma Inverse()
    ensures (31 * INVERSE_31) % TWO_32 == 1
  {
  }

  lemma MultiplesMod(a: int, k: int)
    requires a % TWO_32 == 0
    ensures (a * k) % TWO_32 == 0
  {
    assert a * k == TWO_32 * (a / TWO_32 * k);
  }

  /** Multiplying by 31 loses nothing mod 2^32. */
  lemma ThirtyOneInvertible(d: int)
    requires (31 * d) % TWO_32 == 0
    ensures d % TWO_32 == 0
  {
    Inverse();
    MultiplesMod(31 * d, INVERSE_31);
    var k := (31 * INVERSE_31 - 1) / TWO_32;
    assert 31 * INVERSE_31 == 1 + TWO_32 * k;
    assert 31 * d * INVERSE_31 == d + TWO_32 * (k * d);
  }

  lemma ZeroModDifference(a: int, b: int)
    ensures a % TWO_32 == b % TWO_32 <==> (a - b) % TWO_32 == 0
  {
  }

  /** A STEP IS ONE TO ONE: taking in the same character keeps two states apart. */
  lemma StepKeepsApart(a: int, b: int, c: int)
    ensures (31 * a + c) % TWO_32 == (31 * b + c) % TWO_32 <==> a % TWO_32 == b % TWO_32
  {
    ZeroModDifference(31 * a + c, 31 * b + c);
    ZeroModDifference(a, b);
    assert 31 * a + c - (31 * b + c) == 31 * (a - b);
    if (31 * (a - b)) % TWO_32 == 0 { ThirtyOneInvertible(a - b); }
    if (a - b) % TWO_32 == 0 { SameMod(a, b, c); }
  }

  /** A STEP IS ONTO: whatever the character, every state comes from one. */
  lemma StepReaches(h: int, c: int) returns (a: int)
    requires 0 <= h < TWO_32
    ensures 0 <= a < TWO_32 && (31 * a + c) % TWO_32 == h
  {
    var d := h - c;
    var k := (31 * INVERSE_31 - 1) / TWO_32;
    Inverse();
    a := (INVERSE_31 * d) % TWO_32;
    var q := (INVERSE_31 * d) / TWO_32;
    assert 31 * a + c == h + TWO_32 * (k * d - 31 * q) by {
      assert 31 * INVERSE_31 == 1 + TWO_32 * k;
      assert 31 * (INVERSE_31 * d) == (1 + TWO_32 * k) * d;
    }
    MultiplesMod(TWO_32, k * d - 31 * q);
    ZeroModDifference(31 * a + c, h);
  }

  /** ONE CHARACTER CHANGED CHANGES THE SHA, wherever it stands in a page of any length. */
  lemma {:induction false} OneCharacterShows(s: seq<Unit>, i: nat, c: Unit)
    requires i < |s| && c != s[i]
    ensures Poly(s[i := c]) % TWO_32 != Poly(s) % TWO_32
    decreases |s|
  {
    var t, n := s[i := c], |s| - 1;
    if i < n {
      assert t[..n] == s[..n][i := c];
      OneCharacterShows(s[..n], i, c);
      StepKeepsApart(Poly(t[..n]), Poly(s[..n]), s[n] as int);
    } else {
      assert t[..n] == s[..n];
      var d := (c as int) - (s[n] as int);
      ZeroModDifference(Poly(t), Poly(s));
      assert Poly(t) - Poly(s) == d;
    }
  }

  function Pow31(k: nat): int {
    if k == 0 then 1 else 31 * Pow31(k - 1)
  }

  lemma {:induction false} PowSum(a: nat, b: nat)
    ensures Pow31(a + b) == Pow31(a) * Pow31(b)
  {
    if a > 0 { PowSum(a - 1, b); }
  }

  lemma {:induction false} PowInvertible(k: nat, d: int)
    ensures (Pow31(k) * d) % TWO_32 == 0 <==> d % TWO_32 == 0
  {
    if k > 0 {
      assert Pow31(k) * d == 31 * (Pow31(k - 1) * d);
      PowInvertible(k - 1, d);
      if (31 * (Pow31(k - 1) * d)) % TWO_32 == 0 { ThirtyOneInvertible(Pow31(k - 1) * d); }
      if d % TWO_32 == 0 { MultiplesMod(d, Pow31(k)); }
    }
  }

  /** A changed character moves the polynomial by its change times 31 for each one after it. */
  lemma {:induction false} PolyUpdate(s: seq<Unit>, i: nat, c: Unit)
    requires i < |s|
    ensures Poly(s[i := c]) == Poly(s) + Pow31(|s| - 1 - i) * ((c as int) - (s[i] as int))
    decreases |s|
  {
    var t, n := s[i := c], |s| - 1;
    if i < n {
      assert t[..n] == s[..n][i := c];
      PolyUpdate(s[..n], i, c);
      assert Pow31(n - i) == 31 * Pow31(n - 1 - i);
    } else {
      assert t[..n] == s[..n];
    }
  }

  lemma TwoCharactersMove(s: seq<Unit>, i: nat, j: nat, c: Unit, d: Unit)
    requires i < j < |s|
    ensures Poly(s[i := c][j := d]) - Poly(s)
         == Pow31(|s| - 1 - j) * (Pow31(j - i) * ((c as int) - (s[i] as int)) + ((d as int) - (s[j] as int)))
  {
    hide Poly, Pow31;
    var t := s[i := c];
    PolyUpdate(s, i, c);
    PolyUpdate(t, j, d);
    PowSum(j - i, |s| - 1 - j);
    Factor(Pow31(j - i), Pow31(|s| - 1 - j), (c as int) - (s[i] as int), (d as int) - (s[j] as int));
  }

  lemma Factor(a: int, b: int, x: int, y: int)
    ensures (a * b) * x + b * y == b * (a * x + y)
  {
  }

  /** TWO CHARACTERS CHANGED KEEP THE SHA exactly when their changes cancel: the earlier one
      times 31 for each character up to the later, plus the later, is nothing mod 2^32.
      The page's length and what else it holds play no part. */
  lemma TwoCharactersCancelIff(s: seq<Unit>, i: nat, j: nat, c: Unit, d: Unit)
    requires i < j < |s|
    ensures Poly(s[i := c][j := d]) % TWO_32 == Poly(s) % TWO_32
        <==> (Pow31(j - i) * ((c as int) - (s[i] as int)) + ((d as int) - (s[j] as int))) % TWO_32 == 0
  {
    hide Poly, Pow31;
    var x := Pow31(j - i) * ((c as int) - (s[i] as int)) + ((d as int) - (s[j] as int));
    TwoCharactersMove(s, i, j, c, d);
    ZeroModDifference(Poly(s[i := c][j := d]), Poly(s));
    PowInvertible(|s| - 1 - j, x);
  }

  /** For two neighbours nothing wraps: the later goes down by exactly 31 times what the
      earlier goes up. */
  lemma NeighboursCancelIff(s: seq<Unit>, i: nat, c: Unit, d: Unit)
    requires i + 1 < |s|
    ensures Poly(s[i := c][i + 1 := d]) % TWO_32 == Poly(s) % TWO_32
        <==> (s[i + 1] as int) - (d as int) == 31 * ((c as int) - (s[i] as int))
  {
    TwoCharactersCancelIff(s, i, i + 1, c, d);
    assert Pow31(1) == 31;
  }

  /** Two changed characters may cancel: a page written with other text can read back the same. */
  lemma TwoCharactersMayNot(s: seq<Unit>, a: Unit, b: Unit)
    requires (a as int) < 0xFFFF && (b as int) >= 31
    ensures Poly(s + [a, b]) == Poly(s + [a + 1, b - 31])
  {
    PolyOfTwo(s, a, b);
    PolyOfTwo(s, a + 1, b - 31);
  }

  lemma PolyOfTwo(s: seq<Unit>, a: Unit, b: Unit)
    ensures Poly(s + [a, b]) == 31 * (31 * Poly(s) + a as int) + b as int
  {
    var t := s + [a, b];
    assert t[..|t| - 1] == s + [a];
    assert (s + [a])[..|s|] == s;
  }
}
