/** Comments and trailing commas taken out of JSONC (scripts/preview.ts, parseJsonc, up to the
    text handed to JSON.parse). Strings are those of section 7 of RFC 8259. */
module Jsonc {
  // The text is read into tokens, among them comments; the scan keeps all but the comments, and
  // what it keeps is shown to read as the same tokens again. The final replacement is then shown
  // to work token by token, inside strings as well.

  import opened Options
  import opened Texts

  // ---------- lexing ----------

  /** How much of a text belongs to a string whose opening quote came just before it. */
  function StringRest(u: string): (n: nat)
    ensures n <= |u| && (u != "" ==> n > 0)
    decreases |u|
  {
    if u == "" then 0
    else if u[0] == '"' then 1
    else if u[0] == '\\' then (if |u| == 1 then 1 else 2 + StringRest(u[2..]))
    else 1 + StringRest(u[1..])
  }

  /** How much of a text comes before the next newline. */
  function LineRest(u: string): (n: nat)
    ensures n <= |u|
  {
    if u == "" || u[0] == '\n' then 0 else 1 + LineRest(u[1..])
  }

  /** How much of a text belongs to a block comment whose opening came just before it. */
  function BlockRest(u: string): (n: nat)
    ensures n <= |u|
  {
    if u == "" then 0
    else if |u| >= 2 && u[0] == '*' && u[1] == '/' then 2
    else 1 + BlockRest(u[1..])
  }

  datatype Token = Chr(c: char) | Str(text: string) | Comment(text: string)

  predicate StartsComment(s: string) {
    |s| >= 2 && s[0] == '/' && (s[1] == '/' || s[1] == '*')
  }

  function First(s: string): (t: Token)
    requires s != ""
    ensures TextOf(t) <= s && TextOf(t) != ""
  {
    if s[0] == '"' then Str(s[..1 + StringRest(s[1..])])
    else if StartsComment(s) then
      Comment(s[..2 + (if s[1] == '/' then LineRest(s[2..]) else BlockRest(s[2..]))])
    else Chr(s[0])
  }

  function TextOf(t: Token): string {
    match t
    case Chr(c) => [c]
    case Str(x) => x
    case Comment(x) => x
  }

  function Lex(s: string): seq<Token>
    decreases |s|
  {
    if s == "" then [] else [First(s)] + Lex(s[|TextOf(First(s))|..])
  }

  function Flat(ts: seq<Token>): string {
    if ts == [] then "" else TextOf(ts[0]) + Flat(ts[1..])
  }

  function NoComments(ts: seq<Token>): seq<Token> {
    if ts == [] then []
    else (if ts[0].Comment? then [] else [ts[0]]) + NoComments(ts[1..])
  }

  function StringsIn(ts: seq<Token>): seq<string> {
    if ts == [] then []
    else (if ts[0].Str? then [ts[0].text] else []) + StringsIn(ts[1..])
  }

  // ---------- the loop ----------

  /** What the scan keeps. */
  function Kept(s: string): string {
    Flat(NoComments(Lex(s)))
  }

  /** The length of the first token at i, by the branch the scan takes. */
  function Length(text: string, i: nat): nat
    requires i < |text|
  {
    if text[i] == '"' then 1 + StringRest(text[i + 1..])
    else if i + 1 < |text| && text[i] == '/' && text[i + 1] == '/' then 2 + LineRest(text[i + 2..])
    else if i + 1 < |text| && text[i] == '/' && text[i + 1] == '*' then 2 + BlockRest(text[i + 2..])
    else 1
  }

  lemma KeptStep(text: string, i: nat)
    requires i < |text|
    ensures var n, s := Length(text, i), text[i..];
      i + n <= |text| && Kept(s) == (if StartsComment(s) then "" else text[i..i + n]) + Kept(text[i + n..])
  {
    hide Lex, NoComments, Flat, First, TextOf, Length, StartsComment;
    var s, n := text[i..], Length(text, i);
    NextToken(s);
    FirstCases(s);
    LengthIs(text, i);
    Rest(text, i, n);
    assert s[..n] == text[i..i + n];
  }

  lemma LengthIs(text: string, i: nat)
    requires i < |text|
    ensures |TextOf(First(text[i..]))| == Length(text, i) && i + Length(text, i) <= |text|
  {
    FirstCases(text[i..]);
    Rest(text, i, 1);
    if i + 1 < |text| { Rest(text, i, 2); }
    hide StringRest, LineRest, BlockRest, First, TextOf;
  }

  /** The scan of parseJsonc. */
  method Strip(text: string) returns (out: string)
    ensures out == Kept(text)
  {
    hide Kept, StringRest, LineRest, BlockRest;
    out := "";
    var i: nat := 0;
    assert text[0..] == text;
    while i < |text|
      invariant i <= |text|
      invariant Kept(text) == out + Kept(text[i..])
      decreases |text| - i
    {
      var c := text[i];
      KeptStep(text, i);
      ghost var before, after := out, Kept(text[i + Length(text, i)..]);
      if c == '"' {
        var j := StringEnd(text, i + 1);
        var end := if j + 1 < |text| then j + 1 else |text|;
        Assoc(before, text[i..end], after);
        out := out + text[i..end];
        i := end;
      } else if c == '/' && i + 1 < |text| && text[i + 1] == '/' {
        i := LineEnd(text, i + 2);
        assert "" + after == after;
      } else if c == '/' && i + 1 < |text| && text[i + 1] == '*' {
        i := BlockEnd(text, i + 2);
        assert "" + after == after;
      } else {
        Assoc(before, text[i..i + 1], after);
        assert text[i..i + 1] == [c];
        out := out + [c];
        i := i + 1;
      }
    }
    assert text[i..] == "";
    NothingLexed();
  }

  /** The first token, by the branch the scan takes. */
  lemma FirstCases(s: string)
    requires s != ""
    ensures var t := First(s);
      && TextOf(t) == s[..|TextOf(t)|]
      && (t.Comment? <==> StartsComment(s))
      && |TextOf(t)| ==
           (if s[0] == '"' then 1 + StringRest(s[1..])
            else if StartsComment(s) then 2 + (if s[1] == '/' then LineRest(s[2..]) else BlockRest(s[2..]))
            else 1)
  {
  }

  lemma Rest(text: string, i: nat, k: nat)
    requires i + k <= |text|
    ensures text[i..][k..] == text[i + k..]
  {
  }

  lemma NothingLexed()
    ensures Kept("") == ""
  {
  }

  /** The index of the closing quote, or past the end. */
  method StringEnd(text: string, from: nat) returns (j: nat)
    requires from <= |text|
    ensures (if j + 1 < |text| then j + 1 else |text|) == from + StringRest(text[from..])
  {
    j := from;
    while j < |text| && text[j] != '"'
      invariant from <= j
      invariant j <= |text| ==> from + StringRest(text[from..]) == j + StringRest(text[j..])
      invariant j > |text| ==> from + StringRest(text[from..]) == |text|
      decreases |text| - j
    {
      if text[j] == '\\' {
        if j + 2 <= |text| { assert text[j..][2..] == text[j + 2..]; }
        j := j + 2;
      } else {
        assert text[j..][1..] == text[j + 1..];
        j := j + 1;
      }
    }
  }

  method LineEnd(text: string, from: nat) returns (j: nat)
    requires from <= |text|
    ensures j == from + LineRest(text[from..])
  {
    j := from;
    while j < |text| && text[j] != '\n'
      invariant from <= j <= |text|
      invariant from + LineRest(text[from..]) == j + LineRest(text[j..])
    {
      assert text[j..][1..] == text[j + 1..];
      j := j + 1;
    }
  }

  method BlockEnd(text: string, from: nat) returns (j: nat)
    requires from <= |text|
    ensures j == from + BlockRest(text[from..])
  {
    j := from;
    while j < |text| && !(j + 2 <= |text| && text[j] == '*' && text[j + 1] == '/')
      invariant from <= j <= |text|
      invariant from + BlockRest(text[from..]) == j + BlockRest(text[j..])
    {
      assert text[j..][1..] == text[j + 1..];
      j := j + 1;
    }
    if j < |text| { j := j + 2; }
  }

  lemma NoCommentsCons(t: Token, ts: seq<Token>)
    ensures NoComments([t] + ts) == (if t.Comment? then [] else [t]) + NoComments(ts)
  {
    assert ([t] + ts)[1..] == ts;
  }

  lemma FlatCons(t: Token, ts: seq<Token>)
    ensures Flat([t] + ts) == TextOf(t) + Flat(ts)
  {
    assert ([t] + ts)[1..] == ts;
  }

  lemma StringsCons(t: Token, ts: seq<Token>)
    ensures StringsIn([t] + ts) == (if t.Str? then [t.text] else []) + StringsIn(ts)
  {
    assert ([t] + ts)[1..] == ts;
  }

  lemma LexStep(s: string)
    requires s != ""
    ensures Lex(s) == [First(s)] + Lex(s[|TextOf(First(s))|..])
  {
    hide First;
  }

  lemma NextToken(s: string)
    requires s != ""
    ensures Flat(NoComments(Lex(s))) ==
      (if First(s).Comment? then "" else TextOf(First(s))) + Flat(NoComments(Lex(s[|TextOf(First(s))|..])))
  {
    hide Lex, NoComments, Flat, First, TextOf;
    var rest := Lex(s[|TextOf(First(s))|..]);
    LexStep(s);
    NoCommentsCons(First(s), rest);
    if !First(s).Comment? {
      FlatCons(First(s), NoComments(rest));
    } else {
      assert [] + NoComments(rest) == NoComments(rest);
    }
  }

  // ---------- what the scan keeps ----------

  /** Every character of the text is in one token. */
  lemma {:induction false} LexIsAll(s: string)
    ensures Flat(Lex(s)) == s
    decreases |s|
  {
    if s == "" {
      assert Lex("") == [] && Flat([]) == "";
    } else {
      FirstCases(s);
      hide Lex, Flat, First, TextOf, StringRest, LineRest, BlockRest;
      var n := |TextOf(First(s))|;
      LexIsAll(s[n..]);
      LexStep(s);
      FlatCons(First(s), Lex(s[n..]));
      Halves(s, n);
    }
  }

  lemma Halves(s: string, n: nat)
    requires n <= |s|
    ensures s[..n] + s[n..] == s
  {
  }

  /** A quoted text with its closing quote at its end and nowhere before. */
  predicate ClosedRest(u: string)
    decreases |u|
  {
    u != "" && (if u[0] == '"' then |u| == 1
      else if u[0] == '\\' then |u| > 1 && ClosedRest(u[2..])
      else ClosedRest(u[1..]))
  }

  predicate IsString(t: string) {
    t != "" && t[0] == '"' && StringRest(t[1..]) == |t| - 1
  }

  predicate IsClosed(t: string) {
    t != "" && t[0] == '"' && ClosedRest(t[1..])
  }

  predicate IsSlash(ts: seq<Token>) {
    ts != [] && (ts[0] == Chr('/') || ts[0] == Chr('*'))
  }

  /** Tokens that no reading would join or split otherwise. */
  predicate Canonical(ts: seq<Token>) {
    ts == [] || (Canonical(ts[1..]) && match ts[0]
      case Comment(_) => false
      case Chr(c) => c != '"' && (c == '/' ==> !IsSlash(ts[1..]))
      case Str(t) => IsString(t) && (ts[1..] == [] || IsClosed(t)))
  }

  lemma {:induction false} ClosedFirst(u: string, v: string)
    requires ClosedRest(u)
    ensures StringRest(u + v) == |u| && StringRest(u) == |u|
    decreases |u|
  {
    if u[0] == '\\' {
      assert (u + v)[2..] == u[2..] + v;
      ClosedFirst(u[2..], v);
    } else if u[0] != '"' {
      assert (u + v)[1..] == u[1..] + v;
      ClosedFirst(u[1..], v);
    }
  }

  lemma {:induction false} StringRestWhole(u: string)
    ensures StringRest(u[..StringRest(u)]) == StringRest(u)
    ensures StringRest(u) < |u| ==> ClosedRest(u[..StringRest(u)])
    decreases |u|
  {
    if u != "" && u[0] != '"' {
      var n := StringRest(u);
      if u[0] == '\\' {
        if |u| > 1 {
          StringRestWhole(u[2..]);
          assert u[..n][2..] == u[2..][..n - 2];
        }
      } else {
        StringRestWhole(u[1..]);
        assert u[..n][1..] == u[1..][..n - 1];
      }
    }
  }

  lemma {:induction false} FlatStart(ts: seq<Token>)
    requires Canonical(ts) && ts != []
    ensures Flat(ts) != "" && Flat(ts)[0] == (if ts[0].Chr? then ts[0].c else '"')
  {
  }

  lemma FlatNone(ts: seq<Token>)
    requires Canonical(ts)
    ensures Flat(ts) == "" <==> ts == []
  {
    if ts != [] { FlatStart(ts); }
  }

  /** Reading canonical tokens gives them back. */
  lemma {:induction false} LexFlat(ts: seq<Token>)
    requires Canonical(ts)
    ensures Lex(Flat(ts)) == ts
  {
    hide Lex, First, Canonical, Flat, TextOf;
    if ts == [] {
      LexNothing();
    } else {
      var t, rest := ts[0], ts[1..];
      CanonicalTail(ts);
      FirstOfFlat(ts);
      LexFlat(rest);
      LexStep(Flat(ts));
      Suffix(TextOf(t), Flat(rest));
      assert ts == [t] + rest;
    }
  }

  lemma LexNothing()
    ensures Lex(Flat([])) == []
  {
  }

  lemma CanonicalTail(ts: seq<Token>)
    requires Canonical(ts) && ts != []
    ensures Canonical(ts[1..])
  {
  }

  lemma Suffix(a: string, c: string)
    ensures (a + c)[|a|..] == c
  {
  }

  lemma {:induction false} FirstOfFlat(ts: seq<Token>)
    requires Canonical(ts) && ts != []
    ensures Flat(ts) == TextOf(ts[0]) + Flat(ts[1..]) && Flat(ts) != "" && First(Flat(ts)) == ts[0]
  {
    var rest := Flat(ts[1..]);
    FlatNone(ts[1..]);
    if ts[1..] != [] { FlatStart(ts[1..]); }
    match ts[0]
    case Chr(c) => FirstChr(c, rest);
    case Str(t) =>
      if rest == "" { NothingAfter(t[1..], rest); } else { ClosedFirst(t[1..], rest); }
      hide First, Flat;
      FirstStr(t, rest);
  }

  lemma NothingAfter(t: string, rest: string)
    requires rest == ""
    ensures t + rest == t
  {
  }

  lemma FirstChr(c: char, rest: string)
    requires c != '"' && (c == '/' ==> !StartsSlash(rest))
    ensures First([c] + rest) == Chr(c)
  {
  }

  lemma FirstStr(t: string, rest: string)
    requires t != "" && t[0] == '"' && StringRest(t[1..] + rest) == |t| - 1
    ensures First(t + rest) == Str(t)
  {
    assert (t + rest)[1..] == t[1..] + rest;
  }

  /** What the scan leaves is canonical. */
  lemma {:induction false} ScanIsCanonical(s: string)
    ensures Canonical(NoComments(Lex(s)))
    ensures !StartsSlash(s) ==> !IsSlash(NoComments(Lex(s)))
    ensures s == "" ==> NoComments(Lex(s)) == []
    decreases |s|
  {
    if s == "" {
      assert NoComments(Lex("")) == [];
    } else {
      var t := First(s);
      var n := |TextOf(t)|;
      var rest := NoComments(Lex(s[n..]));
      ScanIsCanonical(s[n..]);
      LexStep(s);
      NoCommentsCons(t, Lex(s[n..]));
      hide Lex, NoComments;
      if !t.Comment? {
        CanonicalCons(s, rest);
      } else {
        assert [] + rest == rest;
      }
    }
  }

  lemma CanonicalCons(s: string, rest: seq<Token>)
    requires s != "" && !First(s).Comment? && Canonical(rest)
    requires var u := s[|TextOf(First(s))|..]; (!StartsSlash(u) ==> !IsSlash(rest)) && (u == "" ==> rest == [])
    ensures Canonical([First(s)] + rest)
    ensures !StartsSlash(s) ==> !IsSlash([First(s)] + rest)
  {
    var t := First(s);
    assert ([t] + rest)[1..] == rest;
    if t.Str? {
      StringRestWhole(s[1..]);
      assert t.text[1..] == s[1..][..StringRest(s[1..])];
    }
  }

  predicate StartsSlash(s: string) {
    s != "" && (s[0] == '/' || s[0] == '*')
  }

  /** ONLY COMMENTS GO. The scan splits the text into tokens that make it up again, drops the
      comments, and what is left reads as the same characters and the same strings, word for
      word; so scanning it again changes nothing. */
  lemma OnlyCommentsGo(s: string)
    ensures Flat(Lex(s)) == s
    ensures var out := Kept(s);
      && Lex(out) == NoComments(Lex(s))
      && StringsIn(Lex(out)) == StringsIn(Lex(s))
      && Kept(out) == out
  {
    LexIsAll(s);
    ScanIsCanonical(s);
    LexFlat(NoComments(Lex(s)));
    SameStrings(Lex(s));
    NoneLeft(Lex(s));
  }

  lemma {:induction false} SameStrings(ts: seq<Token>)
    ensures StringsIn(NoComments(ts)) == StringsIn(ts)
  {
    if ts != [] {
      SameStrings(ts[1..]);
      assert ts == [ts[0]] + ts[1..];
      NoCommentsCons(ts[0], ts[1..]);
      StringsCons(ts[0], ts[1..]);
      if ts[0].Comment? { assert [] + NoComments(ts[1..]) == NoComments(ts[1..]); } else { StringsCons(ts[0], NoComments(ts[1..])); }
    }
  }

  lemma {:induction false} NoneLeft(ts: seq<Token>)
    ensures NoComments(NoComments(ts)) == NoComments(ts)
  {
    if ts != [] {
      NoneLeft(ts[1..]);
      assert ts == [ts[0]] + ts[1..];
      NoCommentsCons(ts[0], ts[1..]);
      if ts[0].Comment? { assert [] + NoComments(ts[1..]) == NoComments(ts[1..]); } else { NoCommentsCons(ts[0], NoComments(ts[1..])); }
    }
  }

  // ---------- trailing commas ----------

  predicate IsCloser(c: char) {
    c == '}' || c == ']'
  }

  /** Blanks, then a closing bracket. */
  predicate CloserAfter(s: string) {
    s != "" && (IsCloser(s[0]) || (IsSpace(s[0]) && CloserAfter(s[1..])))
  }

  /** The final replacement: every comma before a closer goes, in strings too. */
  function DropCommas(s: string): string {
    if s == "" then ""
    else (if s[0] == ',' && CloserAfter(s[1..]) then "" else [s[0]]) + DropCommas(s[1..])
  }

  /** The text handed to JSON.parse. */
  function Cleaned(s: string): string {
    DropCommas(Kept(s))
  }

  /** The same replacement, token by token. */
  function DropTokens(ts: seq<Token>): seq<Token> {
    if ts == [] then []
    else
      (match ts[0]
       case Str(t) => [Str(DropCommas(t))]
       case Chr(c) => if c == ',' && CloserAfter(Flat(ts[1..])) then [] else [Chr(c)]
       case Comment(t) => [Comment(t)])
      + DropTokens(ts[1..])
  }

  /** What follows a closed string cannot make a comma in it a trailing one. */
  lemma {:induction false} CloserInString(u: string, v: string)
    requires ClosedRest(u)
    ensures CloserAfter(u + v) == CloserAfter(u)
    decreases |u|
  {
    assert (u + v)[0] == u[0];
    if IsSpace(u[0]) {
      assert (u + v)[1..] == u[1..] + v;
      CloserInString(u[1..], v);
    }
  }

  lemma DropCons(c: char, t: string)
    ensures DropCommas([c] + t) == (if c == ',' && CloserAfter(t) then "" else [c]) + DropCommas(t)
  {
    assert ([c] + t)[1..] == t;
  }

  lemma DropPair(x: char, w: string)
    ensures DropCommas(['\\', x] + w) == (if x == ',' && CloserAfter(w) then ['\\'] else ['\\', x]) + DropCommas(w)
  {
    hide DropCommas, CloserAfter;
    assert ['\\', x] + w == ['\\'] + ([x] + w);
    DropCons('\\', [x] + w);
    DropCons(x, w);
    assert ['\\'] + ("" + DropCommas(w)) == ['\\'] + DropCommas(w);
    assert ['\\'] + ([x] + DropCommas(w)) == ['\\', x] + DropCommas(w);
  }

  lemma ClosedCons(c: char, t: string)
    requires c != '"' && c != '\\'
    ensures ClosedRest([c] + t) <==> ClosedRest(t)
  {
    assert ([c] + t)[1..] == t;
  }

  lemma ClosedPair(c: char, t: string)
    ensures ClosedRest(['\\', c] + t) <==> ClosedRest(t)
  {
    assert (['\\', c] + t)[2..] == t;
  }

  lemma Assoc(a: string, b: string, c: string)
    ensures (a + b) + c == a + (b + c)
  {
  }

  /** What dropping commas makes of a closed string with v after it. */
  ghost predicate DropsInside(u: string, v: string) {
    DropCommas(u + v) == DropCommas(u) + DropCommas(v) && ClosedRest(DropCommas(u))
  }

  lemma DropPlain(c: char, t: string, v: string)
    requires c != '"' && c != '\\' && DropsInside(t, v) && CloserAfter(t + v) == CloserAfter(t)
    ensures DropsInside([c] + t, v)
  {
    hide DropCommas, CloserAfter, ClosedRest;
    Assoc([c], t, v);
    DropCons(c, t);
    DropCons(c, t + v);
    ClosedCons(c, DropCommas(t));
    var kept := if c == ',' && CloserAfter(t) then "" else [c];
    Assoc(kept, DropCommas(t), DropCommas(v));
    assert "" + DropCommas(t) == DropCommas(t);
  }

  /** A backslash and what it escapes: if that is a comma that goes, a blank or a closer is
      escaped in its place. */
  lemma DropEscaped(x: char, w: string, v: string)
    requires DropsInside(w, v) && CloserAfter(w + v) == CloserAfter(w)
    ensures DropsInside(['\\', x] + w, v)
  {
    if CloserAfter(w) { CloserFirst(w); }
    hide DropCommas, CloserAfter, ClosedRest;
    Assoc(['\\', x], w, v);
    DropPair(x, w);
    DropPair(x, w + v);
    var kept := if x == ',' && CloserAfter(w) then ['\\'] else ['\\', x];
    Assoc(kept, DropCommas(w), DropCommas(v));
    if x == ',' && CloserAfter(w) {
      ClosedCons(w[0], DropCommas(w[1..]));
      ClosedPair(w[0], DropCommas(w[1..]));
      assert ['\\'] + ([w[0]] + DropCommas(w[1..])) == ['\\', w[0]] + DropCommas(w[1..]);
    } else {
      ClosedPair(x, DropCommas(w));
    }
  }

  lemma CloserFirst(w: string)
    requires CloserAfter(w)
    ensures w != "" && w[0] != '"' && w[0] != '\\' && w[0] != ','
    ensures DropCommas(w) == [w[0]] + DropCommas(w[1..])
  {
  }

  /** Dropping commas works on a closed string as if nothing followed it, and leaves it closed. */
  lemma {:induction false} DropInString(u: string, v: string)
    requires ClosedRest(u)
    ensures DropsInside(u, v)
    decreases |u|
  {
    if u[0] == '"' {
      assert u == "\"";
      DropQuote(v);
    } else if u[0] == '\\' {
      var x, w := u[1], u[2..];
      DropInString(w, v);
      CloserInString(w, v);
      DropEscaped(x, w, v);
      assert u == ['\\', x] + w;
    } else {
      var c, t := u[0], u[1..];
      DropInString(t, v);
      CloserInString(t, v);
      DropPlain(c, t, v);
      assert u == [c] + t;
    }
  }

  lemma DropQuote(v: string)
    ensures DropsInside("\"", v)
  {
    DropCons('"', v);
    DropCons('"', "");
    assert "\"" + "" == "\"";
    assert DropCommas("\"") == "\"";
  }

  predicate Whole(u: string) {
    StringRest(u) == |u|
  }

  lemma WholeCons(c: char, t: string)
    requires c != '"' && c != '\\'
    ensures Whole([c] + t) <==> Whole(t)
  {
    assert ([c] + t)[1..] == t;
  }

  lemma WholePair(c: char, t: string)
    ensures Whole(['\\', c] + t) <==> Whole(t)
  {
    assert (['\\', c] + t)[2..] == t;
  }

  /** A string that runs to the end of the text still does. */
  lemma {:induction false} WholeStays(u: string)
    requires Whole(u)
    ensures Whole(DropCommas(u))
    decreases |u|
  {
    if u == "" || u == "\\" || u[0] == '"' {
      assert u != "" ==> u == [u[0]] && u[1..] == "";
    } else if u[0] == '\\' {
      var x, w := u[1], u[2..];
      assert u == ['\\', x] + w;
      WholePair(x, w);
      WholeStays(w);
      WholeEscaped(x, w);
    } else {
      var c, t := u[0], u[1..];
      assert u == [c] + t;
      WholeCons(c, t);
      WholeStays(t);
      DropCons(c, t);
      WholeCons(c, DropCommas(t));
      assert "" + DropCommas(t) == DropCommas(t);
    }
  }

  lemma WholeEscaped(x: char, w: string)
    requires Whole(DropCommas(w))
    ensures Whole(DropCommas(['\\', x] + w))
  {
    if CloserAfter(w) { CloserFirst(w); }
    hide DropCommas, CloserAfter, Whole;
    DropPair(x, w);
    if x == ',' && CloserAfter(w) {
      WholeCons(w[0], DropCommas(w[1..]));
      WholePair(w[0], DropCommas(w[1..]));
      assert ['\\'] + ([w[0]] + DropCommas(w[1..])) == ['\\', w[0]] + DropCommas(w[1..]);
    } else {
      WholePair(x, DropCommas(w));
    }
  }

  lemma DropTokensCons(t: Token, ts: seq<Token>)
    ensures DropTokens([t] + ts) ==
      (match t
       case Str(x) => [Str(DropCommas(x))]
       case Chr(c) => if c == ',' && CloserAfter(Flat(ts)) then [] else [Chr(c)]
       case Comment(x) => [Comment(x)]) + DropTokens(ts)
  {
    hide DropCommas, CloserAfter, Flat;
    assert ([t] + ts)[1..] == ts;
  }

  /** A whole string with its quote, or the rest of the text as one. */
  lemma DropString(t: string, v: string)
    requires IsString(t) && (v == "" || IsClosed(t))
    ensures DropCommas(t + v) == DropCommas(t) + DropCommas(v)
    ensures IsString(DropCommas(t)) && (IsClosed(t) ==> IsClosed(DropCommas(t)))
  {
    var u := t[1..];
    assert t == ['"'] + u;
    DropCons('"', u);
    Assoc(['"'], u, v);
    DropCons('"', u + v);
    WholeStays(u);
    if IsClosed(t) { DropInString(u, v); } else { assert u + v == u; }
    hide DropCommas, StringRest, ClosedRest;
    var d := DropCommas(u);
    assert (['"'] + d)[1..] == d;
    assert v == "" ==> DropCommas(v) == "" by { NothingDropped(); }
    Assoc(['"'], d, DropCommas(v));
  }

  lemma NothingDropped()
    ensures DropCommas("") == ""
  {
  }

  /** The replacement works token by token. */
  lemma {:induction false} DropFlat(ts: seq<Token>)
    requires Canonical(ts)
    ensures DropCommas(Flat(ts)) == Flat(DropTokens(ts))
  {
    if ts != [] {
      var t, rest := ts[0], ts[1..];
      assert ts == [t] + rest;
      CanonicalTail(ts);
      DropFlat(rest);
      FlatCons(t, rest);
      DropTokensCons(t, rest);
      FlatNone(rest);
      hide Flat, DropCommas, DropTokens, CloserAfter;
      match t
      case Chr(c) =>
        DropCons(c, Flat(rest));
        if c == ',' && CloserAfter(Flat(rest)) {
          assert "" + DropCommas(Flat(rest)) == DropCommas(Flat(rest)) && [] + DropTokens(rest) == DropTokens(rest);
        } else {
          FlatCons(t, DropTokens(rest));
        }
      case Str(x) =>
        DropString(x, Flat(rest));
        FlatCons(Str(DropCommas(x)), DropTokens(rest));
    }
  }

  /** What is left still reads as these tokens. */
  lemma {:induction false} DropCanonical(ts: seq<Token>)
    requires Canonical(ts)
    ensures Canonical(DropTokens(ts)) && (!IsSlash(ts) ==> !IsSlash(DropTokens(ts))) && (ts == [] ==> DropTokens(ts) == [])
  {
    if ts != [] {
      var t, rest := ts[0], ts[1..];
      assert ts == [t] + rest;
      CanonicalTail(ts);
      DropCanonical(rest);
      DropTokensCons(t, rest);
      hide DropTokens, DropCommas;
      match t
      case Chr(c) =>
        if c == ',' && CloserAfter(Flat(rest)) {
          CloserIsToken(rest);
          assert [] + DropTokens(rest) == DropTokens(rest);
        } else {
          assert ([t] + DropTokens(rest))[1..] == DropTokens(rest);
        }
      case Str(x) =>
        DropString(x, "");
        assert ([Str(DropCommas(x))] + DropTokens(rest))[1..] == DropTokens(rest);
    }
  }

  lemma CloserIsToken(ts: seq<Token>)
    requires Canonical(ts) && CloserAfter(Flat(ts))
    ensures !IsSlash(ts)
  {
    if ts != [] { FlatStart(ts); }
  }

  function DropEach(ss: seq<string>): seq<string> {
    seq(|ss|, i requires 0 <= i < |ss| => DropCommas(ss[i]))
  }

  lemma {:induction false} DropStrings(ts: seq<Token>)
    ensures StringsIn(DropTokens(ts)) == DropEach(StringsIn(ts))
  {
    if ts != [] {
      var t, rest := ts[0], ts[1..];
      assert ts == [t] + rest;
      DropStrings(rest);
      StringsCons(t, rest);
      DropTokensCons(t, rest);
      hide StringsIn, DropTokens, DropCommas;
      match t
      case Chr(c) =>
        if c == ',' && CloserAfter(Flat(rest)) {
          assert [] + DropTokens(rest) == DropTokens(rest);
        } else {
          StringsCons(t, DropTokens(rest));
        }
        assert [] + StringsIn(DropTokens(rest)) == StringsIn(DropTokens(rest)) && [] + StringsIn(rest) == StringsIn(rest);
      case Str(x) => StringsCons(Str(DropCommas(x)), DropTokens(rest));
      case Comment(_) =>
        StringsCons(t, DropTokens(rest));
        assert [] + StringsIn(DropTokens(rest)) == StringsIn(DropTokens(rest)) && [] + StringsIn(rest) == StringsIn(rest);
    }
  }

  /** The text holds a comma, blanks, and a closing bracket. */
  predicate HasTrailingComma(t: string) {
    exists i :: 0 <= i < |t| && t[i] == ',' && CloserAfter(t[i + 1..])
  }

  lemma {:induction false} DropSameIff(t: string)
    ensures |DropCommas(t)| <= |t| && (DropCommas(t) == t <==> !HasTrailingComma(t))
  {
    if t != "" {
      var c, u := t[0], t[1..];
      assert t == [c] + u;
      DropSameIff(u);
      DropCons(c, u);
      assert HasTrailingComma(t) <==> (c == ',' && CloserAfter(u)) || HasTrailingComma(u) by { TrailingCons(c, u); }
      if !(c == ',' && CloserAfter(u)) {
        assert DropCommas(t) == [c] + DropCommas(u) && ([c] + DropCommas(u))[1..] == DropCommas(u) && t[1..] == u;
      }
    }
  }

  lemma TrailingCons(c: char, u: string)
    ensures HasTrailingComma([c] + u) <==> (c == ',' && CloserAfter(u)) || HasTrailingComma(u)
  {
    var t := [c] + u;
    assert t[1..] == u;
    if i :| 0 <= i < |t| && t[i] == ',' && CloserAfter(t[i + 1..]) {
      if i > 0 { assert u[i - 1] == ',' && u[i..] == t[i + 1..]; }
    }
    if c == ',' && CloserAfter(u) { assert t[0] == ',' && CloserAfter(t[1..]); }
    if i :| 0 <= i < |u| && u[i] == ',' && CloserAfter(u[i + 1..]) {
      assert t[i + 1] == ',' && t[i + 2..] == u[i + 1..];
    }
  }

  /** WHEN STRINGS ARE SAFE. The strings JSON.parse is handed are those of the text, each with
      its own trailing commas dropped too; so they are the same strings if and only if none
      of them holds a comma, blanks and a closing bracket. */
  lemma StringsSafeIff(s: string)
    ensures StringsIn(Lex(Cleaned(s))) == DropEach(StringsIn(Lex(s)))
    ensures StringsIn(Lex(Cleaned(s))) == StringsIn(Lex(s))
      <==> forall t :: t in StringsIn(Lex(s)) ==> !HasTrailingComma(t)
  {
    var ts := NoComments(Lex(s));
    ScanIsCanonical(s);
    DropFlat(ts);
    DropCanonical(ts);
    LexFlat(DropTokens(ts));
    DropStrings(ts);
    SameStrings(Lex(s));
    var ss := StringsIn(Lex(s));
    forall i | 0 <= i < |ss| ensures DropEach(ss)[i] == ss[i] <==> !HasTrailingComma(ss[i]) {
      DropSameIff(ss[i]);
    }
    hide HasTrailingComma, DropCommas, Lex, Flat, NoComments, DropTokens;
    assert DropEach(ss) == ss <==> forall i :: 0 <= i < |ss| ==> DropEach(ss)[i] == ss[i];
  }
}
