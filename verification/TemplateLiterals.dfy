/** Writing a text as a template literal (scripts/gen-app.ts, scripts/gen-brain-template.ts) and
    reading it back by section 12.9.6 of ECMA-262 (2023). */
module TemplateLiterals {
  // The code escapes with three replacements, one after the other; they are shown to be one pass
  // from left to right, and reading that pass back is shown to give the text, its line ends
  // normalized, and to meet no early end and no substitution on the way.

  import opened Options

  /** Replacing every occurrence of one character. */
  function ReplaceChar(s: string, c: char, put: string): string {
    if s == "" then "" else (if s[0] == c then put else [s[0]]) + ReplaceChar(s[1..], c, put)
  }

  predicate Substitution(s: string) {
    |s| >= 2 && s[0] == '$' && s[1] == '{'
  }

  /** Replacing every dollar sign before an opening brace. */
  function ReplaceSubstitutions(s: string): string {
    if s == "" then ""
    else if Substitution(s) then "\\${" + ReplaceSubstitutions(s[2..])
    else [s[0]] + ReplaceSubstitutions(s[1..])
  }

  /** toTemplateLiteral: three replacements, one after the other, between backticks. */
  function Escaped(s: string): string {
    ReplaceSubstitutions(ReplaceChar(ReplaceChar(s, '\\', "\\\\"), '`', "\\`"))
  }

  function ToTemplateLiteral(s: string): string {
    "`" + Escaped(s) + "`"
  }

  /** The same, left to right in one pass. */
  function OnePass(s: string): string {
    if s == "" then ""
    else if s[0] == '\\' then "\\\\" + OnePass(s[1..])
    else if s[0] == '`' then "\\`" + OnePass(s[1..])
    else if Substitution(s) then "\\${" + OnePass(s[2..])
    else [s[0]] + OnePass(s[1..])
  }

  /** What a backslash and the character after it stand for, when that is one character: the
      single-character escapes, and any character that is no escape. Line continuations and
      the numbered forms, which no written literal holds, are not read. */
  function Unescaped(c: char): Option<char> {
    match c
    case 'b' => Some(8 as char)
    case 't' => Some('\t')
    case 'n' => Some('\n')
    case 'v' => Some(11 as char)
    case 'f' => Some(12 as char)
    case 'r' => Some('\r')
    case _ => if '0' <= c <= '9' || c in {'x', 'u', '\n', '\r', 0x2028 as char, 0x2029 as char} then None else Some(c)
  }

  /** The text between the backticks as its template value. A bare backtick would end the
      literal and a bare substitution would start an expression; a carriage return, alone or
      before a newline, reads as a newline. */
  function Read(t: string): Option<string>
    decreases |t|
  {
    if t == "" then Some("")
    else if t[0] == '`' || Substitution(t) then None
    else if t[0] == '\\' then
      if |t| == 1 || Unescaped(t[1]).None? || Read(t[2..]).None? then None
      else Some([Unescaped(t[1]).value] + Read(t[2..]).value)
    else if t[0] == '\r' then
      var rest := Read(if |t| > 1 && t[1] == '\n' then t[2..] else t[1..]);
      if rest.None? then None else Some("\n" + rest.value)
    else
      var rest := Read(t[1..]);
      if rest.None? then None else Some([t[0]] + rest.value)
  }

  /** A whole literal: its first backtick opens it and its last one ends it. */
  function ReadLiteral(t: string): Option<string> {
    if |t| >= 2 && t[0] == '`' && t[|t| - 1] == '`' then Read(t[1..|t| - 1]) else None
  }

  // ---------- three passes are one ----------

  lemma {:induction false} ReplaceCons(c: char, s: string, x: char, put: string)
    ensures ReplaceChar([c] + s, x, put) == (if c == x then put else [c]) + ReplaceChar(s, x, put)
  {
    assert ([c] + s)[1..] == s;
  }

  function TwoPasses(s: string): string {
    ReplaceChar(ReplaceChar(s, '\\', "\\\\"), '`', "\\`")
  }

  /** What the first two replacements make of each character. */
  function Piece(c: char): string {
    if c == '\\' then "\\\\" else if c == '`' then "\\`" else [c]
  }

  lemma TwoPassesCons(s: string)
    requires s != ""
    ensures TwoPasses(s) == Piece(s[0]) + TwoPasses(s[1..])
  {
    var rest, c := s[1..], s[0];
    var once := ReplaceChar(rest, '\\', "\\\\");
    assert s == [c] + rest;
    ReplaceCons(c, rest, '\\', "\\\\");
    hide ReplaceChar;
    if c == '\\' {
      assert "\\\\" + once == ['\\'] + (['\\'] + once);
      ReplaceCons('\\', ['\\'] + once, '`', "\\`");
      ReplaceCons('\\', once, '`', "\\`");
      assert ['\\'] + (['\\'] + TwoPasses(rest)) == Piece(c) + TwoPasses(rest);
    } else {
      ReplaceCons(c, once, '`', "\\`");
    }
  }

  /** A brace stays where it was: only characters that are not braces grow. */
  lemma SecondChar(s: string)
    requires s != "" && s[0] == '$'
    ensures Substitution(TwoPasses(s)) <==> Substitution(s)
  {
    TwoPassesCons(s);
    if |s| > 1 { TwoPassesCons(s[1..]); } else { assert TwoPasses(s[1..]) == ""; }
  }

  lemma SubstitutionsCons(c: char, t: string)
    requires c != '$'
    ensures ReplaceSubstitutions([c] + t) == [c] + ReplaceSubstitutions(t)
  {
    assert ([c] + t)[1..] == t;
  }

  lemma SubstitutionsStep(t: string)
    requires t != ""
    ensures ReplaceSubstitutions(t) ==
      if Substitution(t) then ['\\', '$'] + (['{'] + ReplaceSubstitutions(t[2..]))
      else [t[0]] + ReplaceSubstitutions(t[1..])
  {
    if Substitution(t) {
      assert "\\${" + ReplaceSubstitutions(t[2..]) == ['\\', '$'] + (['{'] + ReplaceSubstitutions(t[2..]));
    }
  }

  lemma OnePassStep(s: string)
    requires s != ""
    ensures OnePass(s) ==
      if s[0] == '\\' || s[0] == '`' then ['\\', s[0]] + OnePass(s[1..])
      else if Substitution(s) then ['\\', '$'] + (['{'] + OnePass(s[2..]))
      else [s[0]] + OnePass(s[1..])
  {
    if Substitution(s) { assert "\\${" + OnePass(s[2..]) == ['\\', '$'] + (['{'] + OnePass(s[2..])); }
  }

  lemma EscapedIs(s: string)
    ensures Escaped(s) == ReplaceSubstitutions(TwoPasses(s))
  {
  }

  lemma EscapesOne(s: string)
    requires s != "" && (s[0] == '\\' || s[0] == '`')
    ensures Escaped(s) == ['\\', s[0]] + Escaped(s[1..])
  {
    hide Escaped, ReplaceSubstitutions, TwoPasses, Piece;
    var c, rest := s[0], TwoPasses(s[1..]);
    TwoPassesCons(s);
    EscapedIs(s);
    EscapedIs(s[1..]);
    PieceOfSpecial(c);
    Apart2('\\', c, rest);
    SubstitutionsCons('\\', [c] + rest);
    SubstitutionsCons(c, rest);
    Apart2('\\', c, Escaped(s[1..]));
  }

  lemma PieceOfSpecial(c: char)
    requires c == '\\' || c == '`'
    ensures Piece(c) == ['\\', c]
  {
  }

  lemma Apart2(a: char, c: char, t: string)
    ensures [a, c] + t == [a] + ([c] + t)
  {
  }

  lemma EscapesPair(s: string)
    requires Substitution(s)
    ensures Escaped(s) == ['\\', '$'] + (['{'] + Escaped(s[2..]))
  {
    TwoPassesCons(s);
    TwoPassesCons(s[1..]);
    EscapedIs(s);
    EscapedIs(s[2..]);
    SecondChar(s);
    SubstitutionsStep(TwoPasses(s));
    hide Escaped, ReplaceSubstitutions, TwoPasses;
    assert TwoPasses(s)[2..] == TwoPasses(s[2..]);
  }

  lemma EscapesPlain(s: string)
    requires s != "" && s[0] != '\\' && s[0] != '`' && !Substitution(s)
    ensures Escaped(s) == [s[0]] + Escaped(s[1..])
  {
    TwoPassesCons(s);
    EscapedIs(s);
    EscapedIs(s[1..]);
    if s[0] == '$' { SecondChar(s); }
    SubstitutionsStep(TwoPasses(s));
    hide Escaped, ReplaceSubstitutions, TwoPasses;
    assert TwoPasses(s)[1..] == TwoPasses(s[1..]);
  }

  /** THREE REPLACEMENTS ARE ONE PASS. */
  lemma {:induction false} EscapedIsOnePass(s: string)
    ensures Escaped(s) == OnePass(s)
    decreases |s|
  {
    if s == "" {
      assert Escaped("") == "" && OnePass("") == "";
    } else {
      OnePassStep(s);
      hide Escaped, OnePass;
      EscapedIsOnePass(s[1..]);
      if s[0] == '\\' || s[0] == '`' {
        EscapesOne(s);
      } else if Substitution(s) {
        EscapedIsOnePass(s[2..]);
        EscapesPair(s);
      } else {
        EscapesPlain(s);
      }
    }
  }

  // ---------- reading back ----------

  /** Carriage returns, alone or before a newline, as newlines. */
  function Normalized(s: string): string {
    if s == "" then ""
    else if s[0] == '\r' then "\n" + Normalized(if |s| > 1 && s[1] == '\n' then s[2..] else s[1..])
    else [s[0]] + Normalized(s[1..])
  }

  lemma {:induction false} NormalizedIff(s: string)
    ensures Normalized(s) == s <==> '\r' !in s
    ensures |Normalized(s)| <= |s|
    decreases |s|
  {
    if s != "" {
      assert s == [s[0]] + s[1..];
      if s[0] == '\r' {
        NormalizedIff(if |s| > 1 && s[1] == '\n' then s[2..] else s[1..]);
        assert Normalized(s)[0] == '\n';
      } else {
        NormalizedIff(s[1..]);
        assert Normalized(s)[1..] == Normalized(s[1..]);
      }
    }
  }

  lemma ReadEscape(c: char, t: string)
    requires Unescaped(c) == Some(c) && Read(t).Some?
    ensures Read(['\\', c] + t) == Some([c] + Read(t).value)
  {
    assert (['\\', c] + t)[2..] == t;
  }

  lemma ReadPlain(c: char, t: string)
    requires c != '\\' && c != '`' && c != '\r' && !Substitution([c] + t) && Read(t).Some?
    ensures Read([c] + t) == Some([c] + Read(t).value)
  {
    assert ([c] + t)[1..] == t;
  }

  lemma OnePassFirst(s: string)
    ensures s != "" ==> OnePass(s) != ""
    ensures OnePass(s) != "" && OnePass(s)[0] == '{' ==> s != "" && s[0] == '{'
    ensures s != "" && s[0] == '\n' ==> OnePass(s) == "\n" + OnePass(s[1..])
    ensures OnePass(s) != "" && OnePass(s)[0] == '\n' ==> s != "" && s[0] == '\n'
  {
  }

  lemma ReadReturn(u: string)
    requires Read(u).Some? && (u != "" && u[0] == '\n' ==> Read(u[1..]).Some?)
    ensures Read("\r" + u) == Some("\n" + Read(if u != "" && u[0] == '\n' then u[1..] else u).value)
  {
    var t := "\r" + u;
    assert t[1..] == u;
    if u != "" { assert t[2..] == u[1..]; }
  }

  lemma NormalizedStep(s: string)
    requires s != ""
    ensures Normalized(s) ==
      if s[0] == '\r' then "\n" + Normalized(if |s| > 1 && s[1] == '\n' then s[2..] else s[1..])
      else [s[0]] + Normalized(s[1..])
  {
  }

  /** READING GIVES THE TEXT BACK, with its line ends normalized. */
  lemma {:induction false} ReadsBack(s: string)
    ensures Read(OnePass(s)) == Some(Normalized(s))
    decreases |s|
  {
    if s != "" {
      var c, rest := s[0], s[1..];
      ReadsBack(rest);
      OnePassFirst(rest);
      OnePassStep(s);
      NormalizedStep(s);
      assert |s| > 1 ==> rest[1..] == s[2..] && rest[0] == s[1];
      hide OnePass, Read, Normalized;
      if c == '\\' || c == '`' {
        ReadEscape(c, OnePass(rest));
      } else if Substitution(s) {
        ReadsBack(s[2..]);
        ReadPlain('{', OnePass(s[2..]));
        ReadEscape('$', ['{'] + OnePass(s[2..]));
        NormalizedStep(rest);
        assert ['$'] + (['{'] + Normalized(s[2..])) == ['$'] + Normalized(rest);
      } else if c == '\r' {
        if rest != "" && rest[0] == '\n' {
          ReadsBack(s[2..]);
          assert OnePass(rest)[1..] == OnePass(s[2..]);
        }
        ReadReturn(OnePass(rest));
      } else {
        ReadPlain(c, OnePass(rest));
      }
    } else {
      assert Read("") == Some("");
    }
  }

  /** ROUND TRIP. A text written as a template literal reads back as itself if and only if it
      has no carriage return; with one it reads back with its line ends as newlines. */
  lemma LiteralRoundTrip(s: string)
    ensures ReadLiteral(ToTemplateLiteral(s)) == Some(Normalized(s))
    ensures ReadLiteral(ToTemplateLiteral(s)) == Some(s) <==> '\r' !in s
  {
    EscapedIsOnePass(s);
    ReadsBack(s);
    NormalizedIff(s);
    var t := ToTemplateLiteral(s);
    assert t[1..|t| - 1] == Escaped(s);
  }
}
