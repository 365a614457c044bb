/** A page's frontmatter as text: what is written, and what is read back (src/lib/wiki.ts). */
module Frontmatter {
  import opened Options
  import opened Texts

  // ---------- values ----------

  datatype Flat = Scalar(text: string) | List(items: seq<string>)

  /** A nested YAML value is kept as the lines under its key, with the `|` or `>` after it. */
  datatype Value = Plain(flat: Flat) | Block(indicator: string, raw: seq<string>)

  /** An object's properties, in the order they were first set. */
  datatype OrderedMap<V> = OrderedMap(at: map<string, V>, order: seq<string>)

  predicate Listed<V>(o: OrderedMap<V>) {
    && (forall i, j :: 0 <= i < j < |o.order| ==> o.order[i] != o.order[j])
    && (forall k :: k in o.at ==> k in o.order)
    && (forall k :: k in o.order ==> k in o.at)
  }

  type Ordered<V> = o: OrderedMap<V> | Listed(o) witness OrderedMap(map[], [])

  type Front = Ordered<Value>

  function NoFields(): Front {
    OrderedMap(map[], [])
  }

  function Get<V>(o: Ordered<V>, k: string): Option<V> {
    if k in o.at then Some(o.at[k]) else None
  }

  /** A key that is set keeps its place, and a new one goes last. */
  function Placed(order: seq<string>, k: string): seq<string> {
    if k in order then order else order + [k]
  }

  function Set<V>(o: Ordered<V>, k: string, v: V): (r: Ordered<V>)
    ensures r == OrderedMap(o.at[k := v], Placed(o.order, k))
  {
    assert Listed(OrderedMap(o.at[k := v], Placed(o.order, k)));
    OrderedMap(o.at[k := v], Placed(o.order, k))
  }

  /** A page as it is read: its frontmatter, empty when there is none, and its body. */
  datatype Page = Page(fm: Front, body: string)

  // ---------- characters ----------

  predicate IsWordChar(c: char) {
    'a' <= c <= 'z' || 'A' <= c <= 'Z' || '0' <= c <= '9' || c == '_' || c == '-'
  }

  /** What `.` does not match. */
  predicate IsLineEnd(c: char) {
    c in {'\n', '\r', '\U{2028}', '\U{2029}'}
  }

  predicate OnOneLine(s: string) {
    forall i :: 0 <= i < |s| ==> !IsLineEnd(s[i])
  }

  /** The length of the run of word characters a text starts with. */
  function WordRun(s: string): (n: nat)
    ensures n <= |s| && (forall i :: 0 <= i < n ==> IsWordChar(s[i])) && (n < |s| ==> !IsWordChar(s[n]))
  {
    if s == "" || !IsWordChar(s[0]) then 0 else 1 + WordRun(s[1..])
  }

  /** `word:` at the start. */
  predicate WordColon(s: string) {
    var n := WordRun(s);
    0 < n < |s| && s[n] == ':'
  }

  /** `word:` and a blank at the start, which reads as a mapping. */
  predicate WordColonBlank(s: string) {
    WordColon(s) && WordRun(s) + 1 < |s| && IsSpace(s[WordRun(s) + 1])
  }

  // ---------- writing ----------

  /** Each line break becomes one blank. */
  function OneSpace(s: string): string {
    if s == "" then ""
    else if |s| > 1 && s[0] == '\r' && s[1] == '\n' then " " + OneSpace(s[2..])
    else if s[0] == '\n' then " " + OneSpace(s[1..])
    else [s[0]] + OneSpace(s[1..])
  }

  function FlatText(s: string): string {
    Trim(OneSpace(s))
  }

  const QUOTED_STARTS: string := "'\"-?:[]{}#&*!|>%@`"

  /** `t` stands somewhere in `s`. */
  predicate Occurs(s: string, t: string) {
    t <= s || (s != "" && Occurs(s[1..], t))
  }

  predicate NeedsQuoting(s: string) {
    || s == ""
    || IsSpace(s[0]) || s[0] in QUOTED_STARTS
    || Occurs(s, ": ") || s[|s| - 1] == ':'
    || Occurs(s, " #") || IsSpace(s[|s| - 1])
  }

  function EscapeChar(c: char, s: string): string {
    if s == "" then ""
    else (if s[0] == c then ['\\', c] else [s[0]]) + EscapeChar(c, s[1..])
  }

  function Quoted(s: string): string {
    "\"" + EscapeChar('"', EscapeChar('\\', s)) + "\""
  }

  /** scalar. */
  function ScalarText(s: string): string {
    var flat := FlatText(s);
    if NeedsQuoting(flat) then Quoted(flat) else flat
  }

  function ItemLines(items: seq<string>): (ls: seq<string>)
    ensures |ls| == |items|
    ensures forall i :: 0 <= i < |items| ==> ls[i] == "  - " + ScalarText(items[i])
  {
    seq(|items|, i requires 0 <= i < |items| => "  - " + ScalarText(items[i]))
  }

  /** What follows a key and its colon on the same line, and the lines under it. */
  function HeadOf(v: Value): string {
    match v
    case Block(indicator, _) => if indicator == "" then "" else " " + indicator
    case Plain(List(items)) => if items == [] then " []" else ""
    case Plain(Scalar(s)) => " " + ScalarText(s)
  }

  function TailOf(v: Value): seq<string> {
    match v
    case Block(_, raw) => raw
    case Plain(List(items)) => ItemLines(items)
    case Plain(Scalar(_)) => []
  }

  /** The lines of one entry; a key may itself have several. */
  function EntryLines(k: string, v: Value): seq<string> {
    Lines(k + ":" + HeadOf(v)) + TailOf(v)
  }

  function BlockLines(fm: Front, n: nat): seq<string>
    requires n <= |fm.order|
  {
    if n == 0 then []
    else BlockLines(fm, n - 1) + EntryLines(fm.order[n - 1], fm.at[fm.order[n - 1]])
  }

  function JoinLines(ls: seq<string>): string
    requires |ls| >= 1
  {
    if |ls| == 1 then ls[0] else ls[0] + ("\n" + JoinLines(ls[1..]))
  }

  /** A page drops the blank lines its body starts with. */
  function DropNewlines(s: string): string {
    if s != "" && s[0] == '\n' then DropNewlines(s[1..]) else s
  }

  /** withFrontmatter. */
  function PageText(page: Page): string {
    JoinLines(["---"] + BlockLines(page.fm, |page.fm.order|) + ["---"]) + "\n\n" + DropNewlines(page.body)
  }

  // ---------- reading ----------

  /** A line that sets a key: the key, and the rest of the line. */
  function KeyLine(line: string): Option<(string, string)> {
    if !WordColon(line) then None
    else
      var n := WordRun(line);
      var rest := TrimStart(line[n + 1..]);
      if OnOneLine(rest) then Some((line[..n], rest)) else None
  }

  /** The text up to the first comment: a blank, a hash and a blank. */
  function BeforeComment(s: string): string {
    if s == "" || CommentHere(s) then "" else [s[0]] + BeforeComment(s[1..])
  }

  predicate CommentHere(s: string) {
    |s| >= 3 && IsSpace(s[0]) && s[1] == '#' && IsSpace(s[2])
  }

  /** In double quotes a backslash escapes a quote or a backslash. */
  function Unescape(s: string): string {
    if s == "" then ""
    else if |s| > 1 && s[0] == '\\' && (s[1] == '"' || s[1] == '\\') then [s[1]] + Unescape(s[2..])
    else [s[0]] + Unescape(s[1..])
  }

  /** In single quotes only a quote is unescaped. */
  function UnescapeQuotes(s: string): string {
    if s == "" then ""
    else if |s| > 1 && s[0] == '\\' && s[1] == '"' then "\"" + UnescapeQuotes(s[2..])
    else [s[0]] + UnescapeQuotes(s[1..])
  }

  predicate Between(s: string, q: char) {
    |s| >= 2 && s[0] == q && s[|s| - 1] == q
  }

  function StripQuotes(v: string): string {
    var t := Trim(v);
    if Between(t, '"') then Unescape(t[1..|t| - 1])
    else if Between(t, '\'') then UnescapeQuotes(t[1..|t| - 1])
    else t
  }

  function CommaParts(s: string): (r: seq<string>)
    ensures |r| >= 1
  {
    if s == "" then [""]
    else
      var rest := CommaParts(s[1..]);
      if s[0] == ',' then [""] + rest else [[s[0]] + rest[0]] + rest[1..]
  }

  function StripEach(ss: seq<string>): (r: seq<string>)
    ensures |r| == |ss| && forall i :: 0 <= i < |ss| ==> r[i] == StripQuotes(ss[i])
  {
    seq(|ss|, i requires 0 <= i < |ss| => StripQuotes(ss[i]))
  }

  /** The value on a key's own line. */
  function RestValue(rest: string): Value {
    var cleaned := Trim(BeforeComment(rest));
    if cleaned != "" && cleaned[0] == '[' && cleaned[|cleaned| - 1] == ']' then
      var inner := if |cleaned| > 1 then Trim(cleaned[1..|cleaned| - 1]) else "";
      Plain(List(if inner == "" then [] else StripEach(CommaParts(inner))))
    else Plain(Scalar(StripQuotes(cleaned)))
  }

  /** Nothing on the key's line but a block indicator. */
  predicate BareRest(rest: string) {
    Trim(rest) in {"", "|", ">"}
  }

  predicate Indented(line: string) {
    line != "" && IsSpace(line[0]) && Trim(line) != ""
  }

  function RunLength(ls: seq<string>): (n: nat)
    ensures n <= |ls| && (forall i :: 0 <= i < n ==> Indented(ls[i])) && (n < |ls| ==> !Indented(ls[n]))
  {
    if ls == [] || !Indented(ls[0]) then 0 else 1 + RunLength(ls[1..])
  }

  /** A list item: what follows its dash, when that is not a mapping. After two blanks a mapping
      is taken for text as well. */
  predicate SimpleItem(line: string) {
    var t := TrimStart(line);
    && |t| < |line| && |t| > 1 && t[0] == '-' && IsSpace(t[1])
    && ((|t| > 2 && IsSpace(t[2])) || !WordColonBlank(t[2..]))
  }

  function ItemText(line: string): string {
    var t := TrimStart(line);
    if |t| > 1 then StripQuotes(t[2..]) else ""
  }

  function ItemTexts(ls: seq<string>): (r: seq<string>)
    ensures |r| == |ls| && forall i :: 0 <= i < |ls| ==> r[i] == ItemText(ls[i])
  {
    seq(|ls|, i requires 0 <= i < |ls| => ItemText(ls[i]))
  }

  predicate AllSimple(ls: seq<string>) {
    forall i :: 0 <= i < |ls| ==> SimpleItem(ls[i])
  }

  /** The value under a bare key. */
  function RunValue(rest: string, run: seq<string>): Value {
    if run == [] then Plain(Scalar(""))
    else if AllSimple(run) then Plain(List(ItemTexts(run)))
    else Block(Trim(rest), run)
  }

  /** The lines of the block, read one after the other; other lines are passed over. */
  function ReadLines(ls: seq<string>, fm: Front): Front
    decreases |ls|
  {
    if ls == [] then fm
    else
      match KeyLine(ls[0])
      case None => ReadLines(ls[1..], fm)
      case Some((k, rest)) =>
        if BareRest(rest) then
          var n := RunLength(ls[1..]);
          ReadLines(ls[1 + n..], Set(fm, k, RunValue(rest, ls[1..1 + n])))
        else ReadLines(ls[1..], Set(fm, k, RestValue(rest)))
  }

  predicate IsFence(line: string) {
    |line| >= 3 && line[..3] == "---"
  }

  /** The first fence from line i on. */
  function FenceAt(ls: seq<string>, i: nat): (n: nat)
    requires i <= |ls|
    ensures i <= n <= |ls| && (forall j :: i <= j < n ==> !IsFence(ls[j])) && (n < |ls| ==> IsFence(ls[n]))
    decreases |ls| - i
  {
    if i == |ls| || IsFence(ls[i]) then i else FenceAt(ls, i + 1)
  }

  function DropOne(s: string): string {
    if s != "" && s[0] == '\n' then s[1..] else s
  }

  function BodyAfter(rest: seq<string>): string {
    if rest == [] then "" else DropOne(JoinLines(rest))
  }

  /** Three dashes between blanks, the last of at least four before them a newline: taken for a
      closing fence. */
  predicate OddFence(md: string) {
    var t := TrimStart(md);
    Trim(md) == "---" && |md| - |t| >= 4 && md[|md| - |t| - 1] == '\n'
  }

  /** parseFrontmatter. */
  function ReadPage(md: string): Page {
    var ls := Lines(md);
    if ls[0] == "---" && |ls| > 1 then
      var n := FenceAt(ls, 1);
      if n == |ls| then Page(NoFields(), md) else Page(ReadLines(ls[1..n], NoFields()), BodyAfter(ls[n + 1..]))
    else if OddFence(md) then Page(NoFields(), BodyAfter(Lines(TrimStart(md))[1..]))
    else Page(NoFields(), md)
  }

  /** The page as the next reader finds it. */
  function Reread(page: Page): Page {
    ReadPage(PageText(page))
  }

  // ---------- the loops ----------

  method ItemTextLines(items: seq<string>) returns (lines: seq<string>)
    ensures lines == ItemLines(items)
  {
    hide ScalarText;
    lines := [];
    for j := 0 to |items|
      invariant |lines| == j && forall m :: 0 <= m < j ==> lines[m] == "  - " + ScalarText(items[m])
    {
      lines := lines + ["  - " + ScalarText(items[j])];
    }
  }

  method EntryTextLines(k: string, v: Value) returns (lines: seq<string>)
    ensures lines == EntryLines(k, v)
  {
    hide ScalarText, Lines;
    match v {
      case Block(indicator, raw) =>
        lines := Lines(k + ":" + (if indicator == "" then "" else " " + indicator)) + raw;
      case Plain(List(items)) =>
        var tail := ItemTextLines(items);
        lines := Lines(k + ":" + (if items == [] then " []" else "")) + tail;
      case Plain(Scalar(s)) =>
        lines := Lines(k + ":" + (" " + ScalarText(s))) + [];
    }
  }

  /** serializeFrontmatter, entry by entry: the lines between and including the fences. */
  method SerializeFrontmatter(fm: Front) returns (lines: seq<string>)
    ensures lines == ["---"] + BlockLines(fm, |fm.order|) + ["---"]
  {
    hide EntryLines;
    lines := ["---"];
    for i := 0 to |fm.order|
      invariant lines == ["---"] + BlockLines(fm, i)
    {
      var entry := EntryTextLines(fm.order[i], fm.at[fm.order[i]]);
      assert BlockLines(fm, i + 1) == BlockLines(fm, i) + entry;
      lines := lines + entry;
    }
    lines := lines + ["---"];
  }

  /** The indented lines from a place on. */
  method TakeRun(lines: seq<string>, at: nat) returns (run: seq<string>)
    requires at <= |lines|
    ensures |run| == RunLength(lines[at..]) && at + |run| <= |lines| && run == lines[at..at + |run|]
  {
    hide Indented;
    run := [];
    var i := at;
    while i < |lines| && Indented(lines[i])
      invariant at <= i <= |lines| && run == lines[at..i]
      invariant RunLength(lines[at..]) == i - at + RunLength(lines[i..])
    {
      assert lines[i..][1..] == lines[i + 1..];
      run := run + [lines[i]];
      i := i + 1;
    }
  }

  /** The line loop of parseFrontmatter: a bare key takes the indented lines under it along. */
  method ParseLines(lines: seq<string>) returns (fm: Front)
    ensures fm == ReadLines(lines, NoFields())
  {
    hide KeyLine, BareRest, RestValue, RunValue, Indented, ReadLines;
    fm := NoFields();
    var i := 0;
    assert lines[0..] == lines;
    while i < |lines|
      invariant i <= |lines| && ReadLines(lines[i..], fm) == ReadLines(lines, NoFields())
    {
      ReadFrom(lines, i, fm);
      match KeyLine(lines[i]) {
        case None =>
          i := i + 1;
        case Some((k, rest)) =>
          if BareRest(rest) {
            var run := TakeRun(lines, i + 1);
            fm := Set(fm, k, RunValue(rest, run));
            i := i + 1 + |run|;
          } else {
            fm := Set(fm, k, RestValue(rest));
            i := i + 1;
          }
      }
    }
    NothingLeft(fm);
    assert lines[i..] == [];
  }

  lemma NothingLeft(fm: Front)
    ensures ReadLines([], fm) == fm
  {
  }

  lemma ReadFrom(lines: seq<string>, i: nat, fm: Front)
    requires i < |lines|
    ensures ReadLines(lines[i..], fm) ==
      match KeyLine(lines[i])
      case None => ReadLines(lines[i + 1..], fm)
      case Some((k, rest)) =>
        if BareRest(rest) then
          var n := RunLength(lines[i + 1..]);
          ReadLines(lines[i + 1 + n..], Set(fm, k, RunValue(rest, lines[i + 1..i + 1 + n])))
        else ReadLines(lines[i + 1..], Set(fm, k, RestValue(rest)))
  {
    hide KeyLine, BareRest, RestValue, RunValue, Indented;
    var ls := lines[i..];
    assert ls[0] == lines[i] && ls[1..] == lines[i + 1..];
    var n := RunLength(lines[i + 1..]);
    assert ls[1 + n..] == lines[i + 1 + n..] && ls[1..1 + n] == lines[i + 1..i + 1 + n];
  }

  /** parseFrontmatter. */
  method ParseFrontmatter(md: string) returns (page: Page)
    ensures page == ReadPage(md)
  {
    hide ReadLines, OddFence, IsFence;
    var ls := Lines(md);
    if ls[0] == "---" && |ls| > 1 {
      var n := 1;
      while n < |ls| && !IsFence(ls[n])
        invariant 1 <= n <= |ls| && FenceAt(ls, 1) == FenceAt(ls, n)
      {
        n := n + 1;
      }
      if n == |ls| {
        return Page(NoFields(), md);
      }
      var fm := ParseLines(ls[1..n]);
      return Page(fm, BodyAfter(ls[n + 1..]));
    }
    if OddFence(md) {
      return Page(NoFields(), BodyAfter(Lines(TrimStart(md))[1..]));
    }
    return Page(NoFields(), md);
  }
}
