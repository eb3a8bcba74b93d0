/**
 The Muse installer's frontmatter rewrite (`muse_frontmatter`), stage by stage: records as awk
 reads them, the description program, the three `tr` passes, unquoting, the byte cap, escaping.
 This is the reference the Go rewrite has to match byte for byte.
 */
module MuseShell {
  import opened Text

  const MAX_BYTES := 1024

  // ---- records -----------------------------------------------------------------------------

  /** `tail -n +(n+1)`. */
  function TailLines(s: string, n: nat): string
    decreases n
  {
    if n == 0 then s
    else if LineEnd(s) == |s| then []
    else TailLines(s[LineEnd(s) + 1..], n - 1)
  }

  predicate FenceLine(l: string) {
    l == "---" || l == "---\r"
  }

  /** Index of the first fence at or after `i`, or the number of lines. */
  function NextFence(lines: seq<string>, i: nat): (r: nat)
    requires i <= |lines|
    ensures i <= r <= |lines|
    ensures r < |lines| ==> FenceLine(lines[r])
    ensures forall k :: i <= k < r ==> !FenceLine(lines[k])
    decreases |lines| - i
  {
    if i < |lines| && !FenceLine(lines[i]) then NextFence(lines, i + 1) else i
  }

  /** Line index of the closing fence, if the file starts with a closed block. */
  function ClosingFence(lines: seq<string>): (r: Option<nat>)
    ensures r.Some? ==> 1 <= r.value < |lines|
  {
    if lines == [] || !FenceLine(lines[0]) || NextFence(lines, 1) == |lines| then None
    else Some(NextFence(lines, 1))
  }

  // ---- the description program -------------------------------------------------------------

  predicate Blank(c: char) {
    c == ' ' || c == '\t'
  }

  function TrimLeft(s: string): string {
    if s != [] && Blank(s[0]) then TrimLeft(s[1..]) else s
  }

  function TrimRight(s: string): string {
    if s != [] && Blank(s[|s| - 1]) then TrimRight(s[..|s| - 1]) else s
  }

  function Trim(s: string): string {
    TrimRight(TrimLeft(s))
  }

  /** Removes from the first blank that is followed by `#`. */
  function StripComment(s: string): string {
    if |s| < 2 then s
    else if Blank(s[0]) && s[1] == '#' then []
    else [s[0]] + StripComment(s[1..])
  }

  function DropCR(l: string): string {
    if l != [] && l[|l| - 1] == '\r' then l[..|l| - 1] else l
  }

  function SkipIndicators(v: string): string {
    if v != [] && (v[0] == '-' || v[0] == '+' || '0' <= v[0] <= '9') then SkipIndicators(v[1..]) else v
  }

  /** A block scalar indicator, with an optional trailing comment. */
  predicate BlockIndicator(v: string) {
    && v != [] && (v[0] == '|' || v[0] == '>')
    && (var rest := SkipIndicators(v[1..]);
        rest == [] || (Blank(rest[0]) && TrimLeft(rest) != [] && TrimLeft(rest)[0] == '#'))
  }

  const KEY := "description:"

  datatype Scalar = Block | Quoted | Plain

  function ScalarOf(v: string): Scalar {
    if BlockIndicator(v) then Block
    else if v != [] && (v[0] == '"' || v[0] == '\'') then Quoted
    else Plain
  }

  function FirstPart(v: string): string {
    match ScalarOf(v)
    case Block => ""
    case Quoted => v
    case Plain => StripComment(v)
  }

  predicate Continues(l: string) {
    l == [] || Blank(l[0])
  }

  function ContinuationPart(l: string, kind: Scalar): string {
    if kind == Plain then StripComment(Trim(l)) else Trim(l)
  }

  /** The value of the description key: its first part, then its continuation lines. */
  function Folded(value: string, lines: seq<string>, kind: Scalar): string
    decreases |lines|
  {
    if lines == [] || !Continues(DropCR(lines[0])) then value
    else
      var part := ContinuationPart(DropCR(lines[0]), kind);
      Folded(if part == [] then value else value + " " + part, lines[1..], kind)
  }

  predicate HasKey(l: string) {
    At(DropCR(l), 0, KEY)
  }

  function KeyValue(l: string): string
    requires HasKey(l)
  {
    Trim(DropCR(l)[|KEY|..])
  }

  /** The first description key between the fences, wherever it stands. */
  function Description(lines: seq<string>): string
    decreases |lines|
  {
    if lines == [] then ""
    else if HasKey(lines[0]) then
      var v := KeyValue(lines[0]);
      Folded(FirstPart(v), lines[1..], ScalarOf(v))
    else Description(lines[1..])
  }

  /** The installer's awk program: its variables, and what it does with one record. */
  datatype Awk = Awk(state: nat, block: bool, quoted: bool, value: string)

  function AwkRecord(m: Awk, record: string): Awk {
    var l := DropCR(record);
    if m.state == 1 && Continues(l) then
      var line := if m.block || m.quoted then Trim(l) else StripComment(Trim(l));
      if line != "" then m.(value := m.value + " " + line) else m
    else
      var n := if m.state == 1 then m.(state := 2) else m;
      if n.state == 0 && At(l, 0, KEY) then
        var v := Trim(l[|KEY|..]);
        if BlockIndicator(v) then Awk(1, true, n.quoted, "")
        else if v != "" && v[0] in "\"'" then Awk(1, n.block, true, v)
        else Awk(1, n.block, n.quoted, StripComment(v))
      else n
  }

  function AwkRun(m: Awk, records: seq<string>): Awk
    decreases |records|
  {
    if records == [] then m else AwkRun(AwkRecord(m, records[0]), records[1..])
  }

  function AwkDescription(records: seq<string>): string {
    AwkRun(Awk(0, false, false, ""), records).value
  }

  lemma {:induction false} AwkDone(m: Awk, records: seq<string>)
    requires m.state == 2
    ensures AwkRun(m, records).value == m.value
    decreases |records|
  {
    if records != [] { AwkDone(m, records[1..]); }
  }

  lemma {:induction false} AwkCollects(m: Awk, records: seq<string>, kind: Scalar)
    requires m.state == 1 && !(m.block && m.quoted)
    requires kind == if m.block then Block else if m.quoted then Quoted else Plain
    ensures AwkRun(m, records).value == Folded(m.value, records, kind)
    decreases |records|
  {
    if records != [] {
      var next := AwkRecord(m, records[0]);
      if next.state == 1 {
        AwkCollects(next, records[1..], kind);
      } else {
        AwkDone(next, records[1..]);
      }
    }
  }

  /** The awk program prints the first description key's folded value. */
  lemma {:induction false} AwkPrintsDescription(records: seq<string>)
    ensures AwkDescription(records) == Description(records)
    decreases |records|
  {
    if records != [] {
      var next := AwkRecord(Awk(0, false, false, ""), records[0]);
      if HasKey(records[0]) {
        AwkCollects(next, records[1..], ScalarOf(KeyValue(records[0])));
      } else {
        AwkPrintsDescription(records[1..]);
      }
    }
  }

  // ---- tr, quotes, cap, escapes ---------------------------------------------------------------

  predicate Unprintable(c: char) {
    c <= '\U{0008}' || '\U{000B}' <= c <= '\U{001F}'
  }

  /** `tr -d '\000-\010\013-\037'`. */
  function TrDelete(s: string): string {
    if s == [] then [] else (if Unprintable(s[0]) then [] else [s[0]]) + TrDelete(s[1..])
  }

  /** `tr '\t\n' '  '`. */
  function TrMap(s: string): string {
    if s == [] then [] else [if s[0] == '\t' || s[0] == '\n' then ' ' else s[0]] + TrMap(s[1..])
  }

  /** `tr -s ' '`. */
  function TrSqueeze(s: string): string {
    if |s| < 2 then s
    else if s[0] == ' ' && s[1] == ' ' then TrSqueeze(s[1..])
    else [s[0]] + TrSqueeze(s[1..])
  }

  function DropOuterSpace(s: string): string {
    var t := if s != [] && s[0] == ' ' then s[1..] else s;
    if t != [] && t[|t| - 1] == ' ' then t[..|t| - 1] else t
  }

  /** `strings.ReplaceAll` and `${s//old/new}`: leftmost matches, left to right, no overlap. */
  function ReplaceAll(s: string, what: string, with: string): string
    requires what != []
    decreases |s|
  {
    if s == [] then []
    else if At(s, 0, what) then with + ReplaceAll(s[|what|..], what, with)
    else [s[0]] + ReplaceAll(s[1..], what, with)
  }

  predicate QuotedBy(d: string, q: char) {
    |d| >= 2 && d[0] == q && d[|d| - 1] == q
  }

  function UnescapeDouble(d: string): string {
    ReplaceAll(
      ReplaceAll(
        ReplaceAll(
          ReplaceAll(
            ReplaceAll(d, "\\\\", "\U{0001}"),
            "\\\"", "\""),
          "\\n", " "),
        "\\t", " "),
      "\U{0001}", "\\")
  }

  function Unquote(d: string): string {
    if QuotedBy(d, '"') then UnescapeDouble(d[1..|d| - 1])
    else if QuotedBy(d, '\'') then ReplaceAll(d[1..|d| - 1], "''", "'")
    else d
  }

  /** The text before the last space, or all of it if there is none. */
  function BeforeLastSpace(s: string): string {
    if ' ' !in s then s else if s[|s| - 1] == ' ' then s[..|s| - 1] else BeforeLastSpace(s[..|s| - 1])
  }

  function Capped(d: string): string {
    if |d| > MAX_BYTES then BeforeLastSpace(d[..MAX_BYTES - 4]) + "..." else d
  }

  function Escape(d: string): string {
    ReplaceAll(ReplaceAll(d, "\\", "\\\\"), "\"", "\\\"")
  }

  function Cleaned(v: string): string {
    DropOuterSpace(TrSqueeze(TrMap(TrDelete(v))))
  }

  /** The description before escaping. */
  function PlainDescription(v: string, name: string): string {
    var d := Unquote(Cleaned(v));
    Capped(if d == "" then "Pilot Protocol skill " + name else d)
  }

  function FileHead(name: string, desc: string): string {
    "---\nname: \"" + name + "\"\ndescription: \"" + desc + "\"\n---\n"
  }

  /** The whole rewrite of one file. */
  function MuseFrontmatter(src: string, name: string): string {
    var lines := Records(src);
    var end := ClosingFence(lines);
    if end.None? then src
    else
      FileHead(name, Escape(PlainDescription(AwkDescription(lines[1..end.value]), name))) +
      TailLines(src, end.value + 1)
  }
}
