/** The unified-diff parser: headers, hunk bodies and file sections, with every error. */
module PatchParse {
  import opened Options
  import opened TextLines
  import opened PatchApply

  datatype FilePatch = FilePatch(path: string, hunks: seq<Hunk>)

  datatype ParseError =
    | NoContent | ExpectedFileHeader | MissingNewHeader | BadPath | Rename
    | ExpectedHunkHeader | StrayMarker | CountMismatch | NoHunks

  datatype Parsed<T> = Good(value: T) | Bad(error: ParseError)

  const MARKER := "\\ No newline at end of file"

  predicate StartsWith(s: string, prefix: string) { prefix <= s }

  /* ---- numbers and hunk headers ---- */

  predicate IsDigit(c: char) { '0' <= c <= '9' }

  function Digit(n: nat): (c: char)
    requires n < 10
    ensures IsDigit(c)
  {
    '0' + n as char
  }

  function PrintNat(n: nat): (s: string)
    ensures s != [] && forall i :: 0 <= i < |s| ==> IsDigit(s[i])
  {
    if n < 10 then [Digit(n)] else PrintNat(n / 10) + [Digit(n % 10)]
  }

  function Value(ds: string): nat
    requires forall i :: 0 <= i < |ds| ==> IsDigit(ds[i])
  {
    if ds == [] then 0
    else
      var c := ds[|ds| - 1];
      assert IsDigit(c);
      10 * Value(ds[..|ds| - 1]) + (c as int - '0' as int)
  }

  function DigitCount(s: string): (n: nat)
    ensures n <= |s| && forall i :: 0 <= i < n ==> IsDigit(s[i])
  {
    if s == [] || !IsDigit(s[0]) then 0
    else
      var n := DigitCount(s[1..]);
      assert forall i :: 0 < i <= n ==> s[i] == s[1..][i - 1];
      1 + n
  }

  datatype Range = Range(start: nat, count: nat, rest: string)

  /** `start` or `start,count`, with a count of 1 when it is left out. */
  function ParseRange(s: string): Option<Range> {
    var n := DigitCount(s);
    if n == 0 then None
    else
      var start, rest := Value(s[..n]), s[n..];
      if rest != [] && rest[0] == ',' && DigitCount(rest[1..]) > 0 then
        var m := DigitCount(rest[1..]);
        Some(Range(start, Value(rest[1..][..m]), rest[1..][m..]))
      else Some(Range(start, 1, rest))
  }

  datatype Header = Header(oldStart: nat, oldCount: nat, newStart: nat, newCount: nat)

  function ParseHeader(line: string): Option<Header> {
    var s := Body(line);
    if !StartsWith(s, "@@ -") then None
    else match ParseRange(s[4..])
      case None => None
      case Some(old_) =>
        if !StartsWith(old_.rest, " +") then None
        else match ParseRange(old_.rest[2..])
          case None => None
          case Some(new_) =>
            if !StartsWith(new_.rest, " @@") then None
            else Some(Header(old_.start, old_.count, new_.start, new_.count))
  }

  /* ---- paths ---- */

  predicate IsSpace(c: char) {
    IsBreak(c) || c == ' ' || c == '\t' || c == '\U{1F}' || c == '\U{A0}' || c == '\U{1680}' ||
    '\U{2000}' <= c <= '\U{200A}' || c == '\U{202F}' || c == '\U{205F}' || c == '\U{3000}'
  }

  function StripLeft(s: string): string {
    if s != [] && IsSpace(s[0]) then StripLeft(s[1..]) else s
  }

  function StripRight(s: string): string {
    if s != [] && IsSpace(s[|s| - 1]) then StripRight(s[..|s| - 1]) else s
  }

  function BeforeTab(s: string): string {
    if s == [] || s[0] == '\t' then [] else [s[0]] + BeforeTab(s[1..])
  }

  function ParsePath(header: string): Option<string>
    requires |header| >= 4
  {
    var value := StripRight(StripLeft(BeforeTab(header[4..])));
    var path := if StartsWith(value, "a/") || StartsWith(value, "b/") then value[2..] else value;
    if path == "" || path == "/dev/null" then None else Some(path)
  }

  /* ---- the body of a hunk ---- */

  function MarkOf(c: char): Option<Mark> {
    if c == ' ' then Some(Keep) else if c == '+' then Some(Add) else if c == '-' then Some(Remove) else None
  }

  predicate EndsBody(line: string) { StartsWith(line, "--- ") || StartsWith(line, "diff --git ") }

  datatype HunkBody = HunkBody(rest: seq<string>, lines: seq<HunkLine>, oldSeen: nat, newSeen: nat)

  function ParseBody(ls: seq<string>, read: seq<HunkLine>, oldSeen: nat, newSeen: nat): (r: Parsed<HunkBody>)
    ensures r.Good? ==> |r.value.rest| <= |ls|
    decreases |ls|
  {
    if ls == [] || EndsBody(ls[0]) then Good(HunkBody(ls, read, oldSeen, newSeen))
    else if StartsWith(ls[0], MARKER) then
      if read == [] then Bad(StrayMarker)
      else
        var last := read[|read| - 1];
        ParseBody(ls[1..], read[|read| - 1 := HunkLine(last.mark, Body(last.text))], oldSeen, newSeen)
    else if ls[0] != [] && MarkOf(ls[0][0]).Some? then
      var mark := MarkOf(ls[0][0]).value;
      ParseBody(ls[1..], read + [HunkLine(mark, ls[0][1..])],
                oldSeen + (if mark == Add then 0 else 1), newSeen + (if mark == Remove then 0 else 1))
    else Good(HunkBody(ls, read, oldSeen, newSeen))
  }

  /* ---- hunks and files ---- */

  function ParseHunks(ls: seq<string>, hunks: seq<Hunk>): (r: Parsed<(seq<string>, seq<Hunk>)>)
    ensures r.Good? ==> |r.value.0| <= |ls|
    decreases |ls|
  {
    if ls == [] || StartsWith(ls[0], "--- ") then Good((ls, hunks))
    else match ParseHeader(ls[0])
      case None =>
        if StartsWith(ls[0], "diff --git ") || StartsWith(ls[0], "index ") then Good((ls, hunks))
        else Bad(ExpectedHunkHeader)
      case Some(h) =>
        match ParseBody(ls[1..], [], 0, 0)
        case Bad(e) => Bad(e)
        case Good(b) =>
          if b.oldSeen != h.oldCount || b.newSeen != h.newCount then Bad(CountMismatch)
          else ParseHunks(b.rest, hunks + [Hunk(h.oldStart, h.oldCount, h.newStart, h.newCount, b.lines)])
  }

  predicate IsPreamble(line: string) {
    StartsWith(line, "diff --git ") || StartsWith(line, "index ") ||
    StartsWith(line, "new file mode ") || StartsWith(line, "deleted file mode ")
  }

  function ParseFiles(ls: seq<string>, patches: seq<FilePatch>): Parsed<seq<FilePatch>>
    decreases |ls|
  {
    if ls == [] then Good(patches)
    else if IsPreamble(ls[0]) then ParseFiles(ls[1..], patches)
    else if !StartsWith(ls[0], "--- ") then Bad(ExpectedFileHeader)
    else match ParsePath(ls[0])
      case None => Bad(BadPath)
      case Some(oldPath) =>
        if |ls| < 2 || !StartsWith(ls[1], "+++ ") then Bad(MissingNewHeader)
        else match ParsePath(ls[1])
          case None => Bad(BadPath)
          case Some(newPath) =>
            if oldPath != newPath then Bad(Rename)
            else match ParseHunks(ls[2..], [])
              case Bad(e) => Bad(e)
              case Good(p) =>
                if p.1 == [] then Bad(NoHunks)
                else ParseFiles(p.0, patches + [FilePatch(newPath, p.1)])
  }

  function ParseText(patch: string): Parsed<seq<FilePatch>> {
    if forall i :: 0 <= i < |patch| ==> IsSpace(patch[i]) then Bad(NoContent)
    else ParseFiles(SplitLines(patch), [])
  }

  /* ---- the parser's loops ---- */

  method ReadBody(lines: seq<string>, from: nat) returns (r: Parsed<HunkBody>, index: nat)
    requires from <= |lines|
    ensures r == ParseBody(lines[from..], [], 0, 0)
    ensures r.Good? ==> from <= index <= |lines| && r.value.rest == lines[index..]
  {
    hide StartsWith, EndsBody, MarkOf, Body;
    index := from;
    var read: seq<HunkLine> := [];
    var oldSeen, newSeen := 0, 0;
    while index < |lines|
      invariant from <= index <= |lines|
      invariant ParseBody(lines[from..], [], 0, 0) == ParseBody(lines[index..], read, oldSeen, newSeen)
    {
      var line := lines[index];
      assert lines[index..][1..] == lines[index + 1..];
      if EndsBody(line) { break; }
      if StartsWith(line, MARKER) {
        if read == [] { return Bad(StrayMarker), index; }
        var last := read[|read| - 1];
        read := read[|read| - 1 := HunkLine(last.mark, Body(last.text))];
        index := index + 1;
        continue;
      }
      if line != [] && MarkOf(line[0]).Some? {
        var mark := MarkOf(line[0]).value;
        read := read + [HunkLine(mark, line[1..])];
        if mark != Add { oldSeen := oldSeen + 1; }
        if mark != Remove { newSeen := newSeen + 1; }
        index := index + 1;
        continue;
      }
      break;
    }
    r := Good(HunkBody(lines[index..], read, oldSeen, newSeen));
  }

  method ReadHunks(lines: seq<string>, from: nat) returns (r: Parsed<seq<Hunk>>, index: nat)
    requires from <= |lines|
    ensures r.Bad? ==> ParseHunks(lines[from..], []) == Bad(r.error)
    ensures r.Good? ==> from <= index <= |lines| && ParseHunks(lines[from..], []) == Good((lines[index..], r.value))
  {
    hide StartsWith, ParseHeader, ParseBody;
    index := from;
    var hunks: seq<Hunk> := [];
    while index < |lines| && !StartsWith(lines[index], "--- ")
      invariant from <= index <= |lines|
      invariant ParseHunks(lines[from..], []) == ParseHunks(lines[index..], hunks)
      decreases |lines| - index
    {
      assert lines[index..][1..] == lines[index + 1..];
      var header := ParseHeader(lines[index]);
      if header.None? {
        if StartsWith(lines[index], "diff --git ") || StartsWith(lines[index], "index ") { break; }
        return Bad(ExpectedHunkHeader), index;
      }
      var h := header.value;
      var body, next := ReadBody(lines, index + 1);
      if body.Bad? { return Bad(body.error), index; }
      var b := body.value;
      if b.oldSeen != h.oldCount || b.newSeen != h.newCount { return Bad(CountMismatch), index; }
      hunks := hunks + [Hunk(h.oldStart, h.oldCount, h.newStart, h.newCount, b.lines)];
      index := next;
    }
    r := Good(hunks);
  }

  method ParsePatch(patch: string) returns (r: Parsed<seq<FilePatch>>)
    ensures r == ParseText(patch)
  {
    hide StartsWith, ParsePath, ParseHunks, IsPreamble, SplitLines, IsSpace;
    if forall i :: 0 <= i < |patch| ==> IsSpace(patch[i]) { return Bad(NoContent); }
    var lines := SplitLines(patch);
    var patches: seq<FilePatch> := [];
    var index := 0;
    while index < |lines|
      invariant 0 <= index <= |lines|
      invariant ParseFiles(lines, []) == ParseFiles(lines[index..], patches)
      decreases |lines| - index
    {
      var line, tail := lines[index], lines[index..];
      assert tail[1..] == lines[index + 1..];
      if IsPreamble(line) { index := index + 1; continue; }
      if !StartsWith(line, "--- ") { return Bad(ExpectedFileHeader); }
      HeaderLength(line, "--- ");
      var oldPath := ParsePath(line);
      if oldPath.None? { return Bad(BadPath); }
      if index + 1 >= |lines| || !StartsWith(lines[index + 1], "+++ ") { return Bad(MissingNewHeader); }
      HeaderLength(lines[index + 1], "+++ ");
      assert tail[1] == lines[index + 1] && tail[2..] == lines[index + 2..];
      var newPath := ParsePath(lines[index + 1]);
      if newPath.None? { return Bad(BadPath); }
      if oldPath != newPath { return Bad(Rename); }
      var hunks, next := ReadHunks(lines, index + 2);
      if hunks.Bad? { return Bad(hunks.error); }
      if hunks.value == [] { return Bad(NoHunks); }
      patches := patches + [FilePatch(newPath.value, hunks.value)];
      index := next;
    }
    r := Good(patches);
  }

  lemma HeaderLength(line: string, prefix: string)
    requires StartsWith(line, prefix)
    ensures |line| >= |prefix|
  {}
}
