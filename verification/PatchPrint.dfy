/** Printing file patches as a unified diff, and the round trip through the parser. */
module PatchPrint {
  import opened Sequences
  import opened Options
  import opened TextLines
  import opened PatchApply
  import opened PatchParse

  /* ---- the printer ---- */

  /** What diff tools add around the changes, for the i-th file and its j-th hunk: lines
      before the file header, time stamps after the paths, text after a hunk header, and
      paths with or without the `a/` and `b/` prefixes.  `brief` leaves out a count of 1. */
  datatype Dressing = Dressing(brief: bool, preamble: nat -> seq<string>, stamp: nat -> (string, string),
                               heading: (nat, nat) -> string, bare: nat -> bool)

  function PrintRange(start: nat, count: nat, brief: bool): string {
    if brief && count == 1 then PrintNat(start) else PrintNat(start) + ("," + PrintNat(count))
  }

  function PrintHeader(h: Hunk, brief: bool, heading: string): string {
    "@@ -" + (PrintRange(h.oldStart, h.oldCount, brief) +
      (" +" + (PrintRange(h.newStart, h.newCount, brief) + (" @@" + (heading + "\n")))))
  }

  function MarkChar(m: Mark): char {
    match m
    case Keep => ' '
    case Add => '+'
    case Remove => '-'
  }

  /** A line without a terminator is followed by the missing-newline marker. */
  function PrintLine(l: HunkLine): seq<string> {
    if Terminated(l.text) then [[MarkChar(l.mark)] + l.text]
    else [[MarkChar(l.mark)] + l.text + "\n", MARKER + "\n"]
  }

  function PrintBody(ls: seq<HunkLine>): seq<string> {
    if ls == [] then [] else PrintLine(ls[0]) + PrintBody(ls[1..])
  }

  function PrintHunks(hs: seq<Hunk>, d: Dressing, i: nat, j: nat): seq<string> {
    if hs == [] then []
    else [PrintHeader(hs[0], d.brief, d.heading(i, j))] + (PrintBody(hs[0].lines) + PrintHunks(hs[1..], d, i, j + 1))
  }

  function Lead(old_: bool, bare: bool): string {
    (if old_ then "--- " else "+++ ") + (if bare then "" else if old_ then "a/" else "b/")
  }

  function PathLine(old_: bool, path: string, d: Dressing, i: nat): string {
    Lead(old_, d.bare(i)) + (path + ((if old_ then d.stamp(i).0 else d.stamp(i).1) + "\n"))
  }

  function PrintFiles(ps: seq<FilePatch>, d: Dressing, i: nat): seq<string> {
    if ps == [] then []
    else d.preamble(i) +
         ([PathLine(true, ps[0].path, d, i), PathLine(false, ps[0].path, d, i)] +
          (PrintHunks(ps[0].hunks, d, i, 0) + PrintFiles(ps[1..], d, i + 1)))
  }

  function PrintText(ps: seq<FilePatch>, d: Dressing): string { Join(PrintFiles(ps, d, 0)) }

  function Undressed(brief: bool): Dressing {
    Dressing(brief, _ => [], _ => ("", ""), (_, _) => "", _ => false)
  }

  /* ---- what can be printed ---- */

  /** The text of a hunk line: one line, or nothing. */
  predicate LegalLine(l: HunkLine) { l.text == "" || IsLine(l.text) }

  predicate LegalHunk(h: Hunk) {
    CountsMatch(h) && forall i :: 0 <= i < |h.lines| ==> LegalLine(h.lines[i])
  }

  predicate LegalPath(path: string) {
    path != "" && path != "/dev/null" && !IsSpace(path[|path| - 1]) &&
    forall i :: 0 <= i < |path| ==> path[i] != '\t' && !IsBreak(path[i])
  }

  predicate LegalFile(p: FilePatch) {
    LegalPath(p.path) && p.hunks != [] && forall i :: 0 <= i < |p.hunks| ==> LegalHunk(p.hunks[i])
  }

  predicate Unbroken(s: string) { forall i :: 0 <= i < |s| ==> !IsBreak(s[i]) }

  /** A line that git and others print before a file header. */
  predicate PreambleLine(l: string) {
    Sturdy(l) &&
    (StartsWith(l, "diff --git ") || StartsWith(l, "index ") ||
     StartsWith(l, "new file mode ") || StartsWith(l, "deleted file mode "))
  }

  predicate Stamp(s: string) { s == "" || (s[0] == '\t' && Unbroken(s)) }

  /** The dressing of the i-th file is one the parser can see through.  After another file,
      a preamble starts with its `diff --git` or `index` line. */
  ghost predicate Wears(p: FilePatch, d: Dressing, i: nat) {
    (forall k :: 0 <= k < |d.preamble(i)| ==> PreambleLine(d.preamble(i)[k])) &&
    (i > 0 && d.preamble(i) != [] ==>
       StartsWith(d.preamble(i)[0], "diff --git ") || StartsWith(d.preamble(i)[0], "index ")) &&
    Stamp(d.stamp(i).0) && Stamp(d.stamp(i).1) && (forall j: nat :: Unbroken(d.heading(i, j))) &&
    (d.bare(i) ==> p.path != "" && !IsSpace(p.path[0]) && !StartsWith(p.path, "a/") && !StartsWith(p.path, "b/"))
  }

  ghost predicate AllWear(ps: seq<FilePatch>, d: Dressing, i: nat) {
    ps == [] || (Wears(ps[0], d, i) && AllWear(ps[1..], d, i + 1))
  }

  lemma {:induction false} UndressedWears(ps: seq<FilePatch>, brief: bool, i: nat)
    ensures AllWear(ps, Undressed(brief), i)
  {
    if ps != [] { UndressedWears(ps[1..], brief, i + 1); }
  }

  /** Terminated lines that do not begin with a line feed: they survive joining. */
  predicate Sturdy(l: string) { IsLine(l) && Terminated(l) && l[0] != '\n' }

  /** The removed line would print like a file header. */
  predicate LooksLikeHeader(l: HunkLine) { l.mark == Remove && StartsWith(l.text, "-- ") }

  predicate CleanLines(ls: seq<HunkLine>) { ls == [] || (!LooksLikeHeader(ls[0]) && CleanLines(ls[1..])) }

  predicate CleanHunks(hs: seq<Hunk>) { hs == [] || (CleanLines(hs[0].lines) && CleanHunks(hs[1..])) }

  predicate CleanFiles(ps: seq<FilePatch>) { ps == [] || (CleanHunks(ps[0].hunks) && CleanFiles(ps[1..])) }

  /* ---- numbers ---- */

  lemma {:induction false} ValueOfPrinted(n: nat)
    ensures Value(PrintNat(n)) == n
  {
    if n >= 10 {
      ValueOfPrinted(n / 10);
      var s := PrintNat(n);
      assert s[..|s| - 1] == PrintNat(n / 10);
    } else {
      assert PrintNat(n)[..0] == [];
    }
  }

  lemma {:induction false} DigitsThen(ds: string, rest: string)
    requires forall i :: 0 <= i < |ds| ==> IsDigit(ds[i])
    requires rest == [] || !IsDigit(rest[0])
    ensures DigitCount(ds + rest) == |ds|
  {
    if ds == [] {
      assert ds + rest == rest;
    } else {
      DigitsThen(ds[1..], rest);
      assert (ds + rest)[1..] == ds[1..] + rest;
    }
  }

  lemma PrintedNat(n: nat, rest: string)
    requires rest == [] || !IsDigit(rest[0])
    ensures var s := PrintNat(n) + rest;
            DigitCount(s) == |PrintNat(n)| && s[..DigitCount(s)] == PrintNat(n) && s[DigitCount(s)..] == rest
    ensures Value(PrintNat(n)) == n
  {
    DigitsThen(PrintNat(n), rest);
    ValueOfPrinted(n);
    var s := PrintNat(n) + rest;
    assert s[..|PrintNat(n)|] == PrintNat(n) && s[|PrintNat(n)|..] == rest;
  }

  lemma PrintedRange(start: nat, count: nat, brief: bool, rest: string)
    requires rest != [] && rest[0] == ' '
    ensures ParseRange(PrintRange(start, count, brief) + rest) == Some(Range(start, count, rest))
  {
    hide DigitCount, Value, PrintNat;
    if brief && count == 1 {
      PrintedNat(start, rest);
    } else {
      var tail := ("," + PrintNat(count)) + rest;
      assert (PrintNat(start) + ("," + PrintNat(count))) + rest == PrintNat(start) + tail;
      PrintedNat(start, tail);
      assert tail[1..] == PrintNat(count) + rest;
      PrintedNat(count, rest);
    }
  }

  lemma {:induction false} NewlineStripped(s: string)
    requires !EndsNewline(s)
    ensures Body(s + "\n") == s
  {
    assert (s + "\n")[..|s|] == s;
  }

  lemma PlainIsNotNewline(s: string)
    requires Unbroken(s)
    ensures !EndsNewline(s)
  {}

  lemma PrintedHeader(h: Hunk, brief: bool, heading: string)
    requires Unbroken(heading)
    ensures ParseHeader(PrintHeader(h, brief, heading)) == Some(Header(h.oldStart, h.oldCount, h.newStart, h.newCount))
  {
    hide ParseRange, PrintRange, Body, IsBreak;
    var newTail := " @@" + heading;
    var newPart := PrintRange(h.newStart, h.newCount, brief) + newTail;
    var oldTail := " +" + newPart;
    var oldPart := PrintRange(h.oldStart, h.oldCount, brief) + oldTail;
    var s := "@@ -" + oldPart;
    assert PrintHeader(h, brief, heading) == s + "\n" by {
      assert " @@" + (heading + "\n") == newTail + "\n";
      assert PrintRange(h.newStart, h.newCount, brief) + (newTail + "\n") == newPart + "\n";
      assert " +" + (newPart + "\n") == oldTail + "\n";
      assert PrintRange(h.oldStart, h.oldCount, brief) + (oldTail + "\n") == oldPart + "\n";
      assert "@@ -" + (oldPart + "\n") == s + "\n";
    }
    PlainIsNotNewline(heading);
    assert s[|s| - 1] == newTail[|newTail| - 1];
    LastOfTail(heading);
    NewlineStripped(s);
    assert s[4..] == oldPart && s[..4] == "@@ -";
    PrintedRange(h.oldStart, h.oldCount, brief, oldTail);
    assert oldTail[2..] == newPart && oldTail[..2] == " +";
    PrintedRange(h.newStart, h.newCount, brief, newTail);
    assert newTail[..3] == " @@";
  }

  lemma LastOfTail(heading: string)
    requires !EndsNewline(heading)
    ensures !IsNewlineChar((" @@" + heading)[|heading| + 2])
  {}

  /* ---- paths ---- */

  lemma {:induction false} NoTabKeepsAll(s: string)
    requires '\t' !in s
    ensures BeforeTab(s) == s
  {
    if s != [] { NoTabKeepsAll(s[1..]); }
  }

  lemma {:induction false} TabCuts(s: string, rest: string)
    requires '\t' !in s && rest != [] && rest[0] == '\t'
    ensures BeforeTab(s + rest) == s
  {
    if s == [] {
      assert s + rest == rest;
    } else {
      TabCuts(s[1..], rest);
      assert (s + rest)[1..] == s[1..] + rest;
    }
  }

  lemma StripsToItself(value: string)
    requires value != [] && !IsSpace(value[0]) && !IsSpace(value[|value| - 1])
    ensures StripRight(StripLeft(value + "\n")) == value && StripRight(StripLeft(value)) == value
  {
    NothingToStrip(value + "\n");
    NothingToStrip(value);
    assert (value + "\n")[..|value|] == value;
  }

  /** The part of a header line that the path is read from. */
  lemma StampCutOff(value: string, stamp: string)
    requires value != [] && '\t' !in value && !IsSpace(value[0]) && !IsSpace(value[|value| - 1]) && Stamp(stamp)
    ensures StripRight(StripLeft(BeforeTab(value + (stamp + "\n")))) == value
  {
    hide IsSpace, StripLeft, StripRight, BeforeTab;
    StripsToItself(value);
    if stamp == "" {
      assert value + (stamp + "\n") == value + "\n";
      NoTabKeepsAll(value + "\n");
    } else {
      TabCuts(value, stamp + "\n");
    }
  }

  lemma PrintedPath(old_: bool, path: string, d: Dressing, i: nat)
    requires LegalPath(path) && Wears(FilePatch(path, []), d, i)
    ensures |PathLine(old_, path, d, i)| >= 4 && ParsePath(PathLine(old_, path, d, i)) == Some(path)
  {
    hide BeforeTab, StripLeft, StripRight, IsSpace, IsBreak, Stamp, PreambleLine, Unbroken;
    var stamp := if old_ then d.stamp(i).0 else d.stamp(i).1;
    var lead := Lead(old_, d.bare(i));
    var header := PathLine(old_, path, d, i);
    var value := lead[4..] + path;
    assert header == lead + (path + (stamp + "\n"));
    assert header[4..] == value + (stamp + "\n");
    assert '\t' !in value by {
      assert forall k :: 0 <= k < |path| ==> path[k] != '\t';
    }
    LeadIsNotSpace();
    assert value[|value| - 1] == path[|path| - 1];
    assert !IsSpace(value[0]);
    StampCutOff(value, stamp);
    if !d.bare(i) {
      assert value[2..] == path && value[..2] == (if old_ then "a/" else "b/");
    } else {
      assert value == path;
    }
  }

  lemma LeadIsNotSpace()
    ensures !IsSpace('a') && !IsSpace('b')
  {}

  lemma NothingToStrip(s: string)
    requires s != [] && !IsSpace(s[0])
    ensures StripLeft(s) == s
  {}

  /* ---- hunk bodies ---- */

  /** A line at which the body loop stops, or the end of the patch. */
  predicate StopsBody(rest: seq<string>) {
    rest == [] || EndsBody(rest[0]) || (rest[0] != [] && (rest[0][0] == '@' || rest[0][0] == 'i'))
  }

  lemma StopsAtOnce(rest: seq<string>, read: seq<HunkLine>, oldSeen: nat, newSeen: nat)
    requires StopsBody(rest)
    ensures ParseBody(rest, read, oldSeen, newSeen) == Good(HunkBody(rest, read, oldSeen, newSeen))
  {}

  lemma PrintedMark(l: HunkLine, text: string)
    ensures MarkOf(([MarkChar(l.mark)] + text)[0]) == Some(l.mark)
    ensures !StartsWith([MarkChar(l.mark)] + text, MARKER) && !StartsWith([MarkChar(l.mark)] + text, "diff --git ")
    ensures StartsWith([MarkChar(l.mark)] + text, "--- ") <==> l.mark == Remove && StartsWith(text, "-- ")
  {
    var line := [MarkChar(l.mark)] + text;
    assert line[0] != MARKER[0] && line[0] != "diff --git "[0];
    if StartsWith(line, "--- ") {
      assert line[..4] == "--- ";
      assert text[..3] == line[1..4];
      assert line[1..4] == "-- ";
    }
    if l.mark == Remove && StartsWith(text, "-- ") {
      assert text[..3] == "-- ";
      assert line[..4] == ['-'] + text[..3];
      assert ['-'] + "-- " == "--- ";
    }
  }

  /** The prefix test sees the same text before an appended newline. */
  lemma HeaderTestIgnoresNewline(text: string)
    ensures StartsWith(text + "\n", "-- ") <==> StartsWith(text, "-- ")
  {
    var t := text + "\n";
    if StartsWith(t, "-- ") {
      assert t[0] == '-' && t[1] == '-' && t[2] == ' ';
      assert |text| >= 3;
      assert text[..3] == t[..3];
    }
    if StartsWith(text, "-- ") { assert t[..3] == text[..3]; }
  }

  lemma MarkedLineRead(mark: Mark, text: string, rest: seq<string>, read: seq<HunkLine>, oldSeen: nat, newSeen: nat)
    requires !(mark == Remove && StartsWith(text, "-- "))
    ensures ParseBody([[MarkChar(mark)] + text] + rest, read, oldSeen, newSeen) ==
            ParseBody(rest, read + [HunkLine(mark, text)],
                      oldSeen + (if mark == Add then 0 else 1), newSeen + (if mark == Remove then 0 else 1))
  {
    var line := [MarkChar(mark)] + text;
    PrintedMark(HunkLine(mark, text), text);
    assert line[1..] == text;
    assert ([line] + rest)[1..] == rest && ([line] + rest)[0] == line;
  }

  lemma PrintedLineRead(l: HunkLine, rest: seq<string>, read: seq<HunkLine>, oldSeen: nat, newSeen: nat)
    requires LegalLine(l) && !LooksLikeHeader(l)
    ensures ParseBody(PrintLine(l) + rest, read, oldSeen, newSeen) ==
            ParseBody(rest, read + [l], oldSeen + (if l.mark == Add then 0 else 1), newSeen + (if l.mark == Remove then 0 else 1))
  {
    hide ParseBody, StartsWith, Body, MarkChar;
    if Terminated(l.text) {
      MarkedLineRead(l.mark, l.text, rest, read, oldSeen, newSeen);
    } else {
      var text := l.text + "\n";
      HeaderTestIgnoresNewline(l.text);
      MarkedLineRead(l.mark, text, [MARKER + "\n"] + rest, read, oldSeen, newSeen);
      assert [MarkChar(l.mark)] + l.text + "\n" == [MarkChar(l.mark)] + text;
      assert PrintLine(l) + rest == [[MarkChar(l.mark)] + text] + ([MARKER + "\n"] + rest);
      var first := read + [HunkLine(l.mark, text)];
      MarkerRead(rest, first, oldSeen + (if l.mark == Add then 0 else 1), newSeen + (if l.mark == Remove then 0 else 1));
      NewlineStripped(l.text);
      assert first[|first| - 1 := l] == read + [l];
    }
  }

  lemma MarkerRead(rest: seq<string>, read: seq<HunkLine>, oldSeen: nat, newSeen: nat)
    requires read != []
    ensures var last := read[|read| - 1];
            ParseBody([MARKER + "\n"] + rest, read, oldSeen, newSeen) ==
            ParseBody(rest, read[|read| - 1 := HunkLine(last.mark, Body(last.text))], oldSeen, newSeen)
  {
    var line := MARKER + "\n";
    assert line[0] == '\\' && StartsWith(line, MARKER);
    assert !EndsBody(line) by {
      assert !StartsWith(line, "--- ") && !StartsWith(line, "diff --git ");
    }
    assert ([line] + rest)[1..] == rest;
  }

  lemma PrintedLineStops(l: HunkLine, rest: seq<string>, read: seq<HunkLine>, oldSeen: nat, newSeen: nat)
    requires LooksLikeHeader(l)
    ensures ParseBody(PrintLine(l) + rest, read, oldSeen, newSeen) ==
            Good(HunkBody(PrintLine(l) + rest, read, oldSeen, newSeen))
  {
    if Terminated(l.text) {
      PrintedMark(l, l.text);
    } else {
      assert [MarkChar(l.mark)] + l.text + "\n" == [MarkChar(l.mark)] + (l.text + "\n");
      PrintedMark(l, l.text + "\n");
      HeaderTestIgnoresNewline(l.text);
    }
  }

  lemma {:induction false} PrintedBodyRead(ls: seq<HunkLine>, rest: seq<string>, read: seq<HunkLine>, oldSeen: nat, newSeen: nat)
    requires (forall i :: 0 <= i < |ls| ==> LegalLine(ls[i])) && StopsBody(rest)
    ensures CleanLines(ls) ==>
              ParseBody(PrintBody(ls) + rest, read, oldSeen, newSeen) ==
              Good(HunkBody(rest, read + ls, oldSeen + CountSide(ls, Add), newSeen + CountSide(ls, Remove)))
    ensures !CleanLines(ls) ==>
              ParseBody(PrintBody(ls) + rest, read, oldSeen, newSeen).Good? &&
              ParseBody(PrintBody(ls) + rest, read, oldSeen, newSeen).value.oldSeen < oldSeen + CountSide(ls, Add)
    decreases |ls|
  {
    hide LegalLine, LooksLikeHeader, PrintLine, StopsBody, ParseBody;
    if ls == [] {
      assert PrintBody(ls) + rest == rest && read + ls == read;
      StopsAtOnce(rest, read, oldSeen, newSeen);
    } else {
      var l, tail := ls[0], ls[1..];
      assert PrintBody(ls) + rest == PrintLine(l) + (PrintBody(tail) + rest);
      if LooksLikeHeader(l) {
        PrintedLineStops(l, PrintBody(tail) + rest, read, oldSeen, newSeen);
        HeaderIsRemoval(l);
      } else {
        PrintedLineRead(l, PrintBody(tail) + rest, read, oldSeen, newSeen);
        PrintedBodyRead(tail, rest, read + [l], oldSeen + (if l.mark == Add then 0 else 1),
                        newSeen + (if l.mark == Remove then 0 else 1));
        assert (read + [l]) + tail == read + ls;
      }
    }
  }

  lemma HeaderIsRemoval(l: HunkLine)
    requires LooksLikeHeader(l)
    ensures l.mark == Remove
  {}

  /* ---- hunks ---- */

  /** What may follow the hunks of a file: the end or the next file header. */
  /** A line at which the hunk loop stops without an error, or the end of the patch. */
  predicate StopsHunks(rest: seq<string>) {
    rest == [] || StartsWith(rest[0], "--- ") || StartsWith(rest[0], "diff --git ") || StartsWith(rest[0], "index ")
  }

  lemma HeaderShape(h: Hunk, brief: bool, heading: string)
    ensures |PrintHeader(h, brief, heading)| > 4
    ensures PrintHeader(h, brief, heading)[..4] == "@@ -" && PrintHeader(h, brief, heading)[0] == '@'
    ensures !StartsWith(PrintHeader(h, brief, heading), "--- ")
  {
    assert PrintHeader(h, brief, heading)[0] == '@';
  }

  lemma StopStopsBody(rest: seq<string>)
    requires StopsHunks(rest)
    ensures StopsBody(rest)
  {}

  lemma NextStopsBody(hs: seq<Hunk>, d: Dressing, i: nat, j: nat, rest: seq<string>)
    requires StopsHunks(rest)
    ensures StopsBody(PrintHunks(hs, d, i, j) + rest)
  {
    hide PrintHeader, StopsHunks;
    if hs == [] {
      assert PrintHunks(hs, d, i, j) + rest == rest;
      StopStopsBody(rest);
    } else {
      HeaderShape(hs[0], d.brief, d.heading(i, j));
      assert (PrintHunks(hs, d, i, j) + rest)[0] == PrintHeader(hs[0], d.brief, d.heading(i, j));
    }
  }

  /** A preamble line is no hunk header. */
  lemma HunksStopAtOnce(rest: seq<string>, read: seq<Hunk>)
    requires StopsHunks(rest)
    ensures ParseHunks(rest, read) == Good((rest, read))
  {
    hide Body, ParseRange;
    if rest != [] && !StartsWith(rest[0], "--- ") {
      assert rest[0][0] == 'd' || rest[0][0] == 'i';
      BodyStart(rest[0]);
    }
  }

  lemma {:induction false} BodyStart(l: string)
    requires l != [] && l[0] != '@'
    ensures !StartsWith(Body(l), "@@ -")
  {
    if IsNewlineChar(l[|l| - 1]) && |l| > 1 { BodyStart(l[..|l| - 1]); }
  }

  lemma PrintedHunkRead(h: Hunk, brief: bool, heading: string, after: seq<string>, read: seq<Hunk>)
    requires LegalHunk(h) && Unbroken(heading) && StopsBody(after)
    ensures var ls := [PrintHeader(h, brief, heading)] + (PrintBody(h.lines) + after);
            (CleanLines(h.lines) ==> ParseHunks(ls, read) == ParseHunks(after, read + [h])) &&
            (!CleanLines(h.lines) ==> ParseHunks(ls, read).Bad?)
  {
    hide LegalLine, CleanLines, ParseHeader, PrintHeader, ParseBody, PrintBody, StartsWith, StopsBody, CountSide, Unbroken;
    var ls := [PrintHeader(h, brief, heading)] + (PrintBody(h.lines) + after);
    assert ls[1..] == PrintBody(h.lines) + after && ls[0] == PrintHeader(h, brief, heading);
    PrintedHeader(h, brief, heading);
    HeaderShape(h, brief, heading);
    PrintedBodyRead(h.lines, after, [], 0, 0);
    assert [] + h.lines == h.lines;
  }

  lemma NoHunksPrinted(d: Dressing, i: nat, j: nat, rest: seq<string>)
    ensures PrintHunks([], d, i, j) + rest == rest
  {}

  lemma PrintHunksSplit(hs: seq<Hunk>, d: Dressing, i: nat, j: nat, rest: seq<string>)
    requires hs != []
    ensures PrintHunks(hs, d, i, j) + rest ==
            [PrintHeader(hs[0], d.brief, d.heading(i, j))] +
              (PrintBody(hs[0].lines) + (PrintHunks(hs[1..], d, i, j + 1) + rest))
  {
    hide PrintHeader, PrintBody;
  }

  lemma {:induction false} PrintedHunksRead(hs: seq<Hunk>, d: Dressing, i: nat, j: nat, rest: seq<string>, read: seq<Hunk>)
    requires (forall k :: 0 <= k < |hs| ==> LegalHunk(hs[k])) && StopsHunks(rest)
    requires forall k: nat :: Unbroken(d.heading(i, k))
    ensures CleanHunks(hs) ==> ParseHunks(PrintHunks(hs, d, i, j) + rest, read) == Good((rest, read + hs))
    ensures !CleanHunks(hs) ==> ParseHunks(PrintHunks(hs, d, i, j) + rest, read).Bad?
    decreases |hs|
  {
    hide LegalHunk, CleanLines, PrintHeader, PrintBody, StopsBody, StopsHunks, ParseHunks, PrintHunks, Unbroken;
    if hs == [] {
      NoHunksPrinted(d, i, j, rest);
      assert read + hs == read;
      HunksStopAtOnce(rest, read);
    } else {
      var h, tail := hs[0], hs[1..];
      var after := PrintHunks(tail, d, i, j + 1) + rest;
      PrintHunksSplit(hs, d, i, j, rest);
      NextStopsBody(tail, d, i, j + 1, rest);
      PrintedHunkRead(h, d.brief, d.heading(i, j), after, read);
      PrintedHunksRead(tail, d, i, j + 1, rest, read + [h]);
      assert (read + [h]) + tail == read + hs;
    }
  }

  /* ---- files ---- */

  lemma PathLines(path: string, d: Dressing, i: nat)
    ensures StartsWith(PathLine(true, path, d, i), "--- ") && StartsWith(PathLine(false, path, d, i), "+++ ")
    ensures !IsPreamble(PathLine(true, path, d, i))
  {
    var a, b := PathLine(true, path, d, i), PathLine(false, path, d, i);
    assert a[..4] == "--- " && b[..4] == "+++ ";
    assert a[0] == '-';
  }

  /** What follows the hunks of a file stops the hunk loop. */
  lemma NextStopsHunks(ps: seq<FilePatch>, d: Dressing, i: nat)
    requires i > 0 && AllWear(ps, d, i)
    ensures StopsHunks(PrintFiles(ps, d, i))
  {
    hide PreambleLine, Stamp, Unbroken, IsSpace, PrintHunks, PathLine;
    if ps != [] {
      PathLines(ps[0].path, d, i);
      var ls := PrintFiles(ps, d, i);
      if d.preamble(i) != [] {
        assert ls[0] == d.preamble(i)[0];
      } else {
        assert ls[0] == PathLine(true, ps[0].path, d, i);
      }
    }
  }

  lemma {:induction false} PreambleSkipped(lines: seq<string>, rest: seq<string>, read: seq<FilePatch>)
    requires forall k :: 0 <= k < |lines| ==> PreambleLine(lines[k])
    ensures ParseFiles(lines + rest, read) == ParseFiles(rest, read)
    decreases |lines|
  {
    hide Sturdy, StartsWith, ParseHunks, ParsePath;
    if lines == [] {
      assert lines + rest == rest;
    } else {
      PreambleSkipped(lines[1..], rest, read);
      assert PreambleLine(lines[0]) && (lines + rest)[0] == lines[0] && (lines + rest)[1..] == lines[1..] + rest;
    }
  }

  lemma PrintedFileRead(p: FilePatch, d: Dressing, i: nat, rest: seq<string>, read: seq<FilePatch>)
    requires LegalFile(p) && Wears(p, d, i) && StopsHunks(rest)
    ensures var ls := d.preamble(i) +
                      ([PathLine(true, p.path, d, i), PathLine(false, p.path, d, i)] + (PrintHunks(p.hunks, d, i, 0) + rest));
            (CleanHunks(p.hunks) ==> ParseFiles(ls, read) == ParseFiles(rest, read + [p])) &&
            (!CleanHunks(p.hunks) ==> ParseFiles(ls, read).Bad?)
  {
    hide LegalHunk, LegalPath, CleanHunks, ParseHunks, PrintHunks, ParsePath, StartsWith, IsPreamble, StopsHunks, PathLine;
    hide PreambleLine, Stamp, Unbroken, IsSpace;
    var a, b := PathLine(true, p.path, d, i), PathLine(false, p.path, d, i);
    var after := PrintHunks(p.hunks, d, i, 0) + rest;
    var ls := [a, b] + after;
    PreambleSkipped(d.preamble(i), ls, read);
    assert ls[0] == a && ls[1] == b && ls[2..] == after;
    PathLines(p.path, d, i);
    PrintedPath(true, p.path, d, i);
    PrintedPath(false, p.path, d, i);
    PrintedHunksRead(p.hunks, d, i, 0, rest, []);
    assert [] + p.hunks == p.hunks;
  }

  lemma {:induction false} PrintedFilesRead(ps: seq<FilePatch>, d: Dressing, i: nat, read: seq<FilePatch>)
    requires (forall k :: 0 <= k < |ps| ==> LegalFile(ps[k])) && AllWear(ps, d, i)
    ensures CleanFiles(ps) ==> ParseFiles(PrintFiles(ps, d, i), read) == Good(read + ps)
    ensures !CleanFiles(ps) ==> ParseFiles(PrintFiles(ps, d, i), read).Bad?
    decreases |ps|
  {
    hide LegalFile, CleanHunks, ParseFiles, PrintHunks, PathLine, StopsHunks, Wears;
    if ps == [] {
      assert read + ps == read;
      NoFilesLeft(read);
    } else {
      var p, tail := ps[0], ps[1..];
      assert LegalFile(p);
      NextStopsHunks(tail, d, i + 1);
      PrintedFileRead(p, d, i, PrintFiles(tail, d, i + 1), read);
      PrintedFilesRead(tail, d, i + 1, read + [p]);
      assert (read + [p]) + tail == read + ps;
    }
  }

  lemma NoFilesLeft(read: seq<FilePatch>)
    ensures ParseFiles([], read) == Good(read)
  {}

  /* ---- printed text is made of lines ---- */

  predicate AllSturdy(ls: seq<string>) { forall i :: 0 <= i < |ls| ==> Sturdy(ls[i]) }

  lemma SturdyIsProper(ls: seq<string>)
    requires AllSturdy(ls)
    ensures ProperLines(ls)
  {
    hide IsLine;
    forall i | 0 <= i < |ls| - 1 ensures Separated(ls[i], ls[i + 1]) {
      assert Sturdy(ls[i]) && Sturdy(ls[i + 1]);
    }
  }

  lemma {:induction false} PlainThenNewline(s: string)
    requires forall i :: 0 <= i < |s| ==> !IsBreak(s[i])
    ensures IsLine(s + "\n") && Terminated(s + "\n")
  {
    if s != [] {
      PlainThenNewline(s[1..]);
      assert (s + "\n")[1..] == s[1..] + "\n";
    }
  }

  lemma {:induction false} UnterminatedIsPlain(l: string)
    requires IsLine(l) && !Terminated(l)
    ensures forall i :: 0 <= i < |l| ==> !IsBreak(l[i])
  {
    if |l| > 1 && !IsBreak(l[0]) {
      UnterminatedIsPlain(l[1..]);
      assert forall i :: 0 < i < |l| ==> l[i] == l[1..][i - 1];
    }
  }

  lemma PrintedLineSturdy(l: HunkLine)
    requires LegalLine(l)
    ensures AllSturdy(PrintLine(l))
  {
    var c := MarkChar(l.mark);
    assert !IsBreak(c) && c != '\n';
    if Terminated(l.text) {
      var line := [c] + l.text;
      assert line[1..] == l.text;
    } else {
      var s := [c] + l.text;
      if l.text != "" { UnterminatedIsPlain(l.text); }
      assert forall i :: 0 <= i < |s| ==> !IsBreak(s[i]);
      PlainThenNewline(s);
      PlainThenNewline(MARKER);
    }
  }

  lemma {:induction false} PrintedBodySturdy(ls: seq<HunkLine>)
    requires forall i :: 0 <= i < |ls| ==> LegalLine(ls[i])
    ensures AllSturdy(PrintBody(ls))
  {
    if ls != [] {
      PrintedLineSturdy(ls[0]);
      PrintedBodySturdy(ls[1..]);
    }
  }

  lemma PrintedHeaderSturdy(h: Hunk, brief: bool, heading: string)
    requires Unbroken(heading)
    ensures Sturdy(PrintHeader(h, brief, heading))
  {
    var s := "@@ -" + (PrintRange(h.oldStart, h.oldCount, brief) +
      (" +" + (PrintRange(h.newStart, h.newCount, brief) + (" @@" + heading))));
    assert forall i :: 0 <= i < |s| ==> !IsBreak(s[i]);
    PlainThenNewline(s);
    assert PrintHeader(h, brief, heading) == s + "\n";
  }

  lemma {:induction false} PrintedHunksSturdy(hs: seq<Hunk>, d: Dressing, i: nat, j: nat)
    requires forall k :: 0 <= k < |hs| ==> LegalHunk(hs[k])
    requires forall k: nat :: Unbroken(d.heading(i, k))
    ensures AllSturdy(PrintHunks(hs, d, i, j))
    decreases |hs|
  {
    hide PrintHeader, Sturdy, LegalLine, Unbroken;
    if hs != [] {
      assert LegalHunk(hs[0]);
      PrintedHeaderSturdy(hs[0], d.brief, d.heading(i, j));
      PrintedBodySturdy(hs[0].lines);
      PrintedHunksSturdy(hs[1..], d, i, j + 1);
    }
  }

  lemma PathLineSturdy(old_: bool, path: string, d: Dressing, i: nat)
    requires LegalPath(path) && Wears(FilePatch(path, []), d, i)
    ensures Sturdy(PathLine(old_, path, d, i))
  {
    hide PreambleLine, IsSpace;
    var stamp := if old_ then d.stamp(i).0 else d.stamp(i).1;
    var lead := Lead(old_, d.bare(i));
    var s := lead + (path + stamp);
    assert forall k :: 0 <= k < |s| ==> !IsBreak(s[k]);
    PlainThenNewline(s);
    assert PathLine(old_, path, d, i) == s + "\n";
    assert s[0] == lead[0];
  }

  lemma WearsFacts(p: FilePatch, d: Dressing, i: nat)
    requires Wears(p, d, i)
    ensures AllSturdy(d.preamble(i)) && (forall j: nat :: Unbroken(d.heading(i, j))) && Wears(FilePatch(p.path, []), d, i)
  {
    hide Sturdy, Unbroken, Stamp, IsSpace;
    assert forall k :: 0 <= k < |d.preamble(i)| ==> PreambleLine(d.preamble(i)[k]);
  }

  lemma {:induction false} PrintedFilesSturdy(ps: seq<FilePatch>, d: Dressing, i: nat)
    requires (forall k :: 0 <= k < |ps| ==> LegalFile(ps[k])) && AllWear(ps, d, i)
    ensures AllSturdy(PrintFiles(ps, d, i))
    decreases |ps|
  {
    hide PrintHunks, Sturdy, LegalHunk, LegalPath, PathLine, Wears, Unbroken;
    if ps != [] {
      assert LegalFile(ps[0]);
      WearsFacts(ps[0], d, i);
      PathLineSturdy(true, ps[0].path, d, i);
      PathLineSturdy(false, ps[0].path, d, i);
      PrintedHunksSturdy(ps[0].hunks, d, i, 0);
      PrintedFilesSturdy(ps[1..], d, i + 1);
    }
  }

  /** Printing a list of file patches, with whatever dressing, and parsing the text gives the
      list back exactly when no removed line begins with "-- "; otherwise the parser rejects
      the printed diff. */
  lemma PrintParseIff(ps: seq<FilePatch>, d: Dressing)
    requires ps != [] && (forall i :: 0 <= i < |ps| ==> LegalFile(ps[i])) && AllWear(ps, d, 0)
    ensures ParseText(PrintText(ps, d)) == Good(ps) <==> CleanFiles(ps)
    ensures !CleanFiles(ps) ==> ParseText(PrintText(ps, d)).Bad?
  {
    hide ParseFiles, LegalFile, CleanFiles, ProperLines, SplitLines, Join, PrintFiles, AllSturdy, IsSpace, AllWear;
    PrintedFilesSturdy(ps, d, 0);
    SturdyIsProper(PrintFiles(ps, d, 0));
    SplitJoin(PrintFiles(ps, d, 0));
    PrintedFilesRead(ps, d, 0, []);
    assert [] + ps == ps;
    PrintedTextHasContent(ps, d);
  }

  /** A dressing changes nothing about what is parsed. */
  lemma DressingIsIgnored(ps: seq<FilePatch>, d: Dressing, brief: bool)
    requires ps != [] && (forall i :: 0 <= i < |ps| ==> LegalFile(ps[i])) && AllWear(ps, d, 0)
    ensures var plain, dressed := ParseText(PrintText(ps, Undressed(brief))), ParseText(PrintText(ps, d));
            plain.Good? == dressed.Good? && (plain.Good? ==> plain == dressed)
  {
    hide ParseText, PrintText, LegalFile, CleanFiles, AllWear;
    UndressedWears(ps, brief, 0);
    PrintParseIff(ps, Undressed(brief));
    PrintParseIff(ps, d);
  }

  lemma PrintedTextHasContent(ps: seq<FilePatch>, d: Dressing)
    requires ps != [] && AllWear(ps, d, 0)
    ensures exists k :: 0 <= k < |PrintText(ps, d)| && !IsSpace(PrintText(ps, d)[k])
  {
    hide PrintHunks, IsSpace, Sturdy, Stamp, Unbroken;
    var ls := PrintFiles(ps, d, 0);
    var first := ls[0];
    assert PrintText(ps, d) == first + Join(ls[1..]);
    if d.preamble(0) == [] {
      assert first == PathLine(true, ps[0].path, d, 0) && first[0] == '-';
    } else {
      assert PreambleLine(d.preamble(0)[0]) && first == d.preamble(0)[0];
    }
    FirstIsText(first);
    assert PrintText(ps, d)[0] == first[0];
  }

  lemma FirstIsText(l: string)
    requires l != [] && (l[0] == '-' || PreambleLine(l))
    ensures !IsSpace(l[0])
  {
    hide Sturdy;
  }

  /* ---- what is refused ---- */

  /** A header pair that names two different files is refused, whatever follows. */
  lemma RenamesAreRefused(from: string, to: string, d: Dressing, rest: seq<string>, read: seq<FilePatch>)
    requires LegalPath(from) && LegalPath(to) && from != to
    requires Wears(FilePatch(from, []), d, 0) && Wears(FilePatch(to, []), d, 0)
    ensures ParseFiles([PathLine(true, from, d, 0), PathLine(false, to, d, 0)] + rest, read) == Bad(Rename)
  {
    hide LegalPath, Wears, ParsePath, PathLine, IsPreamble, StartsWith, ParseHunks;
    var ls := [PathLine(true, from, d, 0), PathLine(false, to, d, 0)] + rest;
    assert ls[0] == PathLine(true, from, d, 0) && ls[1] == PathLine(false, to, d, 0);
    PathLines(from, d, 0);
    PathLines(to, d, 0);
    PrintedPath(true, from, d, 0);
    PrintedPath(false, to, d, 0);
  }

  lemma NullIsNoPath()
    ensures |"--- /dev/null\n"| >= 4 && ParsePath("--- /dev/null\n") == None
  {
    hide IsSpace, StripLeft, StripRight, BeforeTab;
    var line := "--- /dev/null\n";
    assert line[4..] == "/dev/null" + "\n";
    SlashIsNoSpace();
    StampCutOff("/dev/null", "");
    assert "" + "\n" == "\n";
  }

  lemma OldHeaderStarts(line: string)
    requires |line| >= 4 && line[0] == '-' && line[1] == '-' && line[2] == '-' && line[3] == ' '
    ensures StartsWith(line, "--- ") && !IsPreamble(line)
  {
    assert line[..4] == "--- ";
  }

  /** Files cannot be created or deleted: `/dev/null` is no path. */
  lemma NullIsRefused(rest: seq<string>, read: seq<FilePatch>)
    ensures ParseFiles(["--- /dev/null\n"] + rest, read) == Bad(BadPath)
  {
    hide ParseHunks, ParsePath, StartsWith, IsPreamble;
    OldHeaderStarts("--- /dev/null\n");
    NullIsNoPath();
    assert (["--- /dev/null\n"] + rest)[0] == "--- /dev/null\n";
  }

  lemma SlashIsNoSpace()
    ensures !IsSpace('/') && !IsSpace('l')
  {}

  /** Without the `+++` line, or with something else before a file header, nothing is read. */
  lemma StrayLinesAreRefused(line: string, rest: seq<string>, read: seq<FilePatch>)
    requires line != "" && line[0] != '-' && line[0] != 'd' && line[0] != 'i' && line[0] != 'n'
    ensures ParseFiles([line] + rest, read) == Bad(ExpectedFileHeader)
  {
    assert ([line] + rest)[0] == line;
  }

  /** A missing-newline marker with no line before it. */
  lemma StrayMarkerIsRefused(rest: seq<string>)
    ensures ParseBody(["\\ No newline at end of file\n"] + rest, [], 0, 0) == Bad(StrayMarker)
  {
    var line := "\\ No newline at end of file\n";
    assert (["\\ No newline at end of file\n"] + rest)[0] == line && line[0] == '\\';
    assert line[..27] == MARKER;
  }
}
