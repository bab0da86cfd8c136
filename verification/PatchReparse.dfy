/** Whatever the parser accepts can be printed and parsed again with the same result, so
    the hypotheses of the round trip hold of every parsed patch. */
module PatchReparse {
  import opened Options
  import opened TextLines
  import opened PatchApply
  import opened PatchParse
  import opened PatchPrint

  predicate AllLines(ls: seq<string>) { forall i :: 0 <= i < |ls| ==> IsLine(ls[i]) }

  /* ---- paths ---- */

  lemma {:induction false} BreaksAtEnd(l: string, i: nat, j: nat)
    requires IsLine(l) && i <= j < |l| && IsBreak(l[i])
    ensures IsBreak(l[j])
    decreases i
  {
    if i > 0 {
      BreaksAtEnd(l[1..], i - 1, j - 1);
    }
  }

  lemma {:induction false} BeforeTabIsPrefix(s: string)
    ensures BeforeTab(s) <= s && '\t' !in BeforeTab(s)
  {
    if s != [] && s[0] != '\t' { BeforeTabIsPrefix(s[1..]); }
  }

  lemma {:induction false} StripLeftIsSuffix(s: string)
    ensures |StripLeft(s)| <= |s| && StripLeft(s) == s[|s| - |StripLeft(s)|..]
  {
    if s != [] && IsSpace(s[0]) { StripLeftIsSuffix(s[1..]); }
  }

  lemma {:induction false} StripRightIsPrefix(s: string)
    ensures StripRight(s) <= s && (StripRight(s) != [] ==> !IsSpace(StripRight(s)[|StripRight(s)| - 1]))
  {
    if s != [] && IsSpace(s[|s| - 1]) {
      StripRightIsPrefix(s[..|s| - 1]);
      assert s[..|s| - 1] <= s;
    }
  }

  lemma StrippedIsPiece(t: string) returns (skip: nat)
    ensures var v := StripRight(StripLeft(t));
            skip + |v| <= |t| && v == t[skip..skip + |v|] && (v != [] ==> !IsSpace(v[|v| - 1]))
  {
    hide IsSpace, StripLeft, StripRight;
    StripLeftIsSuffix(t);
    StripRightIsPrefix(StripLeft(t));
    skip := |t| - |StripLeft(t)|;
  }

  lemma ParsedPathIs(header: string) returns (cut: nat)
    requires |header| >= 4 && ParsePath(header).Some?
    ensures var v := StripRight(StripLeft(BeforeTab(header[4..])));
            cut < |v| && ParsePath(header).value == v[cut..]
  {
    hide BeforeTab, StripLeft, StripRight;
    var v := StripRight(StripLeft(BeforeTab(header[4..])));
    cut := if StartsWith(v, "a/") || StartsWith(v, "b/") then 2 else 0;
  }

  lemma PathIsPiece(header: string) returns (from: nat)
    requires |header| >= 4 && ParsePath(header).Some?
    ensures var p := ParsePath(header).value;
            p != [] && from + |p| <= |header| && p == header[from..from + |p|] && '\t' !in p && !IsSpace(p[|p| - 1])
  {
    hide IsSpace, BeforeTab, StripLeft, StripRight, ParsePath;
    var t := BeforeTab(header[4..]);
    BeforeTabIsPrefix(header[4..]);
    var skip := StrippedIsPiece(t);
    var cut := ParsedPathIs(header);
    var p := ParsePath(header).value;
    from := 4 + skip + cut;
    assert p == t[skip + cut..skip + cut + |p|];
    assert t == header[4..4 + |t|];
    assert forall i :: 0 <= i < |p| ==> p[i] == t[skip + cut + i] == header[from + i];
  }

  lemma ParsedPathLegal(header: string)
    requires IsLine(header) && |header| >= 4 && ParsePath(header).Some?
    ensures LegalPath(ParsePath(header).value)
  {
    var from := PathIsPiece(header);
    hide ParsePath, IsLine, IsBreak;
    var p := ParsePath(header).value;
    PathIsUsable(header);
    assert !IsBreak(p[|p| - 1]) by { BreakIsSpace(p[|p| - 1]); }
    forall i | 0 <= i < |p| ensures !IsBreak(p[i]) {
      if IsBreak(header[from + i]) { BreaksAtEnd(header, from + i, from + |p| - 1); }
      assert p[i] == header[from + i] && p[|p| - 1] == header[from + |p| - 1];
    }
  }

  lemma BreakIsSpace(c: char)
    ensures IsBreak(c) ==> IsSpace(c)
  {}

  lemma PathIsUsable(header: string)
    requires |header| >= 4 && ParsePath(header).Some?
    ensures ParsePath(header).value != "" && ParsePath(header).value != "/dev/null"
  {}

  /* ---- hunk bodies ---- */

  predicate GoodLines(ls: seq<HunkLine>) {
    forall i :: 0 <= i < |ls| ==> LegalLine(ls[i]) && !LooksLikeHeader(ls[i])
  }

  lemma {:induction false} CountAppend(ls: seq<HunkLine>, l: HunkLine, dropped: Mark)
    ensures CountSide(ls + [l], dropped) == CountSide(ls, dropped) + (if l.mark == dropped then 0 else 1)
  {
    if ls == [] {
      assert ls + [l] == [l] && [l][1..] == [];
    } else {
      CountAppend(ls[1..], l, dropped);
      assert (ls + [l])[1..] == ls[1..] + [l];
    }
  }

  lemma CountReplaceLast(ls: seq<HunkLine>, text: string, dropped: Mark)
    requires ls != []
    ensures var last := ls[|ls| - 1];
            CountSide(ls[|ls| - 1 := HunkLine(last.mark, text)], dropped) == CountSide(ls, dropped)
  {
    var init, last := ls[..|ls| - 1], ls[|ls| - 1];
    CountAppend(init, last, dropped);
    CountAppend(init, HunkLine(last.mark, text), dropped);
    assert init + [last] == ls;
    assert init + [HunkLine(last.mark, text)] == ls[|ls| - 1 := HunkLine(last.mark, text)];
  }

  lemma MarkedLineLegal(line: string, mark: Mark)
    requires IsLine(line) && MarkOf(line[0]) == Some(mark) && !EndsBody(line)
    ensures LegalLine(HunkLine(mark, line[1..])) && !LooksLikeHeader(HunkLine(mark, line[1..]))
  {
    var text := line[1..];
    assert !IsBreak(line[0]);
    assert line == [MarkChar(mark)] + text;
    PrintedMark(HunkLine(mark, text), text);
  }

  lemma {:induction false} BodyIsPrefix(l: string)
    ensures Body(l) <= l && !EndsNewline(Body(l))
  {
    if EndsNewline(l) {
      BodyIsPrefix(l[..|l| - 1]);
      assert l[..|l| - 1] <= l;
    }
  }

  lemma {:induction false} PlainIsLine(s: string)
    requires s != [] && forall i :: 0 <= i < |s| - 1 ==> !IsBreak(s[i])
    ensures IsLine(s)
  {
    if |s| > 1 { PlainIsLine(s[1..]); }
  }

  lemma StrippedLineLegal(l: HunkLine)
    requires LegalLine(l) && !LooksLikeHeader(l)
    ensures LegalLine(HunkLine(l.mark, Body(l.text))) && !LooksLikeHeader(HunkLine(l.mark, Body(l.text)))
  {
    var b := Body(l.text);
    BodyIsPrefix(l.text);
    if b != [] {
      forall i | 0 <= i < |b| - 1 ensures !IsBreak(b[i]) {
        assert b[i] == l.text[i] && b[|b| - 1] == l.text[|b| - 1];
        if IsBreak(l.text[i]) { BreakThenNewline(l.text, i); }
      }
      PlainIsLine(b);
    }
  }

  /** Inside a line only a CR LF has two break characters. */
  lemma {:induction false} BreakThenNewline(l: string, i: nat)
    requires IsLine(l) && i + 1 < |l| && IsBreak(l[i])
    ensures l[i] == '\r' && l[i + 1] == '\n' && i + 2 == |l|
    decreases i
  {
    if i > 0 {
      BreakThenNewline(l[1..], i - 1);
    }
  }

  lemma GoodAppend(ls: seq<HunkLine>, l: HunkLine)
    requires GoodLines(ls) && LegalLine(l) && !LooksLikeHeader(l)
    ensures GoodLines(ls + [l])
  {}

  lemma {:induction false} ParsedBodyGood(ls: seq<string>, read: seq<HunkLine>, oldSeen: nat, newSeen: nat)
    requires AllLines(ls) && GoodLines(read)
    requires oldSeen == CountSide(read, Add) && newSeen == CountSide(read, Remove)
    ensures var r := ParseBody(ls, read, oldSeen, newSeen);
            r.Good? ==> AllLines(r.value.rest) && GoodLines(r.value.lines) &&
                        r.value.oldSeen == CountSide(r.value.lines, Add) &&
                        r.value.newSeen == CountSide(r.value.lines, Remove)
    decreases |ls|
  {
    hide LegalLine, LooksLikeHeader, CountSide, IsLine, EndsBody, StartsWith, MarkOf, Body;
    if ls == [] || EndsBody(ls[0]) {
    } else if StartsWith(ls[0], MARKER) {
      if read != [] {
        var last := read[|read| - 1];
        StrippedLineLegal(last);
        CountReplaceLast(read, Body(last.text), Add);
        CountReplaceLast(read, Body(last.text), Remove);
        ParsedBodyGood(ls[1..], read[|read| - 1 := HunkLine(last.mark, Body(last.text))], oldSeen, newSeen);
      }
    } else if ls[0] != [] && MarkOf(ls[0][0]).Some? {
      var mark := MarkOf(ls[0][0]).value;
      var l := HunkLine(mark, ls[0][1..]);
      MarkedLineLegal(ls[0], mark);
      GoodAppend(read, l);
      CountAppend(read, l, Add);
      CountAppend(read, l, Remove);
      ParsedBodyGood(ls[1..], read + [l], oldSeen + (if mark == Add then 0 else 1), newSeen + (if mark == Remove then 0 else 1));
    }
  }

  lemma {:induction false} GoodIsClean(ls: seq<HunkLine>)
    requires GoodLines(ls)
    ensures CleanLines(ls)
  {
    hide LegalLine, LooksLikeHeader;
    if ls != [] { GoodIsClean(ls[1..]); }
  }

  /* ---- hunks and files ---- */

  predicate GoodHunks(hs: seq<Hunk>) {
    forall i :: 0 <= i < |hs| ==> LegalHunk(hs[i]) && CleanLines(hs[i].lines)
  }

  lemma ParsedHunkGood(h: Header, b: HunkBody)
    requires GoodLines(b.lines) && b.oldSeen == CountSide(b.lines, Add) && b.newSeen == CountSide(b.lines, Remove)
    requires b.oldSeen == h.oldCount && b.newSeen == h.newCount
    ensures var k := Hunk(h.oldStart, h.oldCount, h.newStart, h.newCount, b.lines); LegalHunk(k) && CleanLines(k.lines)
  {
    hide LegalLine, LooksLikeHeader;
    GoodIsClean(b.lines);
  }

  lemma {:induction false} ParsedHunksGood(ls: seq<string>, hunks: seq<Hunk>)
    requires AllLines(ls) && GoodHunks(hunks)
    ensures var r := ParseHunks(ls, hunks); r.Good? ==> AllLines(r.value.0) && GoodHunks(r.value.1)
    decreases |ls|
  {
    hide LegalHunk, CleanLines, IsLine, StartsWith, ParseHeader, ParseBody, GoodLines;
    if ls != [] && !StartsWith(ls[0], "--- ") && ParseHeader(ls[0]).Some? {
      var h := ParseHeader(ls[0]).value;
      NoLinesAreGood();
      ParsedBodyGood(ls[1..], [], 0, 0);
      var r := ParseBody(ls[1..], [], 0, 0);
      if r.Good? && r.value.oldSeen == h.oldCount && r.value.newSeen == h.newCount {
        ParsedHunkGood(h, r.value);
        ParsedHunksGood(r.value.rest, hunks + [Hunk(h.oldStart, h.oldCount, h.newStart, h.newCount, r.value.lines)]);
      }
    }
  }

  lemma NoLinesAreGood()
    ensures GoodLines([]) && CountSide([], Add) == 0 && CountSide([], Remove) == 0
  {}

  lemma {:induction false} GoodHunksAreClean(hs: seq<Hunk>)
    requires GoodHunks(hs)
    ensures CleanHunks(hs)
  {
    hide LegalHunk, CleanLines;
    if hs != [] { GoodHunksAreClean(hs[1..]); }
  }

  predicate GoodFiles(ps: seq<FilePatch>) {
    forall i :: 0 <= i < |ps| ==> LegalFile(ps[i]) && CleanHunks(ps[i].hunks)
  }

  lemma {:induction false} ParsedFilesGood(ls: seq<string>, patches: seq<FilePatch>)
    requires AllLines(ls) && GoodFiles(patches)
    ensures var r := ParseFiles(ls, patches); r.Good? ==> GoodFiles(r.value)
    decreases |ls|
  {
    hide LegalPath, LegalHunk, IsLine, StartsWith, ParsePath, ParseHunks, CleanHunks, IsPreamble, CleanLines;
    if ls == [] {
    } else if IsPreamble(ls[0]) {
      ParsedFilesGood(ls[1..], patches);
    } else if StartsWith(ls[0], "--- ") && |ls| >= 2 && StartsWith(ls[1], "+++ ") {
      HeaderLength(ls[0], "--- ");
      HeaderLength(ls[1], "+++ ");
      var path := ParsePath(ls[1]);
      ParsedHunksGood(ls[2..], []);
      var r := ParseHunks(ls[2..], []);
      if path.Some? && r.Good? && r.value.1 != [] {
        ParsedPathLegal(ls[1]);
        GoodHunksAreClean(r.value.1);
        assert GoodFiles(patches + [FilePatch(path.value, r.value.1)]);
        if ParsePath(ls[0]) == path {
          ParsedFilesGood(r.value.0, patches + [FilePatch(path.value, r.value.1)]);
        }
      }
    }
  }

  lemma {:induction false} GoodFilesAreClean(ps: seq<FilePatch>)
    requires GoodFiles(ps)
    ensures CleanFiles(ps)
  {
    hide LegalFile, CleanHunks;
    if ps != [] { GoodFilesAreClean(ps[1..]); }
  }

  /** Every patch the parser accepts has true counts, usable paths and printable lines, and
      printing it gives a text with the same meaning. */
  lemma ReparseIsStable(patch: string, ps: seq<FilePatch>, d: Dressing)
    requires ParseText(patch) == Good(ps) && ps != [] && AllWear(ps, d, 0)
    ensures forall i :: 0 <= i < |ps| ==> LegalFile(ps[i])
    ensures ParseText(PrintText(ps, d)) == Good(ps)
  {
    hide AllWear, LegalFile, ParseFiles, PrintText, CleanFiles, SplitLines, IsLine, Separated, IsSpace;
    SplitProper(patch);
    NoFilesAreGood();
    ParsedFilesGood(SplitLines(patch), []);
    GoodFilesAreClean(ps);
    PrintParseIff(ps, d);
  }

  lemma NoFilesAreGood()
    ensures GoodFiles([])
  {}
}
