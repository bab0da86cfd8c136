/** Application of the hunks of one file: the in-place splice with its running offset
    and relocation search, the simultaneous splice it amounts to, and the reverse diff. */
module PatchApply {
  import opened Sequences
  import opened TextLines

  datatype Mark = Keep | Add | Remove

  datatype HunkLine = HunkLine(mark: Mark, text: string)

  datatype Hunk = Hunk(oldStart: nat, oldCount: nat, newStart: nat, newCount: nat, lines: seq<HunkLine>)

  datatype ApplyError = OutsideFile | Ambiguous | NoMatch

  datatype Applied<T> = Ok(value: T) | Err(error: ApplyError)

  /* ---- the two sides of a hunk ---- */

  function Side(lines: seq<HunkLine>, dropped: Mark, newline: string): seq<string> {
    if lines == [] then []
    else (if lines[0].mark == dropped then [] else [FileNewline(lines[0].text, newline)])
         + Side(lines[1..], dropped, newline)
  }

  function Expected(h: Hunk, newline: string): seq<string> { Side(h.lines, Add, newline) }

  function Replacement(h: Hunk, newline: string): seq<string> { Side(h.lines, Remove, newline) }

  /** Zero-based position; a zero count names the line before the insertion point. */
  function OldIndex(h: Hunk): int { if h.oldCount == 0 then h.oldStart else h.oldStart - 1 }

  function NewIndex(h: Hunk): int { if h.newCount == 0 then h.newStart else h.newStart - 1 }

  /* ---- finding the place of a hunk ---- */

  predicate Matches(lines: seq<string>, at: int, expected: seq<string>) {
    0 <= at && at + |expected| <= |lines| && lines[at..at + |expected|] == expected
  }

  const WINDOW := 20

  /** `p` is within the search window around `start`. */
  predicate Nearby(start: int, p: int) { start - 20 <= p <= start + 20 }

  function Candidates(lines: seq<string>, expected: seq<string>, lo: int, hi: int): seq<int>
    decreases hi - lo + 1
  {
    if lo > hi then []
    else (if Matches(lines, lo, expected) then [lo] else []) + Candidates(lines, expected, lo + 1, hi)
  }

  lemma {:induction false} CandidatesAre(lines: seq<string>, expected: seq<string>, lo: int, hi: int)
    ensures forall p :: p in Candidates(lines, expected, lo, hi) <==> lo <= p <= hi && Matches(lines, p, expected)
    ensures forall i, j :: 0 <= i < j < |Candidates(lines, expected, lo, hi)| ==>
              Candidates(lines, expected, lo, hi)[i] < Candidates(lines, expected, lo, hi)[j]
    decreases hi - lo + 1
  {
    hide Matches;
    if lo <= hi {
      CandidatesAre(lines, expected, lo + 1, hi);
      var tail := Candidates(lines, expected, lo + 1, hi);
      assert forall j :: 0 <= j < |tail| ==> tail[j] in tail;
    }
  }

  function Lower(start: int): int { if start - WINDOW < 0 then 0 else start - WINDOW }

  function Upper(lines: seq<string>, start: int, expected: seq<string>): int {
    if |lines| - |expected| < start + WINDOW then |lines| - |expected| else start + WINDOW
  }

  function Nearest(lines: seq<string>, start: int, expected: seq<string>): seq<int> {
    Candidates(lines, expected, Lower(start), Upper(lines, start, expected))
  }

  function Place(lines: seq<string>, start: int, expected: seq<string>): Applied<nat> {
    if start < 0 || start > |lines| then Err(OutsideFile)
    else if Matches(lines, start, expected) then Ok(start)
    else Choose(Nearest(lines, start, expected))
  }

  /** Exactly one candidate will do. */
  function Choose(candidates: seq<int>): Applied<nat> {
    if |candidates| > 1 then Err(Ambiguous)
    else if |candidates| == 1 && candidates[0] >= 0 then Ok(candidates[0])
    else Err(NoMatch)
  }

  lemma NearestAre(lines: seq<string>, start: int, expected: seq<string>)
    ensures forall q :: q in Nearest(lines, start, expected) <==> Nearby(start, q) && Matches(lines, q, expected)
    ensures forall q :: q in Nearest(lines, start, expected) ==> q >= 0
    ensures forall i, j :: 0 <= i < j < |Nearest(lines, start, expected)| ==>
              Nearest(lines, start, expected)[i] < Nearest(lines, start, expected)[j]
  {
    CandidatesAre(lines, expected, Lower(start), Upper(lines, start, expected));
  }

  /** What the search decides: the stated place if it matches, otherwise the only match
      within 20 lines; none or several are errors. */
  lemma PlaceMeaning(lines: seq<string>, start: int, expected: seq<string>)
    requires 0 <= start <= |lines|
    ensures forall p: nat ::
              Place(lines, start, expected) == Ok(p) <==>
              Matches(lines, p, expected) &&
              (p == start ||
               (!Matches(lines, start, expected) && Nearby(start, p) &&
                forall q :: Nearby(start, q) && Matches(lines, q, expected) ==> q == p))
    ensures Place(lines, start, expected) == Err(NoMatch) <==>
              forall q :: Nearby(start, q) ==> !Matches(lines, q, expected)
    ensures Place(lines, start, expected) == Err(Ambiguous) <==>
              !Matches(lines, start, expected) &&
              exists p, q :: p < q && Nearby(start, p) && Nearby(start, q) &&
                             Matches(lines, p, expected) && Matches(lines, q, expected)
  {
    hide Matches, Nearest, Candidates;
    assert Nearby(start, start);
    NearestAre(lines, start, expected);
    var cs := Nearest(lines, start, expected);
    if |cs| > 1 {
      assert cs[0] in cs && cs[1] in cs && cs[0] < cs[1];
    } else if |cs| == 1 {
      assert cs[0] in cs;
      assert forall q :: q in cs ==> q == cs[0];
    }
  }

  /* ---- application in place ---- */

  /** A stated place before the first or after the last line is an error of its own. */
  lemma OutsideIsRefused(lines: seq<string>, start: int, expected: seq<string>)
    ensures Place(lines, start, expected) == Err(OutsideFile) <==> start < 0 || start > |lines|
  {
    if 0 <= start <= |lines| { PlaceMeaning(lines, start, expected); }
  }

  function Replace(lines: seq<string>, p: nat, n: nat, inserted: seq<string>): seq<string>
    requires p + n <= |lines|
  {
    lines[..p] + inserted + lines[p + n..]
  }

  function ApplyHunks(lines: seq<string>, hunks: seq<Hunk>, offset: int, newline: string): Applied<seq<string>>
    decreases |hunks|
  {
    if hunks == [] then Ok(lines)
    else
      var h := hunks[0];
      var expected, replacement := Expected(h, newline), Replacement(h, newline);
      match Place(lines, OldIndex(h) + offset, expected)
      case Err(e) => Err(e)
      case Ok(p) =>
        PlaceFits(lines, OldIndex(h) + offset, expected);
        ApplyHunks(Replace(lines, p, |expected|, replacement), hunks[1..],
                   p - OldIndex(h) + |replacement| - |expected|, newline)
  }

  lemma PlaceFits(lines: seq<string>, start: int, expected: seq<string>)
    ensures Place(lines, start, expected).Ok? ==> Matches(lines, Place(lines, start, expected).value, expected)
  {
    if 0 <= start <= |lines| { PlaceMeaning(lines, start, expected); }
  }

  function ApplyText(original: string, hunks: seq<Hunk>): Applied<string> {
    match ApplyHunks(SplitLines(original), hunks, 0, NewlineStyle(original))
    case Ok(lines) => Ok(Join(lines))
    case Err(e) => Err(e)
  }

  lemma CandidatesUnfold(lines: seq<string>, expected: seq<string>, lo: int, hi: int)
    ensures lo > hi ==> Candidates(lines, expected, lo, hi) == []
    ensures lo <= hi ==>
              Candidates(lines, expected, lo, hi) ==
              (if Matches(lines, lo, expected) then [lo] else []) + Candidates(lines, expected, lo + 1, hi)
  {}

  method CollectCandidates(lines: seq<string>, expected: seq<string>, lower: int, upper: int) returns (candidates: seq<int>)
    ensures candidates == Candidates(lines, expected, lower, upper)
  {
    hide Matches, Candidates;
    candidates := [];
    var c := lower;
    while c <= upper
      invariant candidates + Candidates(lines, expected, c, upper) == Candidates(lines, expected, lower, upper)
      decreases upper - c + 1
    {
      CandidatesUnfold(lines, expected, c, upper);
      if Matches(lines, c, expected) { candidates := candidates + [c]; }
      c := c + 1;
    }
    CandidatesUnfold(lines, expected, c, upper);
  }

  method FindPlace(lines: seq<string>, start: int, expected: seq<string>) returns (r: Applied<nat>)
    ensures r == Place(lines, start, expected)
  {
    hide Matches, Candidates;
    if start < 0 || start > |lines| { return Err(OutsideFile); }
    if Matches(lines, start, expected) { return Ok(start); }
    var candidates := CollectCandidates(lines, expected, Lower(start), Upper(lines, start, expected));
    r := Choose(candidates);
  }

  method ApplyFilePatch(original: string, hunks: seq<Hunk>) returns (r: Applied<string>)
    ensures r == ApplyText(original, hunks)
  {
    hide Place, Matches;
    var lines := SplitLines(original);
    var offset := 0;
    var newline := NewlineStyle(original);
    for i := 0 to |hunks|
      invariant ApplyHunks(SplitLines(original), hunks, 0, newline) == ApplyHunks(lines, hunks[i..], offset, newline)
    {
      var h := hunks[i];
      assert hunks[i..][1..] == hunks[i + 1..];
      var oldIndex := OldIndex(h);
      var expected, replacement := Expected(h, newline), Replacement(h, newline);
      var place := FindPlace(lines, oldIndex + offset, expected);
      if place.Err? { return Err(place.error); }
      PlaceIsInside(lines, oldIndex + offset, expected);
      var start := place.value;
      lines := lines[..start] + replacement + lines[start + |expected|..];
      offset := offset + (start - oldIndex - offset) + |replacement| - |expected|;
    }
    r := Ok(Join(lines));
  }

  lemma PlaceIsInside(lines: seq<string>, start: int, expected: seq<string>)
    ensures Place(lines, start, expected).Ok? ==>
              Place(lines, start, expected).value + |expected| <= |lines|
  {
    PlaceFits(lines, start, expected);
  }

  /* ---- simultaneous splice ---- */

  /** The hunks are ordered, do not overlap and match the original where they say. */
  predicate Fits(orig: seq<string>, hunks: seq<Hunk>, pos: nat, newline: string)
    decreases |hunks|
  {
    if hunks == [] then pos <= |orig|
    else
      var at := OldIndex(hunks[0]);
      pos <= at && Matches(orig, at, Expected(hunks[0], newline)) &&
      Fits(orig, hunks[1..], at + |Expected(hunks[0], newline)|, newline)
  }

  /** All hunks replaced at once, in the coordinates of the original. */
  function Splice(orig: seq<string>, hunks: seq<Hunk>, pos: nat, newline: string): seq<string>
    requires Fits(orig, hunks, pos, newline)
    decreases |hunks|
  {
    if hunks == [] then orig[pos..]
    else
      var at := OldIndex(hunks[0]);
      orig[pos..at] + (Replacement(hunks[0], newline) +
        Splice(orig, hunks[1..], at + |Expected(hunks[0], newline)|, newline))
  }

  /** Every hunk is found exactly where its header and the running offset say. */
  predicate NeverRelocates(lines: seq<string>, hunks: seq<Hunk>, offset: int, newline: string)
    decreases |hunks|
  {
    hunks == [] ||
    (var h := hunks[0];
     var expected, replacement := Expected(h, newline), Replacement(h, newline);
     Matches(lines, OldIndex(h) + offset, expected) &&
     NeverRelocates(Replace(lines, OldIndex(h) + offset, |expected|, replacement), hunks[1..],
                    offset + |replacement| - |expected|, newline))
  }

  lemma MatchShifted(done: seq<string>, orig: seq<string>, pos: nat, at: int, expected: seq<string>)
    requires pos <= at && Matches(orig, at, expected)
    ensures pos <= |orig| && Matches(done + orig[pos..], at - pos + |done|, expected)
  {
    var lines := done + orig[pos..];
    var start := at - pos + |done|;
    assert lines[start..start + |expected|] == orig[at..at + |expected|];
  }

  lemma ReplaceShifted(done: seq<string>, orig: seq<string>, pos: nat, at: nat, n: nat, inserted: seq<string>)
    requires pos <= at && at + n <= |orig|
    ensures Replace(done + orig[pos..], at - pos + |done|, n, inserted) ==
            (done + orig[pos..at] + inserted) + orig[at + n..]
  {}

  lemma {:induction false} InPlaceFollowsSplice(done: seq<string>, orig: seq<string>, hunks: seq<Hunk>, pos: nat, newline: string)
    requires Fits(orig, hunks, pos, newline)
    ensures pos <= |orig|
    ensures NeverRelocates(done + orig[pos..], hunks, |done| - pos, newline)
    ensures ApplyHunks(done + orig[pos..], hunks, |done| - pos, newline) ==
            Ok(done + Splice(orig, hunks, pos, newline))
    decreases |hunks|
  {
    hide Matches, Expected, Replacement, Replace;
    if hunks != [] {
      var h := hunks[0];
      var at := OldIndex(h);
      var expected, replacement := Expected(h, newline), Replacement(h, newline);
      var start := at + (|done| - pos);
      MatchShifted(done, orig, pos, at, expected);
      PlaceExact(done + orig[pos..], start, expected);
      MatchBounds(orig, at, expected);
      ReplaceShifted(done, orig, pos, at, |expected|, replacement);
      var done' := done + orig[pos..at] + replacement;
      var pos' := at + |expected|;
      InPlaceFollowsSplice(done', orig, hunks[1..], pos', newline);
      assert start - at + |replacement| - |expected| == |done'| - pos';
      var tail := Splice(orig, hunks[1..], pos', newline);
      assert done' + tail == done + (orig[pos..at] + (replacement + tail));
    }
  }

  lemma PlaceExact(lines: seq<string>, start: int, expected: seq<string>)
    requires Matches(lines, start, expected)
    ensures Place(lines, start, expected) == Ok(start)
  {}

  lemma MatchBounds(lines: seq<string>, at: int, expected: seq<string>)
    requires Matches(lines, at, expected)
    ensures 0 <= at && at + |expected| <= |lines|
  {}

  /** In-place application with the running offset never searches and equals the
      simultaneous splice of all hunks into the original. */
  lemma ApplyIsSplice(orig: seq<string>, hunks: seq<Hunk>, newline: string)
    requires Fits(orig, hunks, 0, newline)
    ensures NeverRelocates(orig, hunks, 0, newline)
    ensures ApplyHunks(orig, hunks, 0, newline) == Ok(Splice(orig, hunks, 0, newline))
  {
    hide ApplyHunks, NeverRelocates, Splice, Fits;
    InPlaceFollowsSplice([], orig, hunks, 0, newline);
    assert [] + orig[0..] == orig;
    assert [] + Splice(orig, hunks, 0, newline) == Splice(orig, hunks, 0, newline);
  }

  /* ---- the reverse diff ---- */

  function FlipMark(m: Mark): Mark {
    match m
    case Keep => Keep
    case Add => Remove
    case Remove => Add
  }

  function Flip(lines: seq<HunkLine>): seq<HunkLine> {
    if lines == [] then [] else [HunkLine(FlipMark(lines[0].mark), lines[0].text)] + Flip(lines[1..])
  }

  function ReverseHunk(h: Hunk): Hunk {
    Hunk(h.newStart, h.newCount, h.oldStart, h.oldCount, Flip(h.lines))
  }

  function ReverseAll(hunks: seq<Hunk>): seq<Hunk> {
    if hunks == [] then [] else [ReverseHunk(hunks[0])] + ReverseAll(hunks[1..])
  }

  lemma {:induction false} FlipSwapsSides(lines: seq<HunkLine>, newline: string)
    ensures Side(Flip(lines), Add, newline) == Side(lines, Remove, newline)
    ensures Side(Flip(lines), Remove, newline) == Side(lines, Add, newline)
  {
    hide FileNewline;
    if lines != [] {
      FlipSwapsSides(lines[1..], newline);
      assert Flip(lines)[1..] == Flip(lines[1..]);
    }
  }

  lemma {:induction false} FlipTwice(lines: seq<HunkLine>)
    ensures Flip(Flip(lines)) == lines
  {
    if lines != [] {
      FlipTwice(lines[1..]);
      assert Flip(lines)[1..] == Flip(lines[1..]);
    }
  }

  /** Reversing a diff twice gives it back. */
  lemma {:induction false} ReverseTwice(hunks: seq<Hunk>)
    ensures ReverseAll(ReverseAll(hunks)) == hunks
  {
    if hunks != [] {
      FlipTwice(hunks[0].lines);
      ReverseTwice(hunks[1..]);
      assert ReverseAll(hunks)[1..] == ReverseAll(hunks[1..]);
    }
  }

  function CountSide(lines: seq<HunkLine>, dropped: Mark): nat {
    if lines == [] then 0 else (if lines[0].mark == dropped then 0 else 1) + CountSide(lines[1..], dropped)
  }

  lemma {:induction false} SideLength(lines: seq<HunkLine>, dropped: Mark, newline: string)
    ensures |Side(lines, dropped, newline)| == CountSide(lines, dropped)
  {
    hide FileNewline;
    if lines != [] { SideLength(lines[1..], dropped, newline); }
  }

  predicate CountsMatch(h: Hunk) {
    h.oldCount == CountSide(h.lines, Add) && h.newCount == CountSide(h.lines, Remove)
  }

  /** Headers as a diff tool writes them: true counts, and new positions that are the old
      ones moved by what the earlier hunks added and removed. */
  predicate Consistent(hunks: seq<Hunk>, shift: int)
    decreases |hunks|
  {
    hunks == [] ||
    (CountsMatch(hunks[0]) && NewIndex(hunks[0]) == OldIndex(hunks[0]) + shift &&
     Consistent(hunks[1..], shift + hunks[0].newCount - hunks[0].oldCount))
  }

  lemma ReversedSides(h: Hunk, newline: string)
    requires CountsMatch(h)
    ensures Expected(ReverseHunk(h), newline) == Replacement(h, newline)
    ensures Replacement(ReverseHunk(h), newline) == Expected(h, newline)
    ensures |Expected(h, newline)| == h.oldCount && |Replacement(h, newline)| == h.newCount
    ensures OldIndex(ReverseHunk(h)) == NewIndex(h)
  {
    FlipSwapsSides(h.lines, newline);
    SideLength(h.lines, Add, newline);
    SideLength(h.lines, Remove, newline);
  }

  lemma MatchInserted(pre: seq<string>, ls: seq<string>, post: seq<string>)
    ensures Matches(pre + ls + post, |pre|, ls)
  {}

  lemma SpliceFirst(orig: seq<string>, hunks: seq<Hunk>, pos: nat, newline: string)
    requires hunks != [] && Fits(orig, hunks, pos, newline)
    ensures var at, expected := OldIndex(hunks[0]), Expected(hunks[0], newline);
            pos <= at && at + |expected| <= |orig| && Matches(orig, at, expected) &&
            Fits(orig, hunks[1..], at + |expected|, newline) &&
            Splice(orig, hunks, pos, newline) ==
              orig[pos..at] + (Replacement(hunks[0], newline) + Splice(orig, hunks[1..], at + |expected|, newline))
  {}

  lemma FitsFirst(orig: seq<string>, h: Hunk, rest: seq<Hunk>, pos: nat, newline: string)
    requires pos <= OldIndex(h) && Matches(orig, OldIndex(h), Expected(h, newline))
    requires Fits(orig, rest, OldIndex(h) + |Expected(h, newline)|, newline)
    ensures Fits(orig, [h] + rest, pos, newline)
  {
    assert ([h] + rest)[1..] == rest;
  }

  lemma Regroup(a: seq<string>, b: seq<string>, c: seq<string>, d: seq<string>)
    ensures a + (b + (c + d)) == ((a + b) + c) + d
    ensures (a + b)[|a|..] == b && (((a + b) + c) + d)[|a|..|a| + |b|] == b
  {}

  lemma ReverseFirst(patched: seq<string>, front: seq<string>, tail: seq<string>, from: nat, h: Hunk, rest: seq<Hunk>, newline: string)
    requires CountsMatch(h) && NewIndex(h) == |front| && from <= |front|
    requires patched == (front + Replacement(h, newline)) + tail
    requires Fits(patched, rest, |front| + |Replacement(h, newline)|, newline)
    ensures Fits(patched, [ReverseHunk(h)] + rest, from, newline)
    ensures Splice(patched, [ReverseHunk(h)] + rest, from, newline) ==
            patched[from..|front|] +
              (Expected(h, newline) + Splice(patched, rest, |front| + |Replacement(h, newline)|, newline))
  {
    hide Matches, Expected, Replacement, ReverseHunk, CountsMatch, OldIndex, NewIndex, Fits, Splice;
    ReversedSides(h, newline);
    MatchInserted(front, Replacement(h, newline), tail);
    FitsFirst(patched, ReverseHunk(h), rest, from, newline);
    SpliceFirst(patched, [ReverseHunk(h)] + rest, from, newline);
    assert ([ReverseHunk(h)] + rest)[1..] == rest;
  }

  lemma {:induction false} ReverseFollowsSplice(done: seq<string>, orig: seq<string>, hunks: seq<Hunk>, pos: nat, newline: string)
    requires Fits(orig, hunks, pos, newline) && Consistent(hunks, |done| - pos)
    ensures pos <= |orig|
    ensures var patched := done + Splice(orig, hunks, pos, newline);
            Fits(patched, ReverseAll(hunks), |done|, newline) &&
            Splice(patched, ReverseAll(hunks), |done|, newline) == orig[pos..]
    decreases |hunks|
  {
    if hunks == [] {
      assert (done + orig[pos..])[|done|..] == orig[pos..];
    } else {
      ReverseStep(done, orig, hunks, pos, newline);
    }
  }

  lemma {:induction false} ReverseStep(done: seq<string>, orig: seq<string>, hunks: seq<Hunk>, pos: nat, newline: string)
    requires hunks != [] && Fits(orig, hunks, pos, newline) && Consistent(hunks, |done| - pos)
    ensures pos <= |orig|
    ensures var patched := done + Splice(orig, hunks, pos, newline);
            Fits(patched, ReverseAll(hunks), |done|, newline) &&
            Splice(patched, ReverseAll(hunks), |done|, newline) == orig[pos..]
    decreases |hunks|, 0
  {
    hide Matches, Expected, Replacement, ReverseHunk, CountsMatch, OldIndex, NewIndex, Fits, Splice;
    var h, rest := hunks[0], hunks[1..];
    var at := OldIndex(h);
    var expected, replacement := Expected(h, newline), Replacement(h, newline);
    SpliceFirst(orig, hunks, pos, newline);
    ReversedSides(h, newline);
    var kept := orig[pos..at];
    var front := done + kept;
    ReverseFollowsSplice(front + replacement, orig, rest, at + |expected|, newline);
    var tail := Splice(orig, rest, at + |expected|, newline);
    Regroup(done, kept, replacement, tail);
    var patched := (front + replacement) + tail;
    ReverseFirst(patched, front, tail, |done|, h, ReverseAll(rest), newline);
    MatchedPiece(orig, pos, at, expected);
  }

  lemma MatchedPiece(orig: seq<string>, pos: nat, at: int, expected: seq<string>)
    requires pos <= at && Matches(orig, at, expected)
    ensures orig[pos..] == orig[pos..at] + (expected + orig[at + |expected|..])
  {}

  /** Applying a diff and then its reverse restores the original lines. */
  lemma ReverseRestoresLines(orig: seq<string>, hunks: seq<Hunk>, newline: string)
    requires Fits(orig, hunks, 0, newline) && Consistent(hunks, 0)
    ensures var patched := Splice(orig, hunks, 0, newline);
            ApplyHunks(orig, hunks, 0, newline) == Ok(patched) &&
            Fits(patched, ReverseAll(hunks), 0, newline) &&
            ApplyHunks(patched, ReverseAll(hunks), 0, newline) == Ok(orig)
  {
    hide ApplyHunks, Splice, Fits, Consistent, ReverseAll;
    ApplyIsSplice(orig, hunks, newline);
    ReverseFollowsSplice([], orig, hunks, 0, newline);
    assert [] + Splice(orig, hunks, 0, newline) == Splice(orig, hunks, 0, newline);
    assert orig[0..] == orig;
    ApplyIsSplice(Splice(orig, hunks, 0, newline), ReverseAll(hunks), newline);
  }

  /* ---- what one hunk means, in lines ---- */

  /** A line that ends in one line feed. */
  predicate LfLine(l: string) {
    l != [] && l[|l| - 1] == '\n' && (|l| > 1 ==> l[|l| - 2] != '\n' && l[|l| - 2] != '\r')
  }

  predicate LfLines(ls: seq<string>) { forall i :: 0 <= i < |ls| ==> LfLine(ls[i]) }

  function Marked(mark: Mark, texts: seq<string>): seq<HunkLine> {
    seq(|texts|, i requires 0 <= i < |texts| => HunkLine(mark, texts[i]))
  }

  lemma LfLineKept(l: string)
    requires LfLine(l)
    ensures FileNewline(l, "\n") == l
  {
    var front := l[..|l| - 1];
    assert Body(l) == Body(front) == front;
    assert l == front + "\n";
  }

  lemma {:induction false} SideOfMarked(mark: Mark, texts: seq<string>, dropped: Mark)
    requires LfLines(texts)
    ensures Side(Marked(mark, texts), dropped, "\n") == if mark == dropped then [] else texts
  {
    hide FileNewline, LfLine;
    if texts != [] {
      SideOfMarked(mark, texts[1..], dropped);
      LfLineKept(texts[0]);
      assert Marked(mark, texts)[1..] == Marked(mark, texts[1..]);
      assert texts == [texts[0]] + texts[1..];
    }
  }

  lemma SideHead(a: seq<HunkLine>, b: seq<HunkLine>, dropped: Mark, newline: string)
    requires a != []
    ensures Side(a + b, dropped, newline) == Side([a[0]], dropped, newline) + Side(a[1..] + b, dropped, newline)
    ensures Side(a, dropped, newline) == Side([a[0]], dropped, newline) + Side(a[1..], dropped, newline)
  {
    hide FileNewline;
    assert (a + b)[0] == a[0] && (a + b)[1..] == a[1..] + b && [a[0]][1..] == [];
  }

  lemma {:induction false} SideConcat(a: seq<HunkLine>, b: seq<HunkLine>, dropped: Mark, newline: string)
    ensures Side(a + b, dropped, newline) == Side(a, dropped, newline) + Side(b, dropped, newline)
  {
    hide Side;
    if a == [] {
      assert a + b == b;
      NoSide(dropped, newline);
    } else {
      SideConcat(a[1..], b, dropped, newline);
      SideHead(a, b, dropped, newline);
    }
  }

  lemma NoSide(dropped: Mark, newline: string)
    ensures Side([], dropped, newline) == []
  {}

  /** The first hunk goes where it was found, and the rest follows with the offset it leaves. */
  lemma ApplyFirst(lines: seq<string>, hunks: seq<Hunk>, offset: int, newline: string, start: nat)
    requires hunks != [] && Place(lines, OldIndex(hunks[0]) + offset, Expected(hunks[0], newline)) == Ok(start)
    ensures start + |Expected(hunks[0], newline)| <= |lines|
    ensures ApplyHunks(lines, hunks, offset, newline) ==
            ApplyHunks(Replace(lines, start, |Expected(hunks[0], newline)|, Replacement(hunks[0], newline)), hunks[1..],
                       start - OldIndex(hunks[0]) + |Replacement(hunks[0], newline)| - |Expected(hunks[0], newline)|, newline)
  {
    hide Place, Expected, Replacement, OldIndex, Replace;
    PlaceIsInside(lines, OldIndex(hunks[0]) + offset, Expected(hunks[0], newline));
  }

  lemma ReplaceMiddle(before: seq<string>, old_: seq<string>, new_: seq<string>, after: seq<string>)
    ensures Replace(before + old_ + after, |before|, |old_|, new_) == before + new_ + after
    ensures Matches(before + old_ + after, |before|, old_)
  {
    assert (before + old_ + after)[|before|..|before| + |old_|] == old_;
  }

  /** Context, removed lines, added lines, context. */
  function ChangeLines(above: seq<string>, removed: seq<string>, added: seq<string>, below: seq<string>): seq<HunkLine> {
    Marked(Keep, above) + (Marked(Remove, removed) + (Marked(Add, added) + Marked(Keep, below)))
  }

  lemma ChangeSides(above: seq<string>, removed: seq<string>, added: seq<string>, below: seq<string>)
    requires LfLines(above) && LfLines(removed) && LfLines(added) && LfLines(below)
    ensures Side(ChangeLines(above, removed, added, below), Add, "\n") == above + (removed + below)
    ensures Side(ChangeLines(above, removed, added, below), Remove, "\n") == above + (added + below)
  {
    hide LfLines, Marked, Side;
    var k, r, a, b := Marked(Keep, above), Marked(Remove, removed), Marked(Add, added), Marked(Keep, below);
    SideOfMarked(Keep, above, Add);
    SideOfMarked(Keep, above, Remove);
    SideOfMarked(Remove, removed, Add);
    SideOfMarked(Remove, removed, Remove);
    SideOfMarked(Add, added, Add);
    SideOfMarked(Add, added, Remove);
    SideOfMarked(Keep, below, Add);
    SideOfMarked(Keep, below, Remove);
    SideConcat(k, r + (a + b), Add, "\n");
    SideConcat(r, a + b, Add, "\n");
    SideConcat(a, b, Add, "\n");
    SideConcat(k, r + (a + b), Remove, "\n");
    SideConcat(r, a + b, Remove, "\n");
    SideConcat(a, b, Remove, "\n");
  }

  /** Line numbers count from 1; a hunk that removes and keeps nothing names the line that
      its lines are inserted after. */
  lemma ChangeIsApplied(before: seq<string>, above: seq<string>, removed: seq<string>, added: seq<string>,
                        below: seq<string>, after: seq<string>, newStart: nat)
    requires LfLines(above) && LfLines(removed) && LfLines(added) && LfLines(below)
    ensures var n := |above| + |removed| + |below|;
            var h := Hunk(if n == 0 then |before| else |before| + 1, n, newStart, |above| + |added| + |below|,
                          ChangeLines(above, removed, added, below));
            ApplyHunks(before + (above + (removed + below)) + after, [h], 0, "\n") ==
            Ok(before + (above + (added + below)) + after)
  {
    hide Place, Side, LfLines, ChangeLines, ApplyHunks, Replace, Matches;
    ChangeSides(above, removed, added, below);
    var n := |above| + |removed| + |below|;
    var old_, new_ := above + (removed + below), above + (added + below);
    var h := Hunk(if n == 0 then |before| else |before| + 1, n, newStart, |above| + |added| + |below|,
                  ChangeLines(above, removed, added, below));
    ReplaceMiddle(before, old_, new_, after);
    PlaceExact(before + old_ + after, |before|, old_);
    ApplyFirst(before + old_ + after, [h], 0, "\n", |before|);
    assert [h][1..] == [];
    NothingToApply(before + new_ + after, |new_| - |old_|, "\n");
  }

  lemma NothingToApply(lines: seq<string>, offset: int, newline: string)
    ensures ApplyHunks(lines, [], offset, newline) == Ok(lines)
  {}

  /** When a file has drifted and the first hunk is found there, the others follow it. */
  lemma RelocationCarries(drift: seq<string>, orig: seq<string>, hunks: seq<Hunk>, newline: string)
    requires hunks != [] && Fits(orig, hunks, 0, newline)
    requires Place(drift + orig, OldIndex(hunks[0]), Expected(hunks[0], newline)) == Ok(|drift| + OldIndex(hunks[0]))
    ensures ApplyHunks(drift + orig, hunks, 0, newline) == Ok(drift + Splice(orig, hunks, 0, newline))
  {
    hide Place, Expected, Replacement, OldIndex, ApplyHunks, Replace, Fits, Splice, Matches, NeverRelocates;
    var h, lines := hunks[0], drift + orig;
    var at, expected, replacement := OldIndex(h), Expected(h, newline), Replacement(h, newline);
    SpliceFirst(orig, hunks, 0, newline);
    var pos := at + |expected|;
    var done := drift + orig[0..at] + replacement;
    ApplyFirst(lines, hunks, 0, newline, |drift| + at);
    DriftReplaced(drift, orig, at, |expected|, replacement);
    InPlaceFollowsSplice(done, orig, hunks[1..], pos, newline);
    DriftRegrouped(drift, orig[0..at], replacement, Splice(orig, hunks[1..], pos, newline));
  }

  lemma DriftReplaced(drift: seq<string>, orig: seq<string>, at: nat, n: nat, replacement: seq<string>)
    requires at + n <= |orig|
    ensures Replace(drift + orig, |drift| + at, n, replacement) == (drift + orig[0..at] + replacement) + orig[at + n..]
  {}

  lemma DriftRegrouped(a: seq<string>, b: seq<string>, c: seq<string>, d: seq<string>)
    ensures (a + b + c) + d == a + (b + (c + d))
  {}
}
