/** Reverse diffs at the level of file text, where the newline style is guessed anew
    from each text.  Reversal restores the file exactly when the patch did not remove
    the last CR LF of a CR LF file. */
module PatchNewlines {
  import opened Sequences
  import opened TextLines
  import opened PatchApply

  predicate NoCrLf(ls: seq<string>) { forall i :: 0 <= i < |ls| ==> !EndsCrLf(ls[i]) }

  /** No line on the kept side of these hunk lines ends in a newline. */
  predicate BareLines(lines: seq<HunkLine>, dropped: Mark) {
    forall i :: 0 <= i < |lines| && lines[i].mark != dropped ==> !EndsNewline(lines[i].text)
  }

  predicate BareSide(hunks: seq<Hunk>, dropped: Mark) {
    hunks == [] || (BareLines(hunks[0].lines, dropped) && BareSide(hunks[1..], dropped))
  }

  /* ---- single lines ---- */

  lemma {:induction false} BodyEnd(l: string)
    ensures !EndsNewline(Body(l))
    ensures !EndsNewline(l) ==> Body(l) == l
  {
    if EndsNewline(l) { BodyEnd(l[..|l| - 1]); }
  }

  lemma LfNeverCrLf(l: string)
    ensures !EndsCrLf(FileNewline(l, "\n"))
    ensures EndsCrLf(FileNewline(l, "\r\n")) <==> EndsNewline(l)
    ensures |FileNewline(l, "\n")| + (if EndsNewline(l) then 1 else 0) == |FileNewline(l, "\r\n")|
    ensures !EndsNewline(l) ==> FileNewline(l, "\n") == FileNewline(l, "\r\n")
  {
    BodyEnd(l);
    var b := Body(l);
    if EndsNewline(l) {
      assert (b + "\n")[|b|] == '\n' && |b| > 0 ==> (b + "\n")[|b| - 1] == b[|b| - 1];
      assert (b + "\r\n")[|b|] == '\r' && (b + "\r\n")[|b| + 1] == '\n';
    } else {
      assert b + "" == b;
    }
  }

  /* ---- one side of a hunk ---- */

  lemma BareTail(lines: seq<HunkLine>, dropped: Mark)
    requires lines != []
    ensures BareLines(lines, dropped) <==>
            (lines[0].mark == dropped || !EndsNewline(lines[0].text)) && BareLines(lines[1..], dropped)
  {
    hide EndsNewline;
    var t := lines[1..];
    assert forall i :: 0 <= i < |t| ==> t[i] == lines[i + 1];
    if BareLines(t, dropped) && (lines[0].mark == dropped || !EndsNewline(lines[0].text)) {
      forall i | 0 <= i < |lines| && lines[i].mark != dropped ensures !EndsNewline(lines[i].text) {
        if i > 0 { assert t[i - 1] == lines[i]; }
      }
    }
  }

  lemma {:induction false} SideFacts(lines: seq<HunkLine>, dropped: Mark)
    ensures NoCrLf(Side(lines, dropped, "\n"))
    ensures NoCrLf(Side(lines, dropped, "\r\n")) <==> BareLines(lines, dropped)
    ensures BareLines(lines, dropped) ==> Side(lines, dropped, "\n") == Side(lines, dropped, "\r\n")
    ensures |Join(Side(lines, dropped, "\n"))| <= |Join(Side(lines, dropped, "\r\n"))|
    ensures !BareLines(lines, dropped) ==>
              |Join(Side(lines, dropped, "\n"))| < |Join(Side(lines, dropped, "\r\n"))|
  {
    hide FileNewline, EndsNewline, EndsCrLf, BareLines;
    if lines != [] {
      var l, rest := lines[0], lines[1..];
      SideFacts(rest, dropped);
      BareTail(lines, dropped);
      LfNeverCrLf(l.text);
      if l.mark != dropped {
        ConsNoCrLf(FileNewline(l.text, "\n"), Side(rest, dropped, "\n"));
        ConsNoCrLf(FileNewline(l.text, "\r\n"), Side(rest, dropped, "\r\n"));
      } else {
        assert [] + Side(rest, dropped, "\n") == Side(rest, dropped, "\n");
        assert [] + Side(rest, dropped, "\r\n") == Side(rest, dropped, "\r\n");
      }
    } else {
      NothingIsBare(lines, dropped);
    }
  }

  lemma NothingIsBare(lines: seq<HunkLine>, dropped: Mark)
    requires lines == []
    ensures BareLines(lines, dropped)
  {}

  lemma ConsNoCrLf(l: string, ls: seq<string>)
    ensures NoCrLf([l] + ls) <==> !EndsCrLf(l) && NoCrLf(ls)
    ensures Join([l] + ls) == l + Join(ls)
  {
    hide EndsCrLf;
    var t := [l] + ls;
    assert t[1..] == ls;
    assert forall i :: 0 <= i < |ls| ==> ls[i] == t[i + 1];
    if !EndsCrLf(l) && NoCrLf(ls) {
      forall i | 0 <= i < |t| ensures !EndsCrLf(t[i]) {
        if i > 0 { assert t[i] == ls[i - 1]; }
      }
    }
    if NoCrLf(t) {
      assert !EndsCrLf(t[0]);
      forall i | 0 <= i < |ls| ensures !EndsCrLf(ls[i]) { assert !EndsCrLf(t[i + 1]); }
    }
  }

  lemma ConcatNoCrLf(a: seq<string>, b: seq<string>)
    ensures NoCrLf(a + b) <==> NoCrLf(a) && NoCrLf(b)
  {
    hide EndsCrLf;
    if NoCrLf(a + b) {
      forall i | 0 <= i < |a| ensures !EndsCrLf(a[i]) { assert !EndsCrLf((a + b)[i]); }
      forall i | 0 <= i < |b| ensures !EndsCrLf(b[i]) { assert !EndsCrLf((a + b)[|a| + i]); }
    }
  }

  lemma JoinThree(a: seq<string>, b: seq<string>, c: seq<string>)
    ensures |Join(a + (b + c))| == |Join(a)| + |Join(b)| + |Join(c)|
    ensures NoCrLf(a + (b + c)) <==> NoCrLf(a) && NoCrLf(b) && NoCrLf(c)
  {
    hide NoCrLf;
    JoinConcat(a, b + c);
    JoinConcat(b, c);
    ConcatNoCrLf(a, b + c);
    ConcatNoCrLf(b, c);
  }

  lemma HunkFacts(h: Hunk)
    ensures NoCrLf(Replacement(h, "\n"))
    ensures NoCrLf(Replacement(h, "\r\n")) <==> BareLines(h.lines, Remove)
    ensures BareLines(h.lines, Add) ==> Expected(h, "\n") == Expected(h, "\r\n")
    ensures |Join(Replacement(h, "\n"))| <= |Join(Replacement(h, "\r\n"))|
    ensures !BareLines(h.lines, Remove) ==>
              |Join(Replacement(h, "\n"))| < |Join(Replacement(h, "\r\n"))|
  {
    SideFacts(h.lines, Add);
    SideFacts(h.lines, Remove);
  }

  /* ---- whole splices ---- */

  lemma {:induction false} SpliceNoCrLf(orig: seq<string>, hunks: seq<Hunk>, pos: nat, newline: string)
    requires Fits(orig, hunks, pos, newline) && (newline == "\n" || newline == "\r\n")
    ensures pos <= |orig|
    ensures newline == "\r\n" && NoCrLf(Splice(orig, hunks, pos, newline)) ==> BareSide(hunks, Remove)
    ensures NoCrLf(orig) && (newline == "\n" || BareSide(hunks, Remove)) ==> NoCrLf(Splice(orig, hunks, pos, newline))
    decreases |hunks|
  {
    if hunks == [] {
      assert orig == orig[..pos] + orig[pos..];
      ConcatNoCrLf(orig[..pos], orig[pos..]);
    } else {
      hide NoCrLf, BareLines, Matches, Fits, Splice, Expected, Replacement, OldIndex, Join;
      var h := hunks[0];
      var at, expected, replacement := OldIndex(h), Expected(h, newline), Replacement(h, newline);
      SpliceFirst(orig, hunks, pos, newline);
      SpliceNoCrLf(orig, hunks[1..], at + |expected|, newline);
      var tail := Splice(orig, hunks[1..], at + |expected|, newline);
      JoinThree(orig[pos..at], replacement, tail);
      HunkFacts(h);
      SliceNoCrLf(orig, pos, at);
    }
  }

  lemma SliceNoCrLf(ls: seq<string>, i: nat, j: nat)
    requires i <= j <= |ls|
    ensures NoCrLf(ls) ==> NoCrLf(ls[i..j])
  {}

  /** The length of the spliced text with LF, against the same splice with CR LF. */
  lemma {:induction false} SpliceShorter(orig: seq<string>, hunks: seq<Hunk>, pos: nat)
    requires Fits(orig, hunks, pos, "\n") && Fits(orig, hunks, pos, "\r\n") && BareSide(hunks, Add)
    ensures var lf, crlf := Splice(orig, hunks, pos, "\n"), Splice(orig, hunks, pos, "\r\n");
            |Join(lf)| <= |Join(crlf)| && (!BareSide(hunks, Remove) ==> |Join(lf)| < |Join(crlf)|)
    decreases |hunks|
  {
    if hunks != [] {
      hide NoCrLf, BareLines, Matches, Fits, Splice, Expected, Replacement, OldIndex, Join;
      var h, rest := hunks[0], hunks[1..];
      SpliceFirst(orig, hunks, pos, "\n");
      SpliceFirst(orig, hunks, pos, "\r\n");
      HunkFacts(h);
      var at, n := OldIndex(h), |Expected(h, "\n")|;
      SpliceShorter(orig, rest, at + n);
      var lf, crlf := Splice(orig, rest, at + n, "\n"), Splice(orig, rest, at + n, "\r\n");
      JoinThree(orig[pos..at], Replacement(h, "\n"), lf);
      JoinThree(orig[pos..at], Replacement(h, "\r\n"), crlf);
    }
  }

  lemma {:induction false} FitsWithLf(orig: seq<string>, hunks: seq<Hunk>, pos: nat)
    requires Fits(orig, hunks, pos, "\r\n") && BareSide(hunks, Add)
    ensures Fits(orig, hunks, pos, "\n")
    decreases |hunks|
  {
    if hunks != [] {
      SideFacts(hunks[0].lines, Add);
      FitsWithLf(orig, hunks[1..], OldIndex(hunks[0]) + |Expected(hunks[0], "\n")|);
    }
  }

  lemma {:induction false} FlipBare(lines: seq<HunkLine>)
    ensures BareLines(lines, Remove) ==> BareLines(Flip(lines), Add)
  {
    hide EndsNewline, BareLines;
    if lines != [] {
      FlipBare(lines[1..]);
      BareTail(lines, Remove);
      BareTail(Flip(lines), Add);
      assert Flip(lines)[1..] == Flip(lines[1..]);
    } else {
      NothingIsBare(Flip(lines), Add);
    }
  }

  lemma {:induction false} ReverseBare(hunks: seq<Hunk>)
    ensures BareSide(hunks, Remove) ==> BareSide(ReverseAll(hunks), Add)
  {
    if hunks != [] {
      hide BareLines;
      ReverseBare(hunks[1..]);
      FlipBare(hunks[0].lines);
      assert ReverseAll(hunks)[1..] == ReverseAll(hunks[1..]);
    }
  }

  lemma StyleMeaning(ls: seq<string>)
    requires ProperLines(ls)
    ensures NewlineStyle(Join(ls)) == (if NoCrLf(ls) then "\n" else "\r\n")
  {
    JoinHasCrLf(ls);
  }

  /* ---- the theorem ---- */

  /** A diff that a tool made for `original`: it matches at its stated places, its headers
      are consistent, and the patched lines are lines. */
  predicate ToolMade(original: string, hunks: seq<Hunk>) {
    var newline, lines := NewlineStyle(original), SplitLines(original);
    Fits(lines, hunks, 0, newline) && Consistent(hunks, 0) && ProperLines(Splice(lines, hunks, 0, newline))
  }

  function PatchedLines(original: string, hunks: seq<Hunk>): seq<string>
    requires ToolMade(original, hunks)
  {
    Splice(SplitLines(original), hunks, 0, NewlineStyle(original))
  }

  lemma PatchedText(original: string, hunks: seq<Hunk>)
    requires ToolMade(original, hunks)
    ensures ApplyText(original, hunks) == Ok(Join(PatchedLines(original, hunks)))
    ensures SplitLines(Join(PatchedLines(original, hunks))) == PatchedLines(original, hunks)
  {
    ApplyIsSplice(SplitLines(original), hunks, NewlineStyle(original));
    SplitJoin(PatchedLines(original, hunks));
  }

  /** A file without CR LF never gains one. */
  lemma StyleOnlyDegrades(original: string, hunks: seq<Hunk>)
    requires ToolMade(original, hunks) && NewlineStyle(original) == "\n"
    ensures NewlineStyle(Join(PatchedLines(original, hunks))) == "\n"
  {
    var lines := SplitLines(original);
    SplitProper(original);
    JoinSplit(original);
    StyleMeaning(lines);
    SpliceNoCrLf(lines, hunks, 0, "\n");
    StyleMeaning(PatchedLines(original, hunks));
  }

  /** If the patch removed every CR LF, the reverse diff rewrites what it restores with LF. */
  lemma LostCrLfIsNotRestored(original: string, hunks: seq<Hunk>)
    requires ToolMade(original, hunks)
    requires NewlineStyle(original) == "\r\n" && NewlineStyle(Join(PatchedLines(original, hunks))) == "\n"
    ensures ApplyText(Join(PatchedLines(original, hunks)), ReverseAll(hunks)) != Ok(original)
  {
    hide Fits, Splice, Consistent, ProperLines, ApplyHunks, Join, SplitLines, HasCrLf, NoCrLf, BareSide, NeverRelocates;
    var lines, patched, back := SplitLines(original), PatchedLines(original, hunks), ReverseAll(hunks);
    PatchedText(original, hunks);
    StyleMeaning(patched);
    SpliceNoCrLf(lines, hunks, 0, "\r\n");
    ReverseBare(hunks);
    ReverseRestoresLines(lines, hunks, "\r\n");
    FitsWithLf(patched, back, 0);
    ApplyIsSplice(patched, back, "\n");
    ApplyIsSplice(patched, back, "\r\n");
    SpliceShorter(patched, back, 0);
    JoinSplit(original);
    SplitProper(original);
    StyleMeaning(lines);
    SpliceNoCrLf(patched, back, 0, "\r\n");
  }

  /** Applying a diff and then its reverse gives back the file, byte for byte, exactly when
      both texts have the same newline style. */
  lemma ReverseRestoresTextIff(original: string, hunks: seq<Hunk>)
    requires ToolMade(original, hunks)
    ensures var patched := Join(PatchedLines(original, hunks));
            ApplyText(original, hunks) == Ok(patched) &&
            (ApplyText(patched, ReverseAll(hunks)) == Ok(original) <==>
             NewlineStyle(patched) == NewlineStyle(original))
  {
    hide Fits, Splice, Consistent, ProperLines, ApplyHunks, Join, SplitLines, HasCrLf;
    PatchedText(original, hunks);
    var style, newStyle := NewlineStyle(original), NewlineStyle(Join(PatchedLines(original, hunks)));
    if style == newStyle {
      ReverseRestoresLines(SplitLines(original), hunks, style);
      JoinSplit(original);
    } else if style == "\n" {
      StyleOnlyDegrades(original, hunks);
    } else {
      LostCrLfIsNotRestored(original, hunks);
    }
  }

  function ExampleHunk(): Hunk {
    Hunk(1, 1, 1, 1, [HunkLine(Remove, "a\r\n"), HunkLine(Add, "b")])
  }

  lemma ExampleText()
    ensures SplitLines("a\r\n") == ["a\r\n"] && NewlineStyle("a\r\n") == "\r\n"
    ensures Join(["b"]) == "b" && ProperLines(["b"]) && NewlineStyle("b") == "\n"
  {
    var original := "a\r\n";
    assert original[1..] == "\r\n" && FirstLine("\r\n") == 2;
    assert original[..3] == original && original[3..] == "";
    assert original[1] == '\r' && original[1 + 1] == '\n';
    assert Join(["b"]) == "b" + Join([]);
  }

  lemma ExampleSides()
    ensures Expected(ExampleHunk(), "\r\n") == ["a\r\n"] && Replacement(ExampleHunk(), "\r\n") == ["b"]
    ensures CountsMatch(ExampleHunk())
  {
    var ls := ExampleHunk().lines;
    assert "a\r\n"[..2] == "a\r" && "a\r"[..1] == "a" && Body("a") == "a" && Body("a\r") == "a";
    assert FileNewline("a\r\n", "\r\n") == "a\r\n" && FileNewline("b", "\r\n") == "b";
    assert ls[1..] == [HunkLine(Add, "b")] && ls[1..][1..] == [];
    assert Side(ls[1..], Add, "\r\n") == [] && Side(ls[1..], Remove, "\r\n") == ["b"];
    assert CountSide(ls[1..], Add) == 0 && CountSide(ls[1..], Remove) == 1;
  }

  lemma ExampleFits()
    ensures Fits(["a\r\n"], [ExampleHunk()], 0, "\r\n") && Consistent([ExampleHunk()], 0)
    ensures Splice(["a\r\n"], [ExampleHunk()], 0, "\r\n") == ["b"]
  {
    ExampleSides();
    hide Expected, Replacement, CountsMatch;
    var hunks := [ExampleHunk()];
    assert hunks[1..] == [];
    assert Matches(["a\r\n"], 0, ["a\r\n"]);
  }

  /** Replacing the only line of a CR LF file by one without a final newline. */
  lemma LostStyleExample()
    ensures ToolMade("a\r\n", [ExampleHunk()]) && ApplyText("a\r\n", [ExampleHunk()]) == Ok("b")
    ensures ApplyText("b", ReverseAll([ExampleHunk()])) != Ok("a\r\n")
  {
    hide SplitLines, HasCrLf, Fits, Splice, Consistent, ProperLines, Join, ApplyText, ReverseAll;
    ExampleText();
    ExampleFits();
    ReverseRestoresTextIff("a\r\n", [ExampleHunk()]);
  }
}
