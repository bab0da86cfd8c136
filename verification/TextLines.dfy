/** Text as lines with their terminators, as Python's `splitlines(keepends=True)` cuts it. */
module TextLines {
  import opened Sequences

  predicate IsBreak(c: char) {
    c == '\n' || c == '\r' || c == '\U{0B}' || c == '\U{0C}' || c == '\U{1C}' || c == '\U{1D}' ||
    c == '\U{1E}' || c == '\U{85}' || c == '\U{2028}' || c == '\U{2029}'
  }

  /** Length of the first line, terminator included; CR LF is one terminator. */
  function FirstLine(s: string): (n: nat)
    requires s != []
    ensures 0 < n <= |s|
  {
    if !IsBreak(s[0]) then (if |s| == 1 then 1 else 1 + FirstLine(s[1..]))
    else if s[0] == '\r' && |s| > 1 && s[1] == '\n' then 2
    else 1
  }

  function SplitLines(s: string): seq<string> {
    if s == [] then [] else [s[..FirstLine(s)]] + SplitLines(s[FirstLine(s)..])
  }

  predicate IsLine(l: string) { l != [] && FirstLine(l) == |l| }

  predicate Terminated(l: string) { l != [] && IsBreak(l[|l| - 1]) }

  /** `b` may follow `a` without the two running together. */
  predicate Separated(a: string, b: string) {
    Terminated(a) && !(a[|a| - 1] == '\r' && b != [] && b[0] == '\n')
  }

  /** A list of lines that survives joining. */
  predicate ProperLines(ls: seq<string>) {
    (forall i :: 0 <= i < |ls| ==> IsLine(ls[i])) &&
    (forall i :: 0 <= i < |ls| - 1 ==> Separated(ls[i], ls[i + 1]))
  }

  lemma {:induction false} JoinSplit(s: string)
    ensures Join(SplitLines(s)) == s
    decreases |s|
  {
    if s != [] {
      JoinSplit(s[FirstLine(s)..]);
      assert SplitLines(s)[1..] == SplitLines(s[FirstLine(s)..]);
    }
  }

  lemma {:induction false} FirstLineOf(l: string, rest: string)
    requires IsLine(l) && (rest == [] || Separated(l, rest))
    ensures FirstLine(l + rest) == |l|
    decreases |l|
  {
    if rest == [] {
      assert l + rest == l;
    } else if !IsBreak(l[0]) && |l| > 1 {
      FirstLineOf(l[1..], rest);
      assert (l + rest)[1..] == l[1..] + rest;
    }
  }

  lemma {:induction false} SplitJoin(ls: seq<string>)
    requires ProperLines(ls)
    ensures SplitLines(Join(ls)) == ls
  {
    if ls != [] {
      var rest := Join(ls[1..]);
      assert forall i :: 0 <= i < |ls| - 1 ==> ls[1..][i] == ls[i + 1];
      assert ProperLines(ls[1..]) by {
        forall i | 0 <= i < |ls| - 2 ensures Separated(ls[1..][i], ls[1..][i + 1]) {
          assert Separated(ls[i + 1], ls[i + 1 + 1]);
        }
      }
      SplitJoin(ls[1..]);
      if |ls| > 1 {
        assert Separated(ls[0], ls[0 + 1]);
        assert IsLine(ls[1]);
        assert rest == ls[1] + Join(ls[1..][1..]) && rest[0] == ls[1][0];
      }
      FirstLineOf(ls[0], rest);
      assert Join(ls)[|ls[0]|..] == rest;
    }
  }

  lemma {:induction false} FirstLineIsLine(s: string)
    requires s != []
    ensures IsLine(s[..FirstLine(s)])
    ensures FirstLine(s) < |s| ==> Separated(s[..FirstLine(s)], s[FirstLine(s)..])
    decreases |s|
  {
    var n := FirstLine(s);
    if !IsBreak(s[0]) && |s| > 1 {
      FirstLineIsLine(s[1..]);
      var m := FirstLine(s[1..]);
      assert s[..n][1..] == s[1..][..m];
      assert s[n..] == s[1..][m..];
      assert m > 0 && s[..n][n - 1] == s[1..][..m][m - 1];
    } else if |s| > 1 {
      assert s[..n] == if n == 2 then [s[0], s[1]] else [s[0]];
    }
  }

  lemma {:induction false} SplitProper(s: string)
    ensures ProperLines(SplitLines(s))
    decreases |s|
  {
    if s != [] {
      var n := FirstLine(s);
      FirstLineIsLine(s);
      var rest := SplitLines(s[n..]);
      SplitProper(s[n..]);
      var ls := SplitLines(s);
      forall i | 0 <= i < |ls| - 1 ensures Separated(ls[i], ls[i + 1]) {
        if i == 0 {
          assert rest[0] == s[n..][..FirstLine(s[n..])];
        } else {
          assert Separated(rest[i - 1], rest[i - 1 + 1]);
        }
      }
    }
  }

  /* ---- line endings ---- */

  predicate IsNewlineChar(c: char) { c == '\n' || c == '\r' }

  /** The line without its trailing CR and LF characters. */
  function Body(l: string): string {
    if l != [] && IsNewlineChar(l[|l| - 1]) then Body(l[..|l| - 1]) else l
  }

  predicate EndsNewline(l: string) { l != [] && IsNewlineChar(l[|l| - 1]) }

  predicate HasCrLf(s: string) {
    exists i :: 0 <= i < |s| - 1 && s[i] == '\r' && s[i + 1] == '\n'
  }

  function NewlineStyle(s: string): string { if HasCrLf(s) then "\r\n" else "\n" }

  /** A hunk line rewritten to the file's own newline. */
  function FileNewline(l: string, newline: string): string {
    Body(l) + (if EndsNewline(l) then newline else "")
  }

  predicate EndsCrLf(l: string) { |l| >= 2 && l[|l| - 2] == '\r' && l[|l| - 1] == '\n' }

  lemma {:induction false} CrLfOnlyAtEnd(l: string, i: nat)
    requires IsLine(l) && i + 1 < |l| && l[i] == '\r' && l[i + 1] == '\n'
    ensures EndsCrLf(l)
    decreases i
  {
    if i > 0 { CrLfOnlyAtEnd(l[1..], i - 1); }
  }

  lemma {:induction false} JoinHasCrLf(ls: seq<string>)
    requires ProperLines(ls)
    ensures HasCrLf(Join(ls)) <==> exists k :: 0 <= k < |ls| && EndsCrLf(ls[k])
  {
    if ls != [] {
      var l, rest := ls[0], Join(ls[1..]);
      assert ProperLines(ls[1..]) by {
        forall i | 0 <= i < |ls| - 2 ensures Separated(ls[1..][i], ls[1..][i + 1]) {
          assert Separated(ls[i + 1], ls[i + 1 + 1]);
        }
      }
      JoinHasCrLf(ls[1..]);
      if |ls| > 1 {
        assert Separated(ls[0], ls[0 + 1]);
        assert IsLine(ls[1]);
        assert rest == ls[1] + Join(ls[1..][1..]) && rest[0] == ls[1][0];
      }
      JoinTwo(l, rest);
      if exists k :: 0 <= k < |ls| && EndsCrLf(ls[k]) {
        var k :| 0 <= k < |ls| && EndsCrLf(ls[k]);
        if k > 0 { assert ls[1..][k - 1] == ls[k]; }
      }
      if exists k :: 0 <= k < |ls[1..]| && EndsCrLf(ls[1..][k]) {
        var k :| 0 <= k < |ls[1..]| && EndsCrLf(ls[1..][k]);
        assert ls[k + 1] == ls[1..][k];
      }
    }
  }

  lemma JoinTwo(l: string, rest: string)
    requires IsLine(l) && (rest == [] || Separated(l, rest))
    ensures HasCrLf(l + rest) <==> EndsCrLf(l) || HasCrLf(rest)
  {
    var s := l + rest;
    if HasCrLf(s) {
      var i :| 0 <= i < |s| - 1 && s[i] == '\r' && s[i + 1] == '\n';
      if i + 1 < |l| {
        CrLfOnlyAtEnd(l, i);
      } else if i >= |l| {
        assert rest[i - |l|] == '\r' && rest[i - |l| + 1] == '\n';
      }
    }
    if EndsCrLf(l) { assert s[|l| - 2] == '\r' && s[|l| - 2 + 1] == '\n'; }
    if HasCrLf(rest) {
      var i :| 0 <= i < |rest| - 1 && rest[i] == '\r' && rest[i + 1] == '\n';
      assert s[|l| + i] == '\r' && s[|l| + i + 1] == '\n';
    }
  }

  /** Exactly these characters end a line. */
  lemma SplitsExactlyAt(c: char)
    ensures SplitLines(['x', c, 'y']) == [['x', c], ['y']] <==>
            c in {'\n', '\r', '\U{0B}', '\U{0C}', '\U{1C}', '\U{1D}', '\U{1E}', '\U{85}', '\U{2028}', '\U{2029}'}
  {
    var s := ['x', c, 'y'];
    assert s[1..] == [c, 'y'] && s[1..][1..] == ['y'];
    assert FirstLine(s) == 1 + FirstLine(s[1..]);
    if IsBreak(c) {
      assert FirstLine(s) == 2 && s[..2] == ['x', c] && s[2..] == ['y'];
      assert ['y'][..1] == ['y'] && ['y'][1..] == [];
    } else {
      assert FirstLine(s) == 3 && s[..3] == s && s[3..] == [];
    }
  }
}
