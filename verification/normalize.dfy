/** Whitespace normalization of extracted text. */
module Normalize {

  /** Unicode White_Space */
  predicate IsSpace(c: char) {
    var n := c as int;
    0x09 <= n <= 0x0D || n == 0x20 || n == 0x85 || n == 0xA0 || n == 0x1680 || 0x2000 <= n <= 0x200A
    || n == 0x2028 || n == 0x2029 || n == 0x202F || n == 0x205F || n == 0x3000
  }

  function TrimEnd(s: string): (r: string)
    ensures r <= s
  {
    if |s| > 0 && IsSpace(s[|s| - 1]) then TrimEnd(s[..|s| - 1]) else s
  }

  predicate Trimmed(s: string) {
    |s| > 0 ==> !IsSpace(s[|s| - 1])
  }

  predicate Free(s: string, c: char) {
    forall i :: 0 <= i < |s| ==> s[i] != c
  }

  /** `replace("\r\n", "\n")` */
  function ReplaceCrLf(s: string): string {
    if |s| == 0 then ""
    else if |s| > 1 && s[0] == '\r' && s[1] == '\n' then "\n" + ReplaceCrLf(s[2..])
    else [s[0]] + ReplaceCrLf(s[1..])
  }

  /** `replace('\r', "\n")` */
  function ReplaceCr(s: string): (r: string)
    ensures |r| == |s| && forall i :: 0 <= i < |s| ==> r[i] == if s[i] == '\r' then '\n' else s[i]
  {
    seq(|s|, i requires 0 <= i < |s| => if s[i] == '\r' then '\n' else s[i])
  }

  function Newlines(s: string): string {
    ReplaceCr(ReplaceCrLf(s))
  }

  function LineEnd(s: string): (n: nat)
    ensures n <= |s|
    ensures Free(s[..n], '\n')
    ensures n < |s| ==> s[n] == '\n'
  {
    if |s| == 0 || s[0] == '\n' then 0 else 1 + LineEnd(s[1..])
  }

  /** `str::lines` on text without carriage returns: a final newline opens no further line. */
  function Lines(s: string): seq<string> {
    if |s| == 0 then []
    else
      var n := LineEnd(s);
      [s[..n]] + if n < |s| then Lines(s[n + 1..]) else []
  }

  /** Lines without their trailing white space; of a run of blank ones only two survive. */
  function Kept(lines: seq<string>, blanks: nat): seq<string> {
    if |lines| == 0 then []
    else
      var line := TrimEnd(lines[0]);
      if |line| > 0 then [line] + Kept(lines[1..], 0)
      else (if blanks < 2 then [line] else []) + Kept(lines[1..], blanks + 1)
  }

  /** Every line closed by a newline. */
  function Unlines(lines: seq<string>): string {
    if |lines| == 0 then "" else lines[0] + "\n" + Unlines(lines[1..])
  }

  function Cleaned(input: string): string {
    TrimEnd(Unlines(Kept(Lines(Newlines(input)), 0)))
  }

  method Clean(input: string) returns (r: string)
    ensures r == Cleaned(input)
  {
    var lines := Lines(Newlines(input));
    var out := "";
    var blanks := 0;
    assert lines[0..] == lines;
    for i := 0 to |lines|
      invariant out + Unlines(Kept(lines[i..], blanks)) == Unlines(Kept(lines, 0))
    {
      CleanStep(out, lines, i, blanks);
      var line := TrimEnd(lines[i]);
      if |line| == 0 {
        blanks := blanks + 1;
        if blanks > 2 {
          continue;
        }
      } else {
        blanks := 0;
      }
      out := out + line + "\n";
    }
    assert lines[|lines|..] == [];
    assert Unlines(Kept([], blanks)) == "" && out + "" == out;
    r := TrimEnd(out);
  }

  /** One turn of the loop, seen from the lines that remain. */
  lemma CleanStep(out: string, lines: seq<string>, i: nat, blanks: nat)
    requires i < |lines|
    ensures var line := TrimEnd(lines[i]);
            if |line| == 0 && blanks >= 2 then Kept(lines[i..], blanks) == Kept(lines[i + 1..], blanks + 1)
            else out + Unlines(Kept(lines[i..], blanks)) ==
                 (out + line + "\n") + Unlines(Kept(lines[i + 1..], if |line| == 0 then blanks + 1 else 0))
  {
    var line := TrimEnd(lines[i]);
    KeptStep(lines[i], lines[i + 1..], blanks);
    assert lines[i..] == [lines[i]] + lines[i + 1..];
    UnlinesCons(line, Kept(lines[i + 1..], if |line| == 0 then blanks + 1 else 0));
  }

  lemma KeptStep(first: string, rest: seq<string>, blanks: nat)
    ensures var line := TrimEnd(first);
            Kept([first] + rest, blanks) ==
            if |line| == 0 && blanks >= 2 then Kept(rest, blanks + 1)
            else [line] + Kept(rest, if |line| == 0 then blanks + 1 else 0)
  {
    assert ([first] + rest)[1..] == rest;
  }

  lemma UnlinesCons(line: string, rest: seq<string>)
    ensures Unlines([line] + rest) == line + "\n" + Unlines(rest)
  {
    assert ([line] + rest)[1..] == rest;
  }

  // ---------- trimming ----------

  lemma {:induction false} TrimEndIsTrimmed(s: string)
    ensures Trimmed(TrimEnd(s))
    ensures Trimmed(s) ==> TrimEnd(s) == s
  {
    if |s| > 0 && IsSpace(s[|s| - 1]) { TrimEndIsTrimmed(s[..|s| - 1]); }
  }

  lemma {:induction false} TrimEndDropsSpaces(s: string, t: string)
    requires forall i :: 0 <= i < |t| ==> IsSpace(t[i])
    ensures TrimEnd(s + t) == TrimEnd(s)
  {
    if |t| > 0 {
      assert (s + t)[..|s + t| - 1] == s + t[..|t| - 1];
      TrimEndDropsSpaces(s, t[..|t| - 1]);
    } else {
      assert s + t == s;
    }
  }

  // ---------- newlines ----------

  lemma NewlinesRemoveCr(s: string)
    ensures Free(Newlines(s), '\r')
  {
  }

  lemma {:induction false} NewlinesKeepOthers(s: string)
    requires Free(s, '\r')
    ensures Newlines(s) == s
  {
    CrLfKeeps(s);
    assert ReplaceCr(s) == s;
  }

  lemma {:induction false} CrLfKeeps(s: string)
    requires Free(s, '\r')
    ensures ReplaceCrLf(s) == s
  {
    if |s| > 0 {
      CrLfKeeps(s[1..]);
      assert s == [s[0]] + s[1..];
    }
  }

  lemma {:induction false} CrLfSplits(a: string, b: string)
    ensures ReplaceCrLf(a + "\r\n" + b) == ReplaceCrLf(a) + "\n" + ReplaceCrLf(b)
  {
    var s := a + "\r\n" + b;
    if |a| == 0 {
      assert s[2..] == b;
    } else if |a| > 1 && a[0] == '\r' && a[1] == '\n' {
      assert s[2..] == a[2..] + "\r\n" + b;
      CrLfSplits(a[2..], b);
    } else {
      assert s[1..] == a[1..] + "\r\n" + b;
      CrLfSplits(a[1..], b);
    }
  }

  lemma {:induction false} CrSplits(a: string, b: string)
    requires |b| > 0 ==> b[0] != '\n'
    ensures ReplaceCrLf(a + "\r" + b) == ReplaceCrLf(a) + "\r" + ReplaceCrLf(b)
  {
    var s := a + "\r" + b;
    if |a| == 0 {
      assert s[1..] == b;
    } else if |a| > 1 && a[0] == '\r' && a[1] == '\n' {
      assert s[2..] == a[2..] + "\r" + b;
      CrSplits(a[2..], b);
    } else {
      assert s[1..] == a[1..] + "\r" + b;
      CrSplits(a[1..], b);
    }
  }

  lemma ReplaceCrConcat(a: string, c: string, b: string)
    requires c == "\n" || c == "\r"
    ensures ReplaceCr(a + c + b) == ReplaceCr(a) + "\n" + ReplaceCr(b)
  {
  }

  /** A carriage return with the newline after it, or alone, becomes one newline; everything else stays. */
  lemma NewlinesMean(a: string, b: string)
    ensures Newlines(a + "\r\n" + b) == Newlines(a) + "\n" + Newlines(b)
    ensures (|b| > 0 ==> b[0] != '\n') ==> Newlines(a + "\r" + b) == Newlines(a) + "\n" + Newlines(b)
    ensures Free(a, '\r') ==> Newlines(a) == a
  {
    CrLfSplits(a, b);
    ReplaceCrConcat(ReplaceCrLf(a), "\n", ReplaceCrLf(b));
    if |b| > 0 ==> b[0] != '\n' {
      CrSplits(a, b);
      ReplaceCrConcat(ReplaceCrLf(a), "\r", ReplaceCrLf(b));
    }
    if Free(a, '\r') { NewlinesKeepOthers(a); }
  }

  // ---------- lines ----------

  /** Lines hold no newline, and no character the text does not have. */
  lemma {:induction false} LinesAreFree(s: string, c: char)
    requires c == '\n' || Free(s, c)
    ensures forall i :: 0 <= i < |Lines(s)| ==> Free(Lines(s)[i], c)
  {
    if |s| > 0 {
      var n := LineEnd(s);
      if n < |s| { LinesAreFree(s[n + 1..], c); }
    }
  }

  lemma {:induction false} LineEndFinds(line: string, rest: string)
    requires Free(line, '\n')
    ensures LineEnd(line + "\n" + rest) == |line|
  {
    if |line| > 0 {
      LineEndFinds(line[1..], rest);
      assert (line + "\n" + rest)[1..] == line[1..] + "\n" + rest;
    }
  }

  lemma LinesCons(line: string, rest: string)
    requires Free(line, '\n')
    ensures Lines(line + "\n" + rest) == [line] + Lines(rest)
  {
    var s := line + "\n" + rest;
    LineEndFinds(line, rest);
    assert s[..|line|] == line && s[|line| + 1..] == rest;
  }

  lemma LinesOfOne(line: string)
    requires Free(line, '\n') && |line| > 0
    ensures Lines(line) == [line]
  {
    LineEndAtEnd(line);
    assert line[..|line|] == line;
  }

  lemma LineEndAtEnd(line: string)
    requires Free(line, '\n')
    ensures LineEnd(line) == |line|
  {
  }

  /** What is left of the lines when the text is trimmed: no blank lines at the end. */
  function DropBlankTail(lines: seq<string>): (r: seq<string>)
    ensures r <= lines
  {
    if |lines| > 0 && |lines[|lines| - 1]| == 0 then DropBlankTail(lines[..|lines| - 1]) else lines
  }

  /** Lines separated by newlines. */
  function Join(lines: seq<string>): string {
    if |lines| == 0 then "" else if |lines| == 1 then lines[0] else lines[0] + "\n" + Join(lines[1..])
  }

  predicate CleanLine(line: string) {
    Free(line, '\n') && Free(line, '\r') && Trimmed(line)
  }

  predicate CleanLines(lines: seq<string>) {
    forall i :: 0 <= i < |lines| ==> CleanLine(lines[i])
  }

  lemma {:induction false} KeptAreClean(lines: seq<string>, blanks: nat)
    requires forall i :: 0 <= i < |lines| ==> Free(lines[i], '\n') && Free(lines[i], '\r')
    ensures CleanLines(Kept(lines, blanks))
  {
    if |lines| > 0 {
      TrimEndIsTrimmed(lines[0]);
      assert CleanLine(TrimEnd(lines[0]));
      KeptAreClean(lines[1..], 0);
      KeptAreClean(lines[1..], blanks + 1);
    }
  }

  lemma {:induction false} UnlinesConcat(a: seq<string>, b: seq<string>)
    ensures Unlines(a + b) == Unlines(a) + Unlines(b)
  {
    if |a| > 0 {
      assert (a + b)[1..] == a[1..] + b;
      UnlinesConcat(a[1..], b);
    } else {
      assert a + b == b;
    }
  }

  lemma {:induction false} UnlinesIsJoin(lines: seq<string>)
    requires |lines| > 0
    ensures Unlines(lines) == Join(lines) + "\n"
  {
    if |lines| > 1 { UnlinesIsJoin(lines[1..]); }
  }

  lemma {:induction false} JoinEndsWithLast(lines: seq<string>)
    requires |lines| > 0 && |lines[|lines| - 1]| > 0 && CleanLines(lines)
    ensures |Join(lines)| > 0 && Trimmed(Join(lines))
  {
    if |lines| > 1 { JoinEndsWithLast(lines[1..]); } else { assert CleanLine(lines[0]); }
  }

  /** Trimming the assembled text drops the blank lines at its end. */
  lemma {:induction false} TrimUnlines(lines: seq<string>)
    requires CleanLines(lines)
    ensures TrimEnd(Unlines(lines)) == Join(DropBlankTail(lines))
  {
    if |lines| > 0 {
      var front, last := lines[..|lines| - 1], lines[|lines| - 1];
      assert lines == front + [last];
      if |last| == 0 {
        UnlinesConcat(front, [last]);
        UnlinesCons(last, []);
        assert Unlines([last]) == "\n";
        TrimEndDropsSpaces(Unlines(front), "\n");
        TrimUnlines(front);
      } else {
        UnlinesIsJoin(lines);
        JoinEndsWithLast(lines);
        TrimEndDropsSpaces(Join(lines), "\n");
        TrimEndIsTrimmed(Join(lines));
      }
    }
  }

  lemma {:induction false} LinesOfJoin(lines: seq<string>)
    requires CleanLines(lines) && (|lines| > 0 ==> |lines[|lines| - 1]| > 0)
    ensures Lines(Join(lines)) == lines
  {
    if |lines| == 1 {
      assert CleanLine(lines[0]);
      LinesOfOne(lines[0]);
      assert lines == [lines[0]];
    } else if |lines| > 1 {
      assert CleanLine(lines[0]);
      LinesCons(lines[0], Join(lines[1..]));
      LinesOfJoin(lines[1..]);
      assert lines == [lines[0]] + lines[1..];
    }
  }

  // ---------- blank runs ----------

  /** No run of more than two blank lines, `blanks` of which may already have been seen. */
  predicate ShortRuns(lines: seq<string>, blanks: nat) {
    |lines| > 0 ==>
      if |lines[0]| > 0 then ShortRuns(lines[1..], 0) else blanks < 2 && ShortRuns(lines[1..], blanks + 1)
  }

  lemma {:induction false} KeptHasShortRuns(lines: seq<string>, blanks: nat)
    ensures ShortRuns(Kept(lines, blanks), if blanks < 2 then blanks else 2)
  {
    if |lines| > 0 {
      var line := TrimEnd(lines[0]);
      var rest := if |line| > 0 then Kept(lines[1..], 0) else Kept(lines[1..], blanks + 1);
      assert ([line] + rest)[1..] == rest;
      assert lines == [lines[0]] + lines[1..];
      KeptStep(lines[0], lines[1..], blanks);
      KeptHasShortRuns(lines[1..], 0);
      KeptHasShortRuns(lines[1..], blanks + 1);
    }
  }

  lemma {:induction false} ShortRunsPrefix(lines: seq<string>, n: nat, blanks: nat)
    requires n <= |lines| && ShortRuns(lines, blanks)
    ensures ShortRuns(lines[..n], blanks)
  {
    if n > 0 {
      assert lines[..n][1..] == lines[1..][..n - 1];
      ShortRunsPrefix(lines[1..], n - 1, if |lines[0]| > 0 then 0 else blanks + 1);
    }
  }

  lemma {:induction false} ShortRunsMeaning(lines: seq<string>, blanks: nat, i: nat)
    requires ShortRuns(lines, blanks) && i + 2 < |lines|
    ensures |lines[i]| > 0 || |lines[i + 1]| > 0 || |lines[i + 2]| > 0
  {
    if i > 0 {
      ShortRunsMeaning(lines[1..], if |lines[0]| > 0 then 0 else blanks + 1, i - 1);
    } else {
      assert lines[1..][1..] == lines[2..];
      assert |lines[0]| == 0 && |lines[1]| == 0 ==> ShortRuns(lines[2..], blanks + 2);
    }
  }

  lemma {:induction false} KeptKeepsClean(lines: seq<string>, blanks: nat)
    requires CleanLines(lines) && ShortRuns(lines, blanks)
    ensures Kept(lines, blanks) == lines
  {
    if |lines| > 0 {
      assert CleanLine(lines[0]);
      TrimEndIsTrimmed(lines[0]);
      KeptKeepsClean(lines[1..], if |lines[0]| > 0 then 0 else blanks + 1);
      assert lines == [lines[0]] + lines[1..];
    }
  }

  lemma {:induction false} ShortRunsFrom(lines: seq<string>, blanks: nat)
    requires forall i :: 0 <= i < |lines| - 2 ==> |lines[i]| > 0 || |lines[i + 1]| > 0 || |lines[i + 2]| > 0
    requires blanks <= 2 && (blanks >= 1 && |lines| >= 2 ==> |lines[0]| > 0 || |lines[1]| > 0)
    requires blanks == 2 && |lines| >= 1 ==> |lines[0]| > 0
    ensures ShortRuns(lines, blanks)
  {
    if |lines| > 0 {
      assert |lines| > 2 ==> |lines[0]| > 0 || |lines[0 + 1]| > 0 || |lines[0 + 2]| > 0;
      forall i | 0 <= i < |lines| - 3
        ensures |lines[1..][i]| > 0 || |lines[1..][i + 1]| > 0 || |lines[1..][i + 2]| > 0
      {
        assert |lines[i + 1]| > 0 || |lines[(i + 1) + 1]| > 0 || |lines[(i + 1) + 2]| > 0;
      }
      ShortRunsFrom(lines[1..], if |lines[0]| > 0 then 0 else blanks + 1);
    }
  }

  lemma JoinCons(line: string, rest: seq<string>)
    requires |rest| > 0
    ensures Join([line] + rest) == line + "\n" + Join(rest)
  {
    assert ([line] + rest)[1..] == rest;
  }

  /** Text that does not end in a newline is its lines, joined. */
  lemma {:induction false} JoinLines(s: string)
    requires |s| > 0 ==> s[|s| - 1] != '\n'
    ensures Join(Lines(s)) == s
    ensures |s| > 0 ==> |Lines(s)| > 0 && |Lines(s)[|Lines(s)| - 1]| > 0
  {
    if |s| > 0 {
      var n := LineEnd(s);
      var line := s[..n];
      if n < |s| {
        var rest := s[n + 1..];
        assert s == line + "\n" + rest;
        LinesCons(line, rest);
        JoinLines(rest);
        JoinCons(line, Lines(rest));
      } else {
        assert line == s;
        LinesOfOne(s);
      }
    }
  }

  // ---------- the results ----------

  /** Text that already is normal is left exactly as it is. */
  lemma NormalTextStays(text: string)
    requires Free(text, '\r') && Trimmed(text)
    requires forall i :: 0 <= i < |Lines(text)| ==> Trimmed(Lines(text)[i])
    requires forall i :: 0 <= i < |Lines(text)| - 2 ==>
               |Lines(text)[i]| > 0 || |Lines(text)[i + 1]| > 0 || |Lines(text)[i + 2]| > 0
    ensures Cleaned(text) == text
  {
    var lines := Lines(text);
    NewlinesKeepOthers(text);
    LinesAreFree(text, '\n');
    LinesAreFree(text, '\r');
    ShortRunsFrom(lines, 0);
    JoinLines(text);
    CleanLinesStay(lines);
  }

  lemma CleanLinesStay(lines: seq<string>)
    requires CleanLines(lines) && ShortRuns(lines, 0) && (|lines| > 0 ==> |lines[|lines| - 1]| > 0)
    ensures TrimEnd(Unlines(Kept(lines, 0))) == Join(lines)
  {
    KeptKeepsClean(lines, 0);
    TrimUnlines(lines);
    assert DropBlankTail(lines) == lines;
  }

  lemma {:induction false} DropBlankTailEnds(lines: seq<string>)
    ensures |DropBlankTail(lines)| > 0 ==> |DropBlankTail(lines)[|DropBlankTail(lines)| - 1]| > 0
  {
    if |lines| > 0 && |lines[|lines| - 1]| == 0 { DropBlankTailEnds(lines[..|lines| - 1]); }
  }

  /** The lines of the cleaned text. */
  lemma CleanedLines(input: string)
    ensures var lines := DropBlankTail(Kept(Lines(Newlines(input)), 0));
            && Cleaned(input) == Join(lines) && Lines(Cleaned(input)) == lines
            && CleanLines(lines) && ShortRuns(lines, 0)
  {
    var text := Newlines(input);
    var kept := Kept(Lines(text), 0);
    NewlinesRemoveCr(input);
    LinesAreFree(text, '\n');
    LinesAreFree(text, '\r');
    KeptAreClean(Lines(text), 0);
    TrimUnlines(kept);
    var lines := DropBlankTail(kept);
    assert lines == kept[..|lines|];
    DropBlankTailEnds(kept);
    LinesOfJoin(lines);
    KeptHasShortRuns(Lines(text), 0);
    ShortRunsPrefix(kept, |lines|, 0);
  }

  lemma {:induction false} JoinHasNoCr(lines: seq<string>)
    requires CleanLines(lines)
    ensures Free(Join(lines), '\r')
  {
    if |lines| > 0 {
      assert CleanLine(lines[0]);
      JoinHasNoCr(lines[1..]);
    }
  }

  /** No carriage return, no white space at a line end, never three blank lines in a row. */
  lemma CleanedIsNormal(input: string)
    ensures Free(Cleaned(input), '\r')
    ensures forall i :: 0 <= i < |Lines(Cleaned(input))| ==> Trimmed(Lines(Cleaned(input))[i])
    ensures forall i :: 0 <= i < |Lines(Cleaned(input))| - 2 ==>
              |Lines(Cleaned(input))[i]| > 0 || |Lines(Cleaned(input))[i + 1]| > 0 || |Lines(Cleaned(input))[i + 2]| > 0
  {
    CleanedLines(input);
    var lines := Lines(Cleaned(input));
    JoinHasNoCr(lines);
    forall i | 0 <= i < |lines| - 2 ensures |lines[i]| > 0 || |lines[i + 1]| > 0 || |lines[i + 2]| > 0 {
      ShortRunsMeaning(lines, 0, i);
    }
    forall i | 0 <= i < |lines| ensures Trimmed(lines[i]) {
      assert CleanLine(lines[i]);
    }
  }

  lemma CleanedIsIdempotent(input: string)
    ensures Cleaned(Cleaned(input)) == Cleaned(input)
  {
    CleanedLines(input);
    var r := Cleaned(input);
    var lines := Lines(r);
    JoinHasNoCr(lines);
    NewlinesKeepOthers(r);
    KeptKeepsClean(lines, 0);
    CleanedLines(r);
    DropBlankTailEnds(Kept(Lines(Newlines(input)), 0));
    assert DropBlankTail(lines) == lines;
  }

  function NonBlank(lines: seq<string>): seq<string> {
    if |lines| == 0 then []
    else (if |TrimEnd(lines[0])| > 0 then [TrimEnd(lines[0])] else []) + NonBlank(lines[1..])
  }

  lemma {:induction false} KeptLosesNoText(lines: seq<string>, blanks: nat)
    ensures NonBlank(Kept(lines, blanks)) == NonBlank(lines)
  {
    if |lines| > 0 {
      var line := TrimEnd(lines[0]);
      TrimEndIsTrimmed(lines[0]);
      TrimEndIsTrimmed(line);
      assert lines == [lines[0]] + lines[1..];
      KeptStep(lines[0], lines[1..], blanks);
      KeptLosesNoText(lines[1..], 0);
      KeptLosesNoText(lines[1..], blanks + 1);
      var rest := if |line| > 0 then Kept(lines[1..], 0) else Kept(lines[1..], blanks + 1);
      assert ([line] + rest)[1..] == rest;
    }
  }

  lemma {:induction false} NonBlankSnoc(lines: seq<string>)
    requires |lines| > 0 && |lines[|lines| - 1]| == 0
    ensures NonBlank(lines[..|lines| - 1]) == NonBlank(lines)
  {
    if |lines| > 1 {
      NonBlankSnoc(lines[1..]);
      assert lines[1..][..|lines| - 2] == lines[..|lines| - 1][1..];
    }
  }

  lemma {:induction false} DropBlankTailLosesNoText(lines: seq<string>)
    ensures NonBlank(DropBlankTail(lines)) == NonBlank(lines)
  {
    if |lines| > 0 && |lines[|lines| - 1]| == 0 {
      DropBlankTailLosesNoText(lines[..|lines| - 1]);
      NonBlankSnoc(lines);
    }
  }

  /** The non-blank lines survive in order, each without its trailing white space. */
  lemma CleanedKeepsText(input: string)
    ensures NonBlank(Lines(Cleaned(input))) == NonBlank(Lines(Newlines(input)))
  {
    CleanedLines(input);
    KeptLosesNoText(Lines(Newlines(input)), 0);
    DropBlankTailLosesNoText(Kept(Lines(Newlines(input)), 0));
  }
}
