/** Text as lines: `str::lines`, and putting lines back together. */
module Text {

  /** Index of the first newline, or the length. */
  function LineEnd(s: string): (k: nat)
    ensures k <= |s|
  {
    if s == "" || s[0] == '\n' then 0 else 1 + LineEnd(s[1..])
  }

  /** A line feed takes one carriage return before it along. */
  function StripReturn(line: string): string {
    if line != "" && line[|line| - 1] == '\r' then line[..|line| - 1] else line
  }

  /** Lines end at `\n` or `\r\n`; a final line needs no ending, and keeps a bare `\r`. */
  function Lines(s: string): seq<string>
    decreases |s|
  {
    if s == "" then []
    else
      var k := LineEnd(s);
      if k == |s| then [s] else [StripReturn(s[..k])] + Lines(s[k + 1..])
  }

  function EndsInNewline(s: string): bool { s != "" && s[|s| - 1] == '\n' }

  function Join(lines: seq<string>): string {
    if lines == [] then ""
    else if |lines| == 1 then lines[0]
    else lines[0] + "\n" + Join(lines[1..])
  }

  function Unlines(lines: seq<string>, newline: bool): string {
    if newline then Join(lines) + "\n" else Join(lines)
  }

  /** The text with its lines put back together. */
  function Rebuilt(s: string): string { Unlines(Lines(s), EndsInNewline(s)) }

  predicate HasCrLf(s: string) {
    exists i :: 0 <= i < |s| - 1 && s[i] == '\r' && s[i + 1] == '\n'
  }

  /** Lines a text can be split into: no line breaks inside, and a text that does not end in one has a last line. */
  predicate Splittable(lines: seq<string>, newline: bool) {
    && (lines == [] ==> !newline)
    && (forall i :: 0 <= i < |lines| ==> '\n' !in lines[i])
    && (lines != [] && !newline ==> lines[|lines| - 1] != "")
  }

  /** What splitting does to lines that are joined with plain newlines: each one before a newline loses a final `\r`. */
  function Stripped(lines: seq<string>, newline: bool): (r: seq<string>)
    ensures |r| == |lines|
  {
    seq(|lines|, i requires 0 <= i < |lines| =>
      if newline || i + 1 < |lines| then StripReturn(lines[i]) else lines[i])
  }

  // ---------------------------------------------------------------- one line at a time

  lemma {:induction false} LineEndIsFirst(s: string)
    ensures '\n' !in s[..LineEnd(s)]
    ensures LineEnd(s) < |s| ==> s[LineEnd(s)] == '\n'
  {
    if s != "" && s[0] != '\n' {
      LineEndIsFirst(s[1..]);
      assert s[..LineEnd(s)] == [s[0]] + s[1..][..LineEnd(s[1..])];
    }
  }

  lemma LineEndOf(line: string, rest: string)
    requires '\n' !in line
    ensures LineEnd(line) == |line|
    ensures LineEnd(line + "\n" + rest) == |line|
  {
    if line != "" {
      assert line[0] in line;
      assert forall c :: c in line[1..] ==> c in line;
      LineEndOf(line[1..], rest);
      assert (line + "\n" + rest)[1..] == line[1..] + "\n" + rest;
    }
  }

  lemma LinesCons(line: string, rest: string)
    requires '\n' !in line
    ensures Lines(line + "\n" + rest) == [StripReturn(line)] + Lines(rest)
  {
    LineEndOf(line, rest);
    var s := line + "\n" + rest;
    assert s[..|line|] == line && s[|line| + 1..] == rest;
  }

  lemma LinesLast(line: string)
    requires '\n' !in line && line != ""
    ensures Lines(line) == [line]
  {
    LineEndOf(line, "");
  }

  lemma UnlinesCons(lines: seq<string>, newline: bool)
    requires lines != [] && (|lines| > 1 || newline)
    ensures Unlines(lines, newline) ==
            lines[0] + "\n" + (if |lines| == 1 then "" else Unlines(lines[1..], newline))
  {
    if |lines| > 1 {
      if newline { assert lines[0] + "\n" + Join(lines[1..]) + "\n" == lines[0] + "\n" + (Join(lines[1..]) + "\n"); }
    } else {
      assert lines[0] + "\n" + "" == lines[0] + "\n";
    }
  }

  lemma StrippedCons(lines: seq<string>, newline: bool)
    requires |lines| > 1
    ensures Stripped(lines, newline) == [StripReturn(lines[0])] + Stripped(lines[1..], newline)
  {
  }

  /** Joining lines and splitting the text again only costs carriage returns before a newline. */
  lemma {:induction false} LinesOfUnlines(lines: seq<string>, newline: bool)
    requires Splittable(lines, newline)
    ensures Lines(Unlines(lines, newline)) == Stripped(lines, newline)
    decreases |lines|
  {
    if lines == [] {
    } else if |lines| == 1 && !newline {
      assert Unlines(lines, false) == lines[0];
      LinesLast(lines[0]);
    } else {
      UnlinesCons(lines, newline);
      var rest := if |lines| == 1 then "" else Unlines(lines[1..], newline);
      LinesCons(lines[0], rest);
      if |lines| > 1 {
        StrippedCons(lines, newline);
        LinesOfUnlines(lines[1..], newline);
      }
    }
  }

  lemma {:induction false} UnlinesEnding(lines: seq<string>, newline: bool)
    requires Splittable(lines, newline)
    ensures EndsInNewline(Unlines(lines, newline)) == newline
    ensures lines != [] ==> Unlines(lines, newline) != ""
    decreases |lines|
  {
    if lines == [] {
    } else if |lines| == 1 && !newline {
      assert lines[0][|lines[0]| - 1] in lines[0];
    } else if !newline {
      UnlinesCons(lines, newline);
      UnlinesEnding(lines[1..], newline);
    }
  }

  // ---------------------------------------------------------------- text without CRLF

  lemma CrLfSplit(line: string, rest: string)
    requires '\n' !in line
    ensures HasCrLf(line + "\n" + rest) <==> (line != "" && line[|line| - 1] == '\r') || HasCrLf(rest)
  {
    var s, n := line + "\n" + rest, |line|;
    forall i | 0 <= i < n ensures s[i] != '\n' { assert s[i] == line[i] && line[i] in line; }
    if line != "" && line[n - 1] == '\r' { assert s[n - 1] == '\r' && s[n - 1 + 1] == '\n'; }
    if HasCrLf(rest) {
      var i :| 0 <= i < |rest| - 1 && rest[i] == '\r' && rest[i + 1] == '\n';
      assert s[n + 1 + i] == '\r' && s[n + 1 + i + 1] == '\n';
    }
    if HasCrLf(s) {
      var i :| 0 <= i < |s| - 1 && s[i] == '\r' && s[i + 1] == '\n';
      if i > n {
        assert rest[i - n - 1] == '\r' && rest[i - n - 1 + 1] == '\n';
      }
    }
  }

  lemma SplitAt(s: string, k: nat)
    requires k < |s| && s[k] == '\n'
    ensures s == s[..k] + "\n" + s[k + 1..]
  {
    assert s == s[..k] + [s[k]] + s[k + 1..];
  }

  lemma SplitAtLineEnd(s: string)
    requires LineEnd(s) < |s|
    ensures var k := LineEnd(s);
            s == s[..k] + "\n" + s[k + 1..] && '\n' !in s[..k]
  {
    LineEndIsFirst(s);
    SplitAt(s, LineEnd(s));
  }

  lemma NoNewlineNoCrLf(s: string)
    requires LineEnd(s) == |s|
    ensures !HasCrLf(s) && '\n' !in s
  {
    LineEndIsFirst(s);
    assert s[..|s|] == s;
  }

  lemma LinesNonEmpty(s: string)
    ensures Lines(s) == [] <==> s == ""
  {
  }

  lemma StripReturnInside(line: string)
    requires '\n' !in line
    ensures '\n' !in StripReturn(line)
  {
  }

  lemma SplittableCons(line: string, lines: seq<string>, newline: bool)
    requires '\n' !in line
    requires lines == [] ==> newline
    requires lines != [] ==> Splittable(lines, newline)
    ensures Splittable([line] + lines, newline)
  {
  }

  /** Every text splits into lines that its own ending fits. */
  lemma {:induction false} LinesSplittable(s: string)
    ensures Splittable(Lines(s), EndsInNewline(s))
    decreases |s|
  {
    var k := LineEnd(s);
    if s == "" {
    } else if k == |s| {
      NoNewlineNoCrLf(s);
    } else {
      SplitAtLineEnd(s);
      LinesSplittable(s[k + 1..]);
      LinesNonEmpty(s[k + 1..]);
      StripReturnInside(s[..k]);
      SplittableCons(StripReturn(s[..k]), Lines(s[k + 1..]), EndsInNewline(s));
    }
  }

  lemma RebuiltCons(line: string, rest: string)
    requires '\n' !in line
    ensures Rebuilt(line + "\n" + rest) == StripReturn(line) + "\n" + Rebuilt(rest)
  {
    var s := line + "\n" + rest;
    LinesCons(line, rest);
    LinesNonEmpty(rest);
    assert EndsInNewline(s) == (rest == "" || EndsInNewline(rest));
    UnlinesCons(Lines(s), EndsInNewline(s));
    assert Lines(s)[1..] == Lines(rest);
  }

  /** Rebuilding drops exactly the carriage returns of CRLF endings. */
  lemma {:induction false} RebuiltLength(s: string)
    ensures |Rebuilt(s)| <= |s|
    ensures HasCrLf(s) ==> |Rebuilt(s)| < |s|
    decreases |s|
  {
    var k := LineEnd(s);
    if s == "" {
    } else if k == |s| {
      NoNewlineNoCrLf(s);
    } else {
      SplitAtLineEnd(s);
      CrLfSplit(s[..k], s[k + 1..]);
      RebuiltCons(s[..k], s[k + 1..]);
      RebuiltLength(s[k + 1..]);
    }
  }

  /** Text survives being split and rebuilt exactly when it has no CRLF ending. */
  lemma {:induction false} RebuiltExact(s: string)
    ensures Rebuilt(s) == s <==> !HasCrLf(s)
    decreases |s|
  {
    RebuiltLength(s);
    var k := LineEnd(s);
    if !HasCrLf(s) && k < |s| {
      SplitAtLineEnd(s);
      CrLfSplit(s[..k], s[k + 1..]);
      RebuiltCons(s[..k], s[k + 1..]);
      RebuiltExact(s[k + 1..]);
    }
  }
}
