/** Trimming card content before it is saved (clients/lib/src/sync.rs). */
module Trimming {
  import opened Text

  /** The Unicode property White_Space, which `trim` and `trim_end` go by. */
  predicate IsSpace(c: char) {
    var n := c as int;
    || 0x9 <= n <= 0xD || n == 0x20 || n == 0x85 || n == 0xA0 || n == 0x1680
    || 0x2000 <= n <= 0x200A || n == 0x2028 || n == 0x2029 || n == 0x202F || n == 0x205F || n == 0x3000
  }

  predicate StartsInSpace(s: string) { s != "" && IsSpace(s[0]) }

  predicate EndsInSpace(s: string) { s != "" && IsSpace(s[|s| - 1]) }

  function TrimEnd(s: string): (r: string)
    ensures r <= s && !EndsInSpace(r)
    ensures forall i :: |r| <= i < |s| ==> IsSpace(s[i])
  {
    if EndsInSpace(s) then TrimEnd(s[..|s| - 1]) else s
  }

  function TrimStart(s: string): (r: string)
    ensures |r| <= |s| && r == s[|s| - |r|..] && !StartsInSpace(r)
    ensures forall i :: 0 <= i < |s| - |r| ==> IsSpace(s[i])
  {
    if StartsInSpace(s) then TrimStart(s[1..]) else s
  }

  function Trim(s: string): (r: string)
    ensures !StartsInSpace(r) && !EndsInSpace(r)
  {
    var r := TrimEnd(TrimStart(s));
    assert r != "" ==> r[0] == TrimStart(s)[0];
    r
  }

  ghost predicate AllSpace(s: string) { forall i :: 0 <= i < |s| ==> IsSpace(s[i]) }

  lemma TrimsStart(s: string, before: string)
    requires before == s[..|s| - |TrimStart(s)|]
    ensures s == before + TrimStart(s) && AllSpace(before)
  {
  }

  lemma TrimsEnd(t: string, after: string)
    requires after == t[|TrimEnd(t)|..]
    ensures t == TrimEnd(t) + after && AllSpace(after)
  {
    forall i | 0 <= i < |after| ensures IsSpace(after[i]) {
      assert after[i] == t[|TrimEnd(t)| + i];
    }
  }

  lemma InThree(s: string, before: string, t: string, middle: string, after: string)
    requires s == before + t && t == middle + after
    ensures s == before + middle + after
  {
    assert before + (middle + after) == before + middle + after;
  }

  /** Trimming takes space off both ends and leaves the middle as it is. */
  lemma TrimIsMiddle(s: string) returns (before: string, after: string)
    ensures s == before + Trim(s) + after && AllSpace(before) && AllSpace(after)
  {
    var t := TrimStart(s);
    before, after := s[..|s| - |t|], t[|TrimEnd(t)|..];
    TrimsStart(s, before);
    TrimsEnd(t, after);
    InThree(s, before, t, TrimEnd(t), after);
  }

  /** The 25 code points of the property. */
  lemma SpacesAre(c: char)
    ensures IsSpace(c) <==>
            c as int in {9, 10, 11, 12, 13, 32, 133, 160, 5760, 8192, 8193, 8194, 8195, 8196, 8197, 8198, 8199, 8200,
                         8201, 8202, 8232, 8233, 8239, 8287, 12288}
  {
  }

  function TrimLines(lines: seq<string>): (r: seq<string>)
    ensures |r| == |lines|
    ensures forall i :: 0 <= i < |r| ==> r[i] == TrimEnd(lines[i])
  {
    seq(|lines|, i requires 0 <= i < |lines| => TrimEnd(lines[i]))
  }

  function TrimContent(raw: string): string { Join(TrimLines(Lines(Trim(raw)))) }

  // ---------------------------------------------------------------- the result is trimmed

  /** The first line of a text that starts in something else than space starts with the same character. */
  lemma FirstLine(s: string)
    requires s != "" && !StartsInSpace(s)
    ensures Lines(s) != [] && Lines(s)[0] != "" && Lines(s)[0][0] == s[0]
  {
  }

  /** The last line of a text that ends in something else than space ends with the same character. */
  lemma {:induction false} LastLine(s: string)
    requires s != "" && !EndsInSpace(s)
    ensures Lines(s) != [] && Lines(s)[|Lines(s)| - 1] != "" && !EndsInSpace(Lines(s)[|Lines(s)| - 1])
    ensures !EndsInNewline(s)
    decreases |s|
  {
    var k := LineEnd(s);
    if k < |s| {
      LineEndIsFirst(s);
      LastLine(s[k + 1..]);
    }
  }

  lemma PlainEnd(line: string)
    requires !EndsInSpace(line)
    ensures StripReturn(line) == line && TrimEnd(line) == line
  {
  }

  /** Lines that end in something else than space survive being joined and split. */
  lemma TrimmedLines(lines: seq<string>)
    requires Splittable(lines, false) && (lines != [] ==> !EndsInSpace(lines[|lines| - 1]))
    ensures Lines(Join(TrimLines(lines))) == TrimLines(lines)
  {
    var t := TrimLines(lines);
    forall i | 0 <= i < |lines| ensures '\n' !in t[i] && StripReturn(t[i]) == t[i] {
      PlainEnd(t[i]);
    }
    if lines != [] { PlainEnd(lines[|lines| - 1]); }
    assert Stripped(t, false) == t;
    LinesOfUnlines(t, false);
  }

  lemma {:induction false} JoinEnds(lines: seq<string>)
    requires lines != []
    ensures lines[0] != "" ==> Join(lines) != "" && Join(lines)[0] == lines[0][0]
    ensures var last := lines[|lines| - 1];
            last != "" ==> Join(lines) != "" && Join(lines)[|Join(lines)| - 1] == last[|last| - 1]
    decreases |lines|
  {
    if |lines| > 1 { JoinEnds(lines[1..]); }
  }

  lemma TrimmedStays(s: string)
    requires !StartsInSpace(s) && !EndsInSpace(s)
    ensures Trim(s) == s
  {
  }

  lemma TrimEndKeepsHead(s: string)
    requires s != "" && !StartsInSpace(s)
    ensures TrimEnd(s) != "" && TrimEnd(s)[0] == s[0]
  {
  }

  lemma TrimmedEnds(s: string)
    requires s != "" && !StartsInSpace(s) && !EndsInSpace(s)
    ensures var r := Join(TrimLines(Lines(s))); !StartsInSpace(r) && !EndsInSpace(r)
  {
    var lines := Lines(s);
    FirstLine(s);
    LastLine(s);
    TrimEndKeepsHead(lines[0]);
    PlainEnd(lines[|lines| - 1]);
    JoinEnds(TrimLines(lines));
  }

  /**
   * The lines of the result are the lines of the trimmed text without the space at their ends: no line ends in
   * space, and the text neither starts nor ends in it.
   */
  lemma TrimContentIsTrimmed(raw: string)
    ensures var r := TrimContent(raw);
            && Lines(r) == TrimLines(Lines(Trim(raw)))
            && !StartsInSpace(r) && !EndsInSpace(r)
            && forall i :: 0 <= i < |Lines(r)| ==> !EndsInSpace(Lines(r)[i])
  {
    var s := Trim(raw);
    var lines := Lines(s);
    LinesSplittable(s);
    if s != "" {
      LastLine(s);
      TrimmedEnds(s);
    }
    TrimmedLines(lines);
  }

  /** Trimming a second time changes nothing, on every input. */
  lemma TrimContentIsIdempotent(raw: string)
    ensures TrimContent(TrimContent(raw)) == TrimContent(raw)
  {
    var r := TrimContent(raw);
    TrimContentIsTrimmed(raw);
    TrimmedStays(r);
    forall i | 0 <= i < |Lines(r)| ensures TrimEnd(Lines(r)[i]) == Lines(r)[i] {
      PlainEnd(Lines(r)[i]);
    }
    assert TrimLines(Lines(r)) == TrimLines(Lines(Trim(raw)));
  }

  // ---------------------------------------------------------------- nothing but space is lost

  /** What is left when all space is taken out. */
  function Ink(s: string): string {
    if s == "" then "" else (if IsSpace(s[0]) then "" else [s[0]]) + Ink(s[1..])
  }

  lemma {:induction false} InkAppend(s: string, t: string)
    ensures Ink(s + t) == Ink(s) + Ink(t)
  {
    if s == "" {
      assert s + t == t;
    } else {
      assert (s + t)[1..] == s[1..] + t;
      InkAppend(s[1..], t);
    }
  }

  lemma {:induction false} InkOfSpace(s: string)
    requires forall i :: 0 <= i < |s| ==> IsSpace(s[i])
    ensures Ink(s) == ""
  {
    if s != "" { InkOfSpace(s[1..]); }
  }

  lemma InkTrimEnd(s: string)
    ensures Ink(TrimEnd(s)) == Ink(s)
  {
    var r := TrimEnd(s);
    assert s == r + s[|r|..];
    InkAppend(r, s[|r|..]);
    InkOfSpace(s[|r|..]);
  }

  lemma InkTrim(s: string)
    ensures Ink(Trim(s)) == Ink(s)
  {
    var r := TrimStart(s);
    var n := |s| - |r|;
    assert s == s[..n] + r;
    InkAppend(s[..n], r);
    InkOfSpace(s[..n]);
    InkTrimEnd(r);
  }

  lemma InkOfLine(line: string, rest: string)
    ensures Ink(line + "\n" + rest) == Ink(line) + Ink(rest)
  {
    InkAppend(line + "\n", rest);
    InkAppend(line, "\n");
    InkOfSpace("\n");
  }

  function InkOfLines(lines: seq<string>): string {
    if lines == [] then "" else Ink(lines[0]) + InkOfLines(lines[1..])
  }

  lemma {:induction false} InkOfJoin(lines: seq<string>)
    ensures Ink(Join(lines)) == InkOfLines(lines)
    decreases |lines|
  {
    if |lines| == 1 {
      assert lines[1..] == [];
    } else if |lines| > 1 {
      InkOfJoin(lines[1..]);
      InkOfLine(lines[0], Join(lines[1..]));
    }
  }

  lemma InkStripReturn(line: string)
    ensures Ink(StripReturn(line)) == Ink(line)
  {
    if line != "" && line[|line| - 1] == '\r' {
      var r := StripReturn(line);
      assert line == r + "\r";
      InkAppend(r, "\r");
      InkOfSpace("\r");
    }
  }

  lemma InkOfLinesCons(line: string, lines: seq<string>)
    ensures InkOfLines([line] + lines) == Ink(line) + InkOfLines(lines)
  {
    assert ([line] + lines)[1..] == lines;
  }

  lemma {:induction false} InkOfSplit(s: string)
    ensures InkOfLines(Lines(s)) == Ink(s)
    decreases |s|
  {
    var k := LineEnd(s);
    if s == "" {
    } else if k == |s| {
      assert Lines(s) == [s] && [s][1..] == [];
    } else {
      var line, rest := s[..k], s[k + 1..];
      SplitAtLineEnd(s);
      LinesCons(line, rest);
      InkOfLine(line, rest);
      InkStripReturn(line);
      InkOfSplit(rest);
      InkOfLinesCons(StripReturn(line), Lines(rest));
    }
  }

  lemma {:induction false} InkOfTrimLines(lines: seq<string>)
    ensures InkOfLines(TrimLines(lines)) == InkOfLines(lines)
  {
    if lines != [] {
      assert TrimLines(lines)[1..] == TrimLines(lines[1..]);
      InkTrimEnd(lines[0]);
      InkOfTrimLines(lines[1..]);
    }
  }

  /** Trimming keeps every character that is not space, in order. */
  lemma TrimContentKeepsInk(raw: string)
    ensures Ink(TrimContent(raw)) == Ink(raw)
  {
    var lines := Lines(Trim(raw));
    InkTrim(raw);
    InkOfSplit(Trim(raw));
    InkOfTrimLines(lines);
    InkOfJoin(TrimLines(lines));
  }
}
