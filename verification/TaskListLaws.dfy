/** What toggling a task item does to the whole text. */
module TaskListLaws {
  import opened Ids
  import opened Text
  import opened TaskItems
  import opened TaskLists

  // ---------------------------------------------------------------- lines with the same tasks

  ghost predicate SameTasks(a: seq<string>, b: seq<string>) {
    |a| == |b| && forall i :: 0 <= i < |a| ==> TaskOf(a[i]) == TaskOf(b[i])
  }

  lemma SameTasksInit(a: seq<string>, b: seq<string>)
    requires SameTasks(a, b) && a != []
    ensures SameTasks(Init(a), Init(b)) && TaskOf(Last(a)) == TaskOf(Last(b))
  {
  }

  lemma {:induction false} SameCounts(a: seq<string>, b: seq<string>)
    requires SameTasks(a, b)
    ensures Total(a) == Total(b) && Done(a) == Done(b)
  {
    if a != [] {
      SameTasksInit(a, b);
      SameCounts(Init(a), Init(b));
    }
  }

  lemma StrippedKeepsTasks(lines: seq<string>, newline: bool)
    ensures SameTasks(Stripped(lines, newline), lines)
  {
    forall i | 0 <= i < |lines| ensures TaskOf(Stripped(lines, newline)[i]) == TaskOf(lines[i]) {
      StripKeepsTask(lines[i]);
    }
  }

  // ---------------------------------------------------------------- flipped lines

  lemma {:induction false} FlippedAt(lines: seq<string>, index: nat, i: nat)
    requires i < |lines|
    ensures Flipped(lines, index)[i] == (if Total(lines[..i]) == index then FlipLine(lines[i]) else lines[i])
  {
    if i + 1 < |lines| {
      FlippedAt(Init(lines), index, i);
      assert Init(lines)[..i] == lines[..i];
    } else {
      assert Init(lines) == lines[..i];
    }
  }

  lemma FlipLineStaysInLine(line: string)
    requires '\n' !in line
    ensures '\n' !in FlipLine(line)
  {
    if TaskOf(line).Some? { FlipLineIsUpdate(line, TaskOf(line).value); }
  }

  lemma FlippedSplittable(lines: seq<string>, newline: bool, index: nat)
    requires Splittable(lines, newline)
    ensures Splittable(Flipped(lines, index), newline)
  {
    forall i | 0 <= i < |lines|
      ensures '\n' !in Flipped(lines, index)[i] && |Flipped(lines, index)[i]| == |lines[i]|
    {
      FlippedAt(lines, index, i);
      FlipLineStaysInLine(lines[i]);
    }
  }

  lemma FlipLineTwice(line: string, box: Box)
    requires TaskOf(line) == Some(box) && box.check != 'X'
    ensures FlipLine(FlipLine(line)) == line
  {
    FlippedLineParses(line, box);
    FlipLineIsUpdate(line, box);
    FlipLineIsUpdate(FlipLine(line), box.(check := Flip(box.check)));
  }

  lemma {:induction false} FlippedMark(lines: seq<string>, index: nat)
    requires index < Total(lines)
    ensures index < Total(Flipped(lines, index)) && MarkOf(Flipped(lines, index), index) == Flip(MarkOf(lines, index))
  {
    var init, last := Init(lines), Last(lines);
    FlippedCounts(init, index);
    FlippedLast(lines, index);
    if index < Total(init) {
      FlippedMark(init, index);
    } else {
      FlippedLineParses(last, TaskOf(last).value);
    }
  }

  lemma {:induction false} FlippedTwice(lines: seq<string>, index: nat)
    requires index < Total(lines) && MarkOf(lines, index) != 'X'
    ensures Flipped(Flipped(lines, index), index) == lines
  {
    var init, last := Init(lines), Last(lines);
    FlippedCounts(init, index);
    FlippedLast(lines, index);
    FlippedLast(Flipped(lines, index), index);
    if index < Total(init) {
      FlippedTwice(init, index);
    } else {
      FlippedBeyond(init, index);
      FlipLineTwice(last, TaskOf(last).value);
    }
    SameEnds(Flipped(Flipped(lines, index), index), lines);
  }

  lemma FlippedLast(lines: seq<string>, index: nat)
    requires lines != []
    ensures var r := Flipped(lines, index);
            && Init(r) == Flipped(Init(lines), index)
            && Last(r) == if Total(Init(lines)) == index then FlipLine(Last(lines)) else Last(lines)
  {
  }

  lemma SameEnds(a: seq<string>, b: seq<string>)
    requires |a| == |b| > 0 && Init(a) == Init(b) && Last(a) == Last(b)
    ensures a == b
  {
    assert a == Init(a) + [Last(a)] && b == Init(b) + [Last(b)];
  }

  // ---------------------------------------------------------------- the text that comes back

  /** The lines of the toggled text are the flipped lines, less carriage returns that now end a line. */
  lemma ToggledLines(content: string, index: nat)
    requires index < Total(Lines(content))
    ensures var r := Toggled(content, index).value; var flipped := Flipped(Lines(content), index);
            && Lines(r) == Stripped(flipped, EndsInNewline(content))
            && EndsInNewline(r) == EndsInNewline(content)
            && SameTasks(Lines(r), flipped)
  {
    var flipped, newline := Flipped(Lines(content), index), EndsInNewline(content);
    LinesSplittable(content);
    FlippedSplittable(Lines(content), newline, index);
    LinesOfUnlines(flipped, newline);
    UnlinesEnding(flipped, newline);
    StrippedKeepsTasks(flipped, newline);
  }

  lemma ToggledTasks(content: string, index: nat)
    requires index < Total(Lines(content))
    ensures SameTasks(Lines(Toggled(content, index).value), Flipped(Lines(content), index))
  {
    ToggledLines(content, index);
  }

  lemma ProgressOf(content: string, lines: seq<string>)
    requires SameTasks(Lines(content), lines)
    ensures Progress(content) == if Total(lines) > 0 then Some((Done(lines), Total(lines))) else None
  {
    SameCounts(Lines(content), lines);
  }

  /**
   * On every text: a toggle keeps the number of task items and moves the number of checked ones by one, up when the
   * box was empty and down when it was not.
   */
  lemma ToggleMovesProgress(content: string, index: nat)
    requires index < Total(Lines(content))
    ensures var r := Toggled(content, index).value; var mark := MarkOf(Lines(content), index);
            Progress(r) == Some((if mark == ' ' then Done(Lines(content)) + 1 else Done(Lines(content)) - 1,
                                 Total(Lines(content))))
  {
    ToggledTasks(content, index);
    ProgressOf(Toggled(content, index).value, Flipped(Lines(content), index));
    FlippedCounts(Lines(content), index);
  }

  /** Only the one box of the text changes. */
  ghost predicate OnlyBoxChanges(content: string, index: nat, r: string)
    requires index < Total(Lines(content))
  {
    var p := MarkOffset(Lines(content), index);
    && 0 < p < |content| - 1
    && content[p - 1] == OPEN && IsMark(content[p]) && content[p + 1] == CLOSE
    && r == content[p := Flip(content[p])]
  }

  lemma ToggledLength(content: string, index: nat)
    requires index < Total(Lines(content))
    ensures |Toggled(content, index).value| == |Rebuilt(content)|
  {
    FlippedText(Lines(content), index);
  }

  /** The rest of the text survives a toggle exactly when the text has no CRLF line ending. */
  lemma ToggleChangesOneBox(content: string, index: nat)
    requires index < Total(Lines(content))
    ensures OnlyBoxChanges(content, index, Toggled(content, index).value) <==> !HasCrLf(content)
  {
    ToggledLength(content, index);
    RebuiltLength(content);
    if !HasCrLf(content) {
      RebuiltExact(content);
      FlippedText(Lines(content), index);
      MarkIsInBox(Lines(content), index);
      UpdateBefore(Join(Lines(content)), MarkOffset(Lines(content), index),
                   Flip(MarkOf(Lines(content), index)));
    }
  }

  lemma UpdateBefore(t: string, p: nat, c: char)
    requires p < |t|
    ensures t[p := c] + "\n" == (t + "\n")[p := c]
  {
  }

  lemma RebuiltLines(content: string)
    requires !HasCrLf(content)
    ensures Stripped(Lines(content), EndsInNewline(content)) == Lines(content)
  {
    RebuiltExact(content);
    LinesSplittable(content);
    LinesOfUnlines(Lines(content), EndsInNewline(content));
  }

  /** With no CRLF, no line of the text ends in `\r` before a newline, and flipping boxes leaves it so. */
  lemma FlippedStaysStripped(lines: seq<string>, newline: bool, index: nat)
    requires Stripped(lines, newline) == lines
    ensures Stripped(Flipped(lines, index), newline) == Flipped(lines, index)
  {
    var r := Flipped(lines, index);
    forall i | 0 <= i < |lines| && (newline || i + 1 < |lines|) ensures StripReturn(r[i]) == r[i] {
      assert lines[i] == Stripped(lines, newline)[i] == StripReturn(lines[i]);
      FlippedAt(lines, index, i);
      FlipLineEnd(lines[i]);
    }
  }

  lemma FlipLineEnd(line: string)
    requires StripReturn(line) == line
    ensures StripReturn(FlipLine(line)) == FlipLine(line)
  {
    if TaskOf(line).Some? { FlipLineIsUpdate(line, TaskOf(line).value); }
  }

  lemma ToggleTwiceLines(content: string, index: nat)
    requires index < Total(Lines(content)) && !HasCrLf(content)
    ensures var r := Toggled(content, index).value; var twice := Flipped(Flipped(Lines(content), index), index);
            && Toggled(r, index) == Some(Unlines(twice, EndsInNewline(content)))
            && Lines(Unlines(twice, EndsInNewline(content))) == twice
  {
    var lines, newline := Lines(content), EndsInNewline(content);
    var once := Flipped(lines, index);
    RebuiltLines(content);
    ToggledLines(content, index);
    FlippedStaysStripped(lines, newline, index);
    FlippedCounts(lines, index);
    LinesSplittable(content);
    FlippedSplittable(lines, newline, index);
    FlippedSplittable(once, newline, index);
    FlippedStaysStripped(once, newline, index);
    LinesOfUnlines(Flipped(once, index), newline);
  }

  /**
   * Toggling the same box twice gives the text back exactly when the text has no CRLF line ending and the box was
   * not marked with an upper-case `X`.
   */
  lemma ToggleTwice(content: string, index: nat)
    requires index < Total(Lines(content))
    ensures var r := Toggled(content, index).value;
            && index < Total(Lines(r))
            && (Toggled(r, index) == Some(content) <==>
                !HasCrLf(content) && MarkOf(Lines(content), index) != 'X')
  {
    var lines, r := Lines(content), Toggled(content, index).value;
    ToggleMovesProgress(content, index);
    if HasCrLf(content) {
      ToggledLength(content, index);
      RebuiltLength(content);
      ToggledLength(r, index);
      RebuiltLength(r);
    } else {
      ToggleTwiceLines(content, index);
      FlippedMark(lines, index);
      if MarkOf(lines, index) != 'X' {
        FlippedTwice(lines, index);
        RebuiltExact(content);
      } else {
        FlippedMark(Flipped(lines, index), index);
      }
    }
  }

  lemma ToggleOneCrLfLine(line: string, box: Box)
    requires TaskOf(line) == Some(box) && '\n' !in line
    ensures Toggled(line + "\r" + "\n" + "", 0) == Some(line[box.bracket + 1 := Flip(box.check)] + "\n")
  {
    LinesCons(line + "\r", "");
    assert StripReturn(line + "\r") == line;
    assert Lines(line + "\r" + "\n" + "") == [line];
    assert Init([line]) == [];
    FlipLineIsUpdate(line, box);
  }

  lemma EmptyTask()
    ensures TaskOf("- [ ]") == Some(Box(2, ' '))
  {
    SkipsTo("- [ ]", 0, 0);
    SkipsTo("- [ ]", 1, 2);
  }

  /** For example, this text keeps its box and loses a carriage return. */
  lemma ToggleDropsCrLf()
    ensures Toggled("- [ ]\r\n", 0) == Some("- [x]\n")
  {
    EmptyTask();
    ToggleOneCrLfLine("- [ ]", Box(2, ' '));
    assert "- [ ]" + "\r" + "\n" + "" == "- [ ]\r\n";
    assert "- [ ]"[2 + 1 := 'x'] + "\n" == "- [x]\n";
  }
}
