/** Task lists in card content (clients/lib/src/display.rs): toggling one item of a text and counting the items. */
module TaskLists {
  import opened Ids
  import opened Text
  import opened TaskItems

  // ---------------------------------------------------------------- all lines of a text

  function Last(lines: seq<string>): string
    requires lines != []
  {
    lines[|lines| - 1]
  }

  function Init(lines: seq<string>): seq<string>
    requires lines != []
  {
    lines[..|lines| - 1]
  }

  /** How many task items there are. */
  function Total(lines: seq<string>): nat {
    if lines == [] then 0 else Total(Init(lines)) + if TaskOf(Last(lines)).Some? then 1 else 0
  }

  predicate IsDone(line: string) { TaskOf(line).Some? && TaskOf(line).value.check != ' ' }

  /** How many of them are checked. */
  function Done(lines: seq<string>): (n: nat)
    ensures n <= Total(lines)
  {
    if lines == [] then 0 else Done(Init(lines)) + if IsDone(Last(lines)) then 1 else 0
  }

  /** The places of the task items, and of the checked ones among them. */
  ghost function Items(lines: seq<string>): set<int> { set i | 0 <= i < |lines| && TaskOf(lines[i]).Some? }

  ghost function CheckedItems(lines: seq<string>): set<int> {
    set i | 0 <= i < |lines| && TaskOf(lines[i]).Some? && TaskOf(lines[i]).value.check != ' '
  }

  lemma ItemsSnoc(lines: seq<string>)
    requires lines != []
    ensures Items(lines) == Items(Init(lines)) + if TaskOf(Last(lines)).Some? then {|lines| - 1} else {}
    ensures CheckedItems(lines) == CheckedItems(Init(lines)) + if IsDone(Last(lines)) then {|lines| - 1} else {}
  {
    forall i | 0 <= i < |lines| - 1 ensures Init(lines)[i] == lines[i] {}
  }

  /** The counts are of all task items, and of all checked ones. */
  lemma {:induction false} CountsAreOfAll(lines: seq<string>)
    ensures Total(lines) == |Items(lines)| && Done(lines) == |CheckedItems(lines)|
  {
    if lines != [] {
      CountsAreOfAll(Init(lines));
      ItemsSnoc(lines);
    }
  }

  /** The lines with the box of task item number `index` flipped. */
  function Flipped(lines: seq<string>, index: nat): (r: seq<string>)
    ensures |r| == |lines|
  {
    if lines == [] then []
    else Flipped(Init(lines), index) + [if Total(Init(lines)) == index then FlipLine(Last(lines)) else Last(lines)]
  }

  function Progress(content: string): Option<(nat, nat)> {
    var lines := Lines(content);
    if Total(lines) > 0 then Some((Done(lines), Total(lines))) else None
  }

  function Toggled(content: string, index: nat): Option<string> {
    if index < Total(Lines(content))
    then Some(Unlines(Flipped(Lines(content), index), EndsInNewline(content))) else None
  }

  /** A toggle succeeds exactly if there is a task item with that number. */
  lemma ToggleSucceeds(content: string, index: nat)
    ensures Toggled(content, index).Some? <==> index < |Items(Lines(content))|
  {
    CountsAreOfAll(Lines(content));
  }

  /** Progress counts all task items and the checked ones, and is there exactly if there is an item. */
  lemma ProgressIs(content: string)
    ensures var lines := Lines(content);
            Progress(content) ==
            if Items(lines) == {} then None else Some((|CheckedItems(lines)|, |Items(lines)|))
  {
    CountsAreOfAll(Lines(content));
  }

  lemma JoinSnoc(lines: seq<string>, line: string)
    ensures Join(lines + [line]) == (if lines == [] then line else Join(lines) + "\n" + line)
  {
    var all := lines + [line];
    if |lines| > 0 {
      JoinSnoc(lines[1..], line);
      assert all[1..] == lines[1..] + [line];
      assert lines[0] + "\n" + (Join(lines[1..]) + "\n" + line) == lines[0] + "\n" + Join(lines[1..]) + "\n" + line;
    }
  }

  lemma ToggleStep(seen: seq<string>, line: string, index: nat)
    ensures Total(seen + [line]) == Total(seen) + if TaskOf(line).Some? then 1 else 0
    ensures Join(Flipped(seen + [line], index)) ==
            (if seen == [] then "" else Join(Flipped(seen, index)) + "\n") +
            (if Total(seen) == index then FlipLine(line) else line)
  {
    assert Init(seen + [line]) == seen;
    JoinSnoc(Flipped(seen, index), Last(Flipped(seen + [line], index)));
  }

  /** The loop of `toggle_task_item`. */
  method ToggleTaskItem(content: string, index: nat) returns (r: Option<string>)
    ensures r == Toggled(content, index)
  {
    var lines := Lines(content);
    var current, result, found := 0, "", false;
    for i := 0 to |lines|
      invariant current == Total(lines[..i]) && found == (index < current)
      invariant result == Join(Flipped(lines[..i], index))
    {
      var line := lines[i];
      ToggleStep(lines[..i], line, index);
      assert lines[..i + 1] == lines[..i] + [line];
      if i > 0 { result := result + "\n"; }
      ghost var joined := Join(Flipped(lines[..i + 1], index));
      assert joined == result + if current == index then FlipLine(line) else line;
      var task := ParseTaskItem(line);
      if task.Some? {
        var Box(prefix, check) := task.value;
        if current == index {
          var flipped := FlipBox(line, prefix, check);
          result := result + flipped;
          found := true;
        } else {
          result := result + line;
        }
        current := current + 1;
      } else {
        result := result + line;
      }
    }
    assert lines[..|lines|] == lines;
    if EndsInNewline(content) { result := result + "\n"; }
    if found { return Some(result); } else { return None; }
  }

  /** The loop of `task_progress`. */
  method TaskProgress(content: string) returns (r: Option<(nat, nat)>)
    ensures r == Progress(content)
  {
    var lines := Lines(content);
    var done, total := 0, 0;
    for i := 0 to |lines|
      invariant done == Done(lines[..i]) && total == Total(lines[..i])
    {
      assert lines[..i] == Init(lines[..i + 1]);
      var task := ParseTaskItem(lines[i]);
      if task.Some? {
        total := total + 1;
        if task.value.check != ' ' { done := done + 1; }
      }
    }
    assert lines[..|lines|] == lines;
    if total > 0 { return Some((done, total)); } else { return None; }
  }

  // ---------------------------------------------------------------- where the boxes are

  /** Where a line that follows these lines starts in the text. */
  function Before(lines: seq<string>): nat { if lines == [] then 0 else |Join(lines)| + 1 }

  /** Where the mark of task item number `index` is in the text. */
  function MarkOffset(lines: seq<string>, index: nat): nat
    requires index < Total(lines)
  {
    if index < Total(Init(lines)) then MarkOffset(Init(lines), index)
    else Before(Init(lines)) + TaskOf(Last(lines)).value.bracket + 1
  }

  /** The mark itself. */
  function MarkOf(lines: seq<string>, index: nat): char
    requires index < Total(lines)
  {
    if index < Total(Init(lines)) then MarkOf(Init(lines), index) else TaskOf(Last(lines)).value.check
  }

  lemma {:induction false} FlippedBeyond(lines: seq<string>, index: nat)
    requires Total(lines) <= index
    ensures Flipped(lines, index) == lines
  {
    if lines != [] {
      FlippedBeyond(Init(lines), index);
      LastIsKept(lines, index);
      assert lines == Init(lines) + [Last(lines)];
    }
  }

  lemma LastIsKept(lines: seq<string>, index: nat)
    requires lines != [] && Total(lines) <= index
    ensures Flipped(lines, index) == Flipped(Init(lines), index) + [Last(lines)]
  {
    assert Total(Init(lines)) == index ==> TaskOf(Last(lines)) == None;
  }

  /** There is a check box with the mark at this offset. */
  ghost predicate BoxAt(t: string, p: nat, mark: char) {
    0 < p < |t| - 1 && t[p - 1] == OPEN && t[p] == mark && IsMark(mark) && t[p + 1] == CLOSE
  }

  lemma BoxStays(a: string, b: string, p: nat, mark: char)
    requires BoxAt(a, p, mark)
    ensures BoxAt(a + b, p, mark)
  {
  }

  lemma BoxMoves(a: string, b: string, p: nat, mark: char)
    requires BoxAt(b, p, mark)
    ensures BoxAt(a + b, |a| + p, mark)
  {
  }

  lemma LineHasBox(line: string)
    requires TaskOf(line).Some?
    ensures BoxAt(line, TaskOf(line).value.bracket + 1, TaskOf(line).value.check)
  {
  }

  lemma {:induction false} BoxAtMark(lines: seq<string>, index: nat)
    requires index < Total(lines)
    ensures BoxAt(Join(lines), MarkOffset(lines, index), MarkOf(lines, index))
  {
    var init, last := Init(lines), Last(lines);
    assert lines == init + [last];
    JoinSnoc(init, last);
    if index < Total(init) {
      BoxAtMark(init, index);
      BoxStays(Join(init), "\n" + last, MarkOffset(init, index), MarkOf(init, index));
    } else {
      LineHasBox(last);
      if init != [] { BoxMoves(Join(init) + "\n", last, TaskOf(last).value.bracket + 1, TaskOf(last).value.check); }
    }
  }

  lemma {:induction false} OffsetsAscend(lines: seq<string>, i: nat, index: nat)
    requires i < index < Total(lines)
    ensures MarkOffset(lines, i) < MarkOffset(lines, index)
  {
    var init := Init(lines);
    if index < Total(init) {
      OffsetsAscend(init, i, index);
    } else {
      BoxAtMark(init, i);
    }
  }

  /** There is a check box at the offset, after the ones with a lower index. */
  lemma MarkIsInBox(lines: seq<string>, index: nat)
    requires index < Total(lines)
    ensures BoxAt(Join(lines), MarkOffset(lines, index), MarkOf(lines, index))
    ensures forall i :: 0 <= i < index ==> MarkOffset(lines, i) < MarkOffset(lines, index)
  {
    BoxAtMark(lines, index);
    forall i | 0 <= i < index ensures MarkOffset(lines, i) < MarkOffset(lines, index) {
      OffsetsAscend(lines, i, index);
    }
  }

  lemma AppendUpdate(a: string, b: string, p: nat, c: char)
    requires p < |a| + |b|
    ensures (a + b)[p := c] == if p < |a| then a[p := c] + b else a + b[p - |a| := c]
  {
  }

  ghost predicate FlipsAt(t: string, flipped: string, p: nat) {
    p < |t| && flipped == t[p := Flip(t[p])]
  }

  lemma FlipStays(a: string, flipped: string, b: string, p: nat)
    requires FlipsAt(a, flipped, p)
    ensures FlipsAt(a + b, flipped + b, p)
  {
    AppendUpdate(a, b, p, Flip(a[p]));
  }

  lemma FlipMoves(a: string, b: string, flipped: string, p: nat)
    requires FlipsAt(b, flipped, p)
    ensures FlipsAt(a + b, a + flipped, |a| + p)
  {
    AppendUpdate(a, b, |a| + p, Flip(b[p]));
  }

  /** The text before the line that follows these lines. */
  function Lead(lines: seq<string>): (r: string)
    ensures |r| == Before(lines)
  {
    if lines == [] then "" else Join(lines) + "\n"
  }

  lemma LeadSnoc(lines: seq<string>, line: string)
    ensures Join(lines + [line]) == Lead(lines) + line
  {
    JoinSnoc(lines, line);
    assert "" + line == line;
  }

  lemma JoinLast(lines: seq<string>)
    requires lines != []
    ensures Join(lines) == Lead(Init(lines)) + Last(lines)
  {
    assert lines == Init(lines) + [Last(lines)];
    LeadSnoc(Init(lines), Last(lines));
  }

  lemma JoinFlipped(lines: seq<string>, index: nat)
    requires lines != []
    ensures Join(Flipped(lines, index)) ==
            Lead(Flipped(Init(lines), index)) +
            if Total(Init(lines)) == index then FlipLine(Last(lines)) else Last(lines)
  {
    var flipped := Flipped(lines, index);
    assert Init(flipped) == Flipped(Init(lines), index);
    JoinLast(flipped);
  }

  /** The box is in an earlier line. */
  lemma FlippedEarlier(lines: seq<string>, index: nat)
    requires lines != [] && index < Total(Init(lines))
    requires FlipsAt(Join(Init(lines)), Join(Flipped(Init(lines), index)), MarkOffset(lines, index))
    ensures FlipsAt(Join(lines), Join(Flipped(lines, index)), MarkOffset(lines, index))
  {
    var before, after, p := Join(Init(lines)), Join(Flipped(Init(lines), index)), MarkOffset(lines, index);
    JoinLast(lines);
    JoinFlipped(lines, index);
    FlipStays(before, after, "\n", p);
    FlipStays(before + "\n", after + "\n", Last(lines), p);
  }

  lemma JoinFlippedLast(lines: seq<string>, index: nat)
    requires lines != [] && Total(Init(lines)) == index
    ensures Join(Flipped(lines, index)) == Lead(Init(lines)) + FlipLine(Last(lines))
  {
    JoinFlipped(lines, index);
    FlippedBeyond(Init(lines), index);
  }

  lemma FlipInLast(lead: string, line: string, flipped: string, p: nat, whole: string, after: string, q: nat)
    requires whole == lead + line && after == lead + flipped && FlipsAt(line, flipped, p) && q == |lead| + p
    ensures FlipsAt(whole, after, q)
  {
    FlipMoves(lead, line, flipped, p);
  }

  lemma LastOffset(lines: seq<string>, index: nat)
    requires lines != [] && Total(Init(lines)) == index < Total(lines)
    ensures MarkOffset(lines, index) == |Lead(Init(lines))| + (TaskOf(Last(lines)).value.bracket + 1)
  {
  }

  lemma LineFlips(line: string)
    requires TaskOf(line).Some?
    ensures FlipsAt(line, FlipLine(line), TaskOf(line).value.bracket + 1)
  {
    FlipLineIsUpdate(line, TaskOf(line).value);
  }

  /** The box is in the last line. */
  lemma FlippedLast(lines: seq<string>, index: nat)
    requires lines != [] && Total(Init(lines)) == index < Total(lines)
    ensures FlipsAt(Join(lines), Join(Flipped(lines, index)), MarkOffset(lines, index))
  {
    var last := Last(lines);
    JoinLast(lines);
    JoinFlippedLast(lines, index);
    LastOffset(lines, index);
    LineFlips(last);
    FlipInLast(Lead(Init(lines)), last, FlipLine(last), TaskOf(last).value.bracket + 1, Join(lines),
               Join(Flipped(lines, index)), MarkOffset(lines, index));
  }

  /** In the joined text, flipping changes the mark of that box and nothing else. */
  lemma {:induction false} FlippedText(lines: seq<string>, index: nat)
    requires index < Total(lines)
    ensures FlipsAt(Join(lines), Join(Flipped(lines, index)), MarkOffset(lines, index))
  {
    if index < Total(Init(lines)) {
      FlippedText(Init(lines), index);
      FlippedEarlier(lines, index);
    } else {
      FlippedLast(lines, index);
    }
  }

  // ---------------------------------------------------------------- the counts

  lemma {:induction false} FlippedCounts(lines: seq<string>, index: nat)
    ensures Total(Flipped(lines, index)) == Total(lines)
    ensures index < Total(lines) ==>
            Done(Flipped(lines, index)) == (if MarkOf(lines, index) == ' ' then Done(lines) + 1 else Done(lines) - 1)
  {
    if lines != [] {
      var init, last := Init(lines), Last(lines);
      assert Init(Flipped(lines, index)) == Flipped(init, index);
      FlippedCounts(init, index);
      if TaskOf(last).Some? { FlippedLineParses(last, TaskOf(last).value); }
      if index >= Total(init) { FlippedBeyond(init, index); }
    }
  }
}
