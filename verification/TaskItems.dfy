/**
 * Task items in card content (clients/lib/src/display.rs): finding the check box of one line and flipping it.
 *
 * A task item is a simplified form of section 5.3 of the GitHub Flavored Markdown specification. The source scans
 * bytes; everything it compares is ASCII, so characters stand for bytes here.
 */
module TaskItems {
  import opened Ids
  import opened Text

  /** Where the opening bracket of a check box is, and the mark inside it. */
  datatype Box = Box(bracket: nat, check: char)

  /** The brackets of a check box. */
  const OPEN: char := 91 as char

  const CLOSE: char := 93 as char

  predicate IsBullet(c: char) { c in "-*+" }

  predicate IsMark(c: char) { c == ' ' || c == 'x' || c == 'X' }

  function Spaces(n: nat): string { seq(n, i => ' ') }

  /**
    The grammar: indentation, one of three bullets, at least one space, then the box with one of three marks; anything
    may follow.
   */
  ghost predicate IsTaskItem(line: string, box: Box) {
    exists indent: nat, gap: nat, bullet: char ::
      ItemText(indent, bullet, gap, box.check) <= line && (bullet == '-' || bullet == '*' || bullet == '+') &&
      (box.check == ' ' || box.check == 'x' || box.check == 'X') && gap >= 1 && box.bracket == indent + 1 + gap
  }

  ghost function ItemText(indent: nat, bullet: char, gap: nat, check: char): string {
    Spaces(indent) + [bullet] + Spaces(gap) + [OPEN, check, CLOSE]
  }

  // ---------------------------------------------------------------- parsing one line

  function SkipSpaces(line: string, from: nat): (i: nat)
    requires from <= |line|
    ensures from <= i <= |line|
    decreases |line| - from
  {
    if from < |line| && line[from] == ' ' then SkipSpaces(line, from + 1) else from
  }

  function BoxAt(line: string, i: nat): Option<Box> {
    if i + 2 < |line| && line[i] == OPEN && IsMark(line[i + 1]) && line[i + 2] == CLOSE
    then Some(Box(i, line[i + 1])) else None
  }

  /** The check box of a line, if the line is a task item. */
  function TaskOf(line: string): Option<Box> {
    var bullet := SkipSpaces(line, 0);
    if bullet + 1 < |line| && IsBullet(line[bullet]) && line[bullet + 1] == ' '
    then BoxAt(line, SkipSpaces(line, bullet + 1)) else None
  }

  /** The scan of `parse_task_item`. */
  method ParseTaskItem(line: string) returns (r: Option<Box>)
    ensures r == TaskOf(line)
  {
    var i := 0;
    while i < |line| && line[i] == ' '
      invariant i <= |line| && SkipSpaces(line, i) == SkipSpaces(line, 0)
    {
      i := i + 1;
    }
    if i >= |line| || !IsBullet(line[i]) { return None; }
    ghost var bullet := i;
    i := i + 1;
    if i >= |line| || line[i] != ' ' { return None; }
    while i < |line| && line[i] == ' '
      invariant i <= |line| && SkipSpaces(line, i) == SkipSpaces(line, bullet + 1)
    {
      i := i + 1;
    }
    if i + 2 >= |line| || line[i] != OPEN { return None; }
    var check := line[i + 1];
    if !IsMark(check) { return None; }
    if line[i + 2] != CLOSE { return None; }
    return Some(Box(i, check));
  }

  /** Skipping passes spaces only, and all of them. */
  lemma {:induction false} Skipped(line: string, from: nat)
    requires from <= |line|
    ensures var i := SkipSpaces(line, from);
            (forall k :: from <= k < i ==> line[k] == ' ') && (i < |line| ==> line[i] != ' ')
    decreases |line| - from
  {
    if from < |line| && line[from] == ' ' { Skipped(line, from + 1); }
  }

  lemma SkipsTo(line: string, from: nat, i: nat)
    requires from <= i < |line| && line[i] != ' '
    requires forall k :: from <= k < i ==> line[k] == ' '
    ensures SkipSpaces(line, from) == i
    decreases i - from
  {
    if from < i { SkipsTo(line, from + 1, i); }
  }

  lemma ItemChars(line: string, indent: nat, bullet: char, gap: nat, check: char)
    ensures ItemText(indent, bullet, gap, check) <= line <==>
            && indent + gap + 3 < |line|
            && (forall k :: 0 <= k < indent ==> line[k] == ' ')
            && line[indent] == bullet
            && (forall k :: indent < k <= indent + gap ==> line[k] == ' ')
            && line[indent + gap + 1] == OPEN && line[indent + gap + 2] == check && line[indent + gap + 3] == CLOSE
  {
    var t := ItemText(indent, bullet, gap, check);
    var n := indent + gap;
    if t <= line {
      assert forall k :: 0 <= k < |t| ==> line[k] == t[k];
      assert line[n + 1] == t[n + 1] && line[n + 2] == t[n + 2] && line[n + 3] == t[n + 3];
    } else if n + 3 < |line| {
      assert |t| == n + 4 && t != line[..n + 4];
    }
  }

  lemma ParsedIsItem(line: string, box: Box)
    requires TaskOf(line) == Some(box)
    ensures IsTaskItem(line, box)
  {
    var indent := SkipSpaces(line, 0);
    var gap := box.bracket - indent - 1;
    Skipped(line, 0);
    Skipped(line, indent + 1);
    ItemChars(line, indent, line[indent], gap, box.check);
    assert ItemText(indent, line[indent], gap, box.check) <= line;
    assert IsBullet(line[indent]) && IsMark(box.check);
  }

  lemma ItemParses(line: string, indent: nat, bullet: char, gap: nat, check: char)
    requires ItemText(indent, bullet, gap, check) <= line && IsBullet(bullet) && IsMark(check) && gap >= 1
    ensures TaskOf(line) == Some(Box(indent + 1 + gap, check))
  {
    ItemChars(line, indent, bullet, gap, check);
    SkipsTo(line, 0, indent);
    SkipsTo(line, indent + 1, indent + 1 + gap);
  }

  lemma ItemIsParsed(line: string, box: Box)
    requires IsTaskItem(line, box)
    ensures TaskOf(line) == Some(box)
  {
    var indent: nat, gap: nat, bullet: char :|
      ItemText(indent, bullet, gap, box.check) <= line && (bullet == '-' || bullet == '*' || bullet == '+') &&
      (box.check == ' ' || box.check == 'x' || box.check == 'X') && gap >= 1 && box.bracket == indent + 1 + gap;
    ItemParses(line, indent, bullet, gap, box.check);
  }

  /** The parser accepts exactly the task items, and reads off the box. */
  lemma ParseIsExact(line: string, box: Box)
    ensures TaskOf(line) == Some(box) <==> IsTaskItem(line, box)
  {
    if TaskOf(line) == Some(box) { ParsedIsItem(line, box); }
    if IsTaskItem(line, box) { ItemIsParsed(line, box); }
  }

  // ---------------------------------------------------------------- flipping one box

  function Flip(check: char): char { if check == ' ' then 'x' else ' ' }

  /** The line with its box flipped; other lines are left alone. */
  function FlipLine(line: string): (r: string)
    ensures |r| == |line|
  {
    match TaskOf(line)
    case Some(box) => line[..box.bracket] + [OPEN, Flip(box.check), CLOSE] + line[box.bracket + 3..]
    case None => line
  }

  /** Copies the line around the box and writes the box with the other mark. */
  method FlipBox(line: string, prefix: nat, check: char) returns (r: string)
    requires TaskOf(line) == Some(Box(prefix, check))
    ensures r == FlipLine(line)
  {
    var toggled := if check == ' ' then 'x' else ' ';
    r := line[..prefix];
    r := r + [OPEN, toggled, CLOSE];
    r := r + line[prefix + 3..];
  }

  lemma FlipLineIsUpdate(line: string, box: Box)
    requires TaskOf(line) == Some(box)
    ensures FlipLine(line) == line[box.bracket + 1 := Flip(box.check)]
  {
  }

  /** Flipping a box leaves a task item with its box in the same place. */
  lemma FlippedLineParses(line: string, box: Box)
    requires TaskOf(line) == Some(box)
    ensures TaskOf(FlipLine(line)) == Some(box.(check := Flip(box.check)))
  {
    FlipLineIsUpdate(line, box);
    var r := FlipLine(line);
    Skipped(line, 0);
    Skipped(line, SkipSpaces(line, 0) + 1);
    SkipsTo(r, 0, SkipSpaces(line, 0));
    SkipsTo(r, SkipSpaces(line, 0) + 1, box.bracket);
  }

  /** A carriage return at the end of a line never matters to the parser. */
  lemma StripKeepsTask(line: string)
    ensures TaskOf(StripReturn(line)) == TaskOf(line)
  {
    if line != "" && line[|line| - 1] == '\r' {
      var r := StripReturn(line);
      var bullet := SkipSpaces(line, 0);
      Skipped(line, 0);
      if bullet < |r| {
        SkipsTo(r, 0, bullet);
        var i := SkipSpaces(line, bullet + 1);
        Skipped(line, bullet + 1);
        if i < |r| { SkipsTo(r, bullet + 1, i); }
      }
    }
  }
}
