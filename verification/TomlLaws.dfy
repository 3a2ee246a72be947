/** What setting the flag guarantees about the text: the last write wins, is read back, and is all that changes. */
module TomlLaws {
  import opened Base
  import opened Tables
  import opened TextLines
  import opened Toml
  import opened TomlEdit

  /** What an assignment line says. */
  function Said(line: string): string
    requires Equals(line) < |line|
  {
    var right := Right(line);
    if ValueStart(right) <= ValueEnd(right) then right[ValueStart(right)..ValueEnd(right)] else ""
  }

  /** What the first notifications table says, read by the same rules the editor uses. */
  function ReadBack(text: string): Option<string> {
    var lines := Lines(text);
    var n := EnabledLine(lines);
    if n == |lines| then None
    else
      AssignmentHasEquals(lines);
      Some(Said(lines[n]))
  }

  // ----- when the header is an unfinished last line -----

  lemma TornHasNoAssignment(lines: seq<string>)
    requires Torn(lines)
    ensures EnabledLine(lines) == |lines|
  {
    if EnabledLine(lines) < |lines| {
      KindsApart();
      var h, n := EntryMeans(lines, IsNotifications, IsHeader, SetsEnabled);
    }
  }

  lemma EndsWithE(s: string)
    requires |s| >= 2 && s[|s| - 2..] == "e\n"
    ensures Trim(s) != NOTIFICATIONS
  {
    var n := |s| - 2;
    assert s[n] == s[n..][0] && s[n + 1] == s[n..][1];
    assert !IsWhite('e') && IsWhite('\n');
    assert WhiteTail(s, |s|) == n + 1;
    assert Trim(s)[|Trim(s)| - 1] == 'e';
    assert NOTIFICATIONS[|NOTIFICATIONS| - 1] == ']';
  }

  lemma AssignmentEnds(enabled: bool)
    ensures var line := Assignment(enabled); |line| >= 2 && line[|line| - 2..] == "e\n"
  {
  }

  lemma GluedLine(line: string, enabled: bool)
    requires IsLine(line) && !Ended(line)
    ensures IsLine(line + Assignment(enabled)) && Trim(line + Assignment(enabled)) != NOTIFICATIONS
  {
    var end := Assignment(enabled);
    InsertedParts(enabled);
    AssignmentEnds(enabled);
    assert (line + end)[|line + end| - 2..] == end[|end| - 2..];
    EndsWithE(line + end);
  }

  lemma GluedLines(lines: seq<string>, line: string)
    requires lines != [] && Lined(lines) && IsLine(line)
    requires forall i | 0 <= i < |lines| - 1 :: Trim(lines[i]) != NOTIFICATIONS
    requires Trim(line) != NOTIFICATIONS
    ensures var glued := lines[|lines| - 1 := line]; Lined(glued) && First(glued, IsNotifications, 0) == |glued|
  {
    var glued := lines[|lines| - 1 := line];
    assert forall i | 0 <= i < |lines| - 1 :: glued[i] == lines[i];
    FirstIs(glued, IsNotifications, 0, |glued|);
  }

  lemma GluedText(lines: seq<string>, line: string)
    requires lines != []
    ensures var h := |lines| - 1; Concat(lines[h := lines[h] + line]) == Concat(WithLine(lines, h, line))
  {
    var h := |lines| - 1;
    AroundLine(lines, h, lines[h] + line);
    AfterLine(lines, h, line);
    WholeText(lines);
  }

  lemma TornEdited(lines: seq<string>, enabled: bool)
    requires Torn(lines)
    ensures lines != [] && Edited(lines, enabled) == WithLine(lines, |lines| - 1, Assignment(enabled))
  {
    TornHasNoAssignment(lines);
  }

  lemma TornGlued(lines: seq<string>, enabled: bool)
    requires Lined(lines) && Torn(lines)
    ensures var glued := lines[|lines| - 1 := lines[|lines| - 1] + Assignment(enabled)];
      Lined(glued) && First(glued, IsNotifications, 0) == |glued|
  {
    var h := |lines| - 1;
    GluedLine(lines[h], enabled);
    FirstMeans(lines, IsNotifications, 0);
    GluedLines(lines, lines[h] + Assignment(enabled));
  }

  /** The inserted line runs into the header, and the text no longer holds a notifications table. */
  lemma TornOnce(lines: seq<string>, enabled: bool)
    requires Lined(lines) && Torn(lines)
    ensures var once := Lines(Concat(Edited(lines, enabled))); First(once, IsNotifications, 0) == |once|
    ensures |Concat(Edited(lines, enabled))| == |Concat(lines)| + |Assignment(enabled)|
  {
    var h, line := |lines| - 1, Assignment(enabled);
    TornEdited(lines, enabled);
    AfterLine(lines, h, line);
    GluedText(lines, line);
    TornGlued(lines, enabled);
    LinesOfConcat(lines[h := lines[h] + line]);
  }

  lemma TableGrows(lines: seq<string>, enabled: bool)
    requires Lined(lines) && First(lines, IsNotifications, 0) == |lines|
    ensures |Concat(Edited(lines, enabled))| >= |Concat(lines)| + |NOTIFICATIONS| + |Assignment(enabled)|
  {
    BeforeTable(lines, First(lines, IsTargets, 0), NOTIFICATIONS + "\n", Assignment(enabled), "\n");
  }

  lemma TornDiffers(text: string, first: bool, second: bool)
    requires Torn(Lines(text))
    ensures Set(Set(text, first), second) != Set(text, second)
  {
    LinesOfText(text);
    LinesOfText(Set(text, first));
    TornOnce(Lines(text), first);
    TornOnce(Lines(text), second);
    TableGrows(Lines(Set(text, first)), second);
  }

  /**
   * The last write wins, exactly unless the first notifications header is the text's last line and
   * lacks its newline.
   */
  lemma LastWriteWinsExactly(text: string, first: bool, second: bool)
    ensures Set(Set(text, first), second) == Set(text, second) <==> !Torn(Lines(text))
  {
    if Torn(Lines(text)) {
      TornDiffers(text, first, second);
    } else {
      LinesOfText(text);
      EditedTwice(Lines(text), first, second);
      LinesOfConcat(Edited(Lines(text), first));
    }
  }

  lemma HeaderTrims()
    ensures IsNotifications(NOTIFICATIONS) && IsLine(NOTIFICATIONS) && !Ended(NOTIFICATIONS)
  {
    TrimIs(NOTIFICATIONS, 0, |NOTIFICATIONS|);
    assert NOTIFICATIONS[0..|NOTIFICATIONS|] == NOTIFICATIONS;
  }

  lemma OneLine(line: string)
    requires IsLine(line)
    ensures Lines(line) == [line]
  {
    ConcatOne(line);
    LinesOfConcat([line]);
  }

  /** A text that is nothing but the header, without a newline, is in that shape. */
  lemma HeaderAloneIsTorn()
    ensures Torn(Lines("[notifications]"))
  {
    HeaderTrims();
    OneLine(NOTIFICATIONS);
    FirstIs([NOTIFICATIONS], IsNotifications, 0, 0);
  }

  /** The same condition decides whether the text then says what was set. */
  lemma WriteIsReadExactly(text: string, enabled: bool)
    ensures ReadBack(Set(text, enabled)) == Some(Value(enabled)) <==> !Torn(Lines(text))
  {
    var lines := Lines(text);
    LinesOfText(text);
    if Torn(lines) {
      TornOnce(lines, enabled);
    } else {
      EditedTwice(lines, enabled, enabled);
      LinesOfConcat(Edited(lines, enabled));
      var line := EditedIsRead(lines, enabled);
    }
  }

  lemma ValueIsThere(right: string, value: string)
    requires Plain(value)
    ensures var right' := NewRight(right, value);
      ValueStart(right') <= ValueEnd(right') && right'[ValueStart(right')..ValueEnd(right')] == value
  {
    NewRightFound(right, value);
  }

  lemma UpdatedSays(line: string, enabled: bool)
    requires IsLine(line) && SetsEnabled(line) && Equals(line) < |line|
    ensures var line' := Updated(line, Value(enabled)); Equals(line') < |line'| && Said(line') == Value(enabled)
  {
    ValuesArePlain(enabled);
    ValueIsThere(Right(line), Value(enabled));
    UpdatedLine(line, Value(enabled));
  }

  lemma BareSays(value: string)
    requires Plain(value)
    ensures var right := " " + value;
      ValueStart(right) <= ValueEnd(right) && right[ValueStart(right)..ValueEnd(right)] == value
  {
    BareValueEnds(value);
  }

  lemma AssignmentSays(enabled: bool)
    ensures Equals(Assignment(enabled)) < |Assignment(enabled)| && Said(Assignment(enabled)) == Value(enabled)
  {
    ValuesArePlain(enabled);
    BareSays(Value(enabled));
    InsertedParts(enabled);
    InsertedLines(enabled);
  }

  lemma EditedIsRead(lines: seq<string>, enabled: bool) returns (line: string)
    requires Lined(lines) && !Torn(lines)
    ensures var once := Edited(lines, enabled); EnabledLine(once) < |once| && line == once[EnabledLine(once)]
    ensures Equals(line) < |line| && Said(line) == Value(enabled)
  {
    var n, h := EnabledLine(lines), First(lines, IsNotifications, 0);
    if n < |lines| {
      EntryPasses(lines, IsNotifications, IsHeader, SetsEnabled);
      SetsEnabledHasEquals(lines[n]);
      line := Updated(lines[n], Value(enabled));
      UpdatedSays(lines[n], enabled);
      PresentTwice(lines, n, enabled, enabled);
      EditedAt(lines, n, enabled);
    } else {
      line := Assignment(enabled);
      AssignmentSays(enabled);
      if h < |lines| {
        InsertedLineTwice(lines, h, enabled, enabled);
      } else {
        InsertedTableTwice(lines, First(lines, IsTargets, 0), enabled, enabled);
      }
    }
  }

  // ----- everything else stays -----

  /** What may be added where nothing is taken away: a missing value, a line, or a table. */
  ghost predicate Addition(added: string, enabled: bool) {
    || (Value(enabled) <= added && forall i | |Value(enabled)| <= i < |added| :: IsWhite(added[i]))
    || added == Assignment(enabled)
    || added == NOTIFICATIONS + "\n" + Assignment(enabled) + "\n"
    || added == "\n" + (NOTIFICATIONS + "\n" + Assignment(enabled) + "\n")
  }

  /** A value as it was written: no spaces around it, no comment, no newline. */
  ghost predicate OldValue(s: string) {
    s != "" && !IsWhite(s[0]) && !IsWhite(s[|s| - 1]) && '#' !in s && '\n' !in s
  }

  /** One stretch of a text and what stands there instead. */
  datatype Patch = Patch(from: nat, upTo: nat, added: string)

  /**
   * Everything is kept, byte for byte, but one stretch: the old value, without the spaces around it,
   * a comment or a newline; or, where there was no value, nothing, with only the value, its line or
   * its table added.
   */
  ghost predicate OnlyPatched(before: string, after: string, patch: Patch, enabled: bool) {
    && patch.from <= patch.upTo <= |before|
    && after == before[..patch.from] + patch.added + before[patch.upTo..]
    && if patch.from == patch.upTo then Addition(patch.added, enabled)
       else patch.added == Value(enabled) && OldValue(before[patch.from..patch.upTo])
  }

  lemma SliceWithin(a: string, inner: string, c: string, i: nat, j: nat)
    requires i <= j <= |inner|
    ensures var all, k := a + inner + c, |a|;
      && all[..k + i] == a + inner[..i] && all[k + j..] == inner[j..] + c && all[k + i..k + j] == inner[i..j]
  {
  }

  lemma Rejoined(a: string, b: string, added: string, d: string, c: string)
    ensures a + (b + added + d) + c == (a + b) + added + (d + c)
  {
  }

  lemma PatchedWithin(a: string, inner: string, inner': string, c: string, inside: Patch, enabled: bool,
                      all: string, all': string)
    returns (patch: Patch)
    requires OnlyPatched(inner, inner', inside, enabled)
    requires all == a + inner + c && all' == a + inner' + c
    ensures OnlyPatched(all, all', patch, enabled)
  {
    SliceWithin(a, inner, c, inside.from, inside.upTo);
    Rejoined(a, inner[..inside.from], inside.added, inner[inside.upTo..], c);
    patch := Patch(|a| + inside.from, |a| + inside.upTo, inside.added);
  }

  lemma LineParts(line: string)
    requires IsLine(line) && Equals(line) < |line|
    ensures line == Left(line) + Right(line) + Newline(line)
  {
    assert line[Equals(line)] == '=';
  }

  lemma RightPatched(right: string, enabled: bool) returns (patch: Patch)
    requires '\n' !in right
    ensures OnlyPatched(right, NewRight(right, Value(enabled)), patch, enabled)
  {
    var vs, ve, value := ValueStart(right), ValueEnd(right), Value(enabled);
    if vs <= ve {
      patch := Patch(vs, ve, value);
    } else {
      patch := Patch(vs, vs, value + right[..vs]);
      assert ve == 0;
      assert right[..vs] + value + right == right[..vs] + (value + right[..vs]) + right[vs..];
    }
  }

  lemma LinePatched(line: string, enabled: bool) returns (patch: Patch)
    requires IsLine(line) && Equals(line) < |line|
    ensures OnlyPatched(line, Updated(line, Value(enabled)), patch, enabled)
  {
    LineParts(line);
    RightHasNoNewline(line);
    var line', right' := Updated(line, Value(enabled)), NewRight(Right(line), Value(enabled));
    patch := RightPatched(Right(line), enabled);
    patch := PatchedWithin(Left(line), Right(line), right', Newline(line), patch, enabled, line, line');
  }

  lemma CutAround(text: string, start: nat, line: string)
    requires start + |line| <= |text| && text[start..start + |line|] == line
    ensures text == text[..start] + line + text[start + |line|..]
  {
  }

  lemma Regroup(front: string, table: string, back: string)
    ensures front + "\n" + table + back == front + ("\n" + table) + back
  {
  }

  lemma ReplacedPatched(lines: seq<string>, n: nat, enabled: bool) returns (patch: Patch)
    requires Lined(lines) && EnabledLine(lines) == n < |lines|
    ensures OnlyPatched(Concat(lines), Concat(Edited(lines, enabled)), patch, enabled)
  {
    var text, line, start := Concat(lines), lines[n], Offset(lines, n);
    AroundLine(lines, n, line);
    OffsetStep(lines, n);
    CutAround(text, start, line);
    var a, c := text[..start], text[start + |line|..];
    AssignmentHasEquals(lines);
    patch := LinePatched(line, enabled);
    TextEditedAt(lines, n, enabled);
    patch := PatchedWithin(a, line, Updated(line, Value(enabled)), c, patch, enabled,
                               text, Concat(Edited(lines, enabled)));
  }

  lemma InsertionIsPatch(front: string, added: string, back: string, enabled: bool, all: string, all': string)
    returns (patch: Patch)
    requires Addition(added, enabled) && all == front + back && all' == front + added + back
    ensures OnlyPatched(all, all', patch, enabled)
  {
    patch := Patch(|front|, |front|, added);
  }

  lemma TableInserted(text: string, end: nat, enabled: bool) returns (patch: Patch)
    requires end <= |text|
    ensures OnlyPatched(text, WithTableAt(text, end, enabled), patch, enabled)
  {
    var front, back, table := text[..end], text[end..], NOTIFICATIONS + "\n" + Assignment(enabled) + "\n";
    assert text == front + back;
    if front != "" && front[|front| - 1] != '\n' {
      Regroup(front, table, back);
      patch := InsertionIsPatch(front, "\n" + table, back, enabled, text, WithTableAt(text, end, enabled));
    } else {
      patch := InsertionIsPatch(front, table, back, enabled, text, WithTableAt(text, end, enabled));
    }
  }

  lemma TablePatched(lines: seq<string>, enabled: bool) returns (patch: Patch)
    requires Lined(lines) && First(lines, IsNotifications, 0) == |lines|
    ensures OnlyPatched(Concat(lines), Concat(Edited(lines, enabled)), patch, enabled)
  {
    TextWithTable(lines, enabled);
    patch := TableInserted(Concat(lines), Offset(lines, First(lines, IsTargets, 0)), enabled);
  }

  /** Whatever the text, an edit changes one such stretch and nothing else. */
  lemma OnlyTheValueChanges(text: string, enabled: bool) returns (patch: Patch)
    ensures OnlyPatched(text, Set(text, enabled), patch, enabled)
  {
    var lines := Lines(text);
    LinesOfText(text);
    if EnabledLine(lines) < |lines| {
      patch := ReplacedPatched(lines, EnabledLine(lines), enabled);
    } else if First(lines, IsNotifications, 0) < |lines| {
      var h := First(lines, IsNotifications, 0);
      TextWithLine(lines, h, enabled);
      patch := Patch(Offset(lines, h + 1), Offset(lines, h + 1), Assignment(enabled));
    } else {
      patch := TablePatched(lines, enabled);
    }
  }
}
