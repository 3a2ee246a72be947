/** The edit as it is made, by running offsets into one text, and what it guarantees about that text. */
module TomlEdit {
  import opened Base
  import opened Tables
  import opened TextLines
  import opened Toml

  // ----- the text around an edit -----

  lemma LineSpliced(lines: seq<string>, n: nat, line: string)
    requires n < |lines|
    ensures lines[n..n + 1] == [lines[n]] && lines[n := line] == lines[..n] + [line] + lines[n + 1..]
  {
  }

  lemma AroundLine(lines: seq<string>, n: nat, line: string)
    requires n < |lines|
    ensures var text := Concat(lines);
      && Offset(lines, n) <= Offset(lines, n + 1) <= |text|
      && text[Offset(lines, n)..Offset(lines, n + 1)] == lines[n]
      && Concat(lines[n := line]) == text[..Offset(lines, n)] + line + text[Offset(lines, n + 1)..]
  {
    ConcatSlices(lines, n, n + 1);
    LineSpliced(lines, n, line);
    ConcatOne(lines[n]);
    ConcatOne(line);
    ConcatAppends(lines[..n] + [line], lines[n + 1..]);
    ConcatAppends(lines[..n], [line]);
  }

  lemma AfterLine(lines: seq<string>, h: nat, line: string)
    requires h < |lines|
    ensures var text := Concat(lines);
      && Offset(lines, h + 1) <= |text|
      && Concat(WithLine(lines, h, line)) == text[..Offset(lines, h + 1)] + line + text[Offset(lines, h + 1)..]
  {
    ConcatSlices(lines, h + 1, h + 1);
    ConcatOne(line);
    ConcatAppends(lines[..h + 1] + [line], lines[h + 1..]);
    ConcatAppends(lines[..h + 1], [line]);
  }

  lemma NewlineAdded(lines: seq<string>)
    requires Lined(lines)
    ensures var text := Concat(lines);
      Concat(WithNewline(lines)) == if text == "" || text[|text| - 1] == '\n' then text else text + "\n"
  {
    if lines != [] {
      var n := |lines| - 1;
      assert lines == lines[..n] + [lines[n]];
      ConcatAppends(lines[..n], [lines[n]]);
      ConcatOne(lines[n]);
      ConcatAppends(lines[..n], [lines[n] + "\n"]);
      ConcatOne(lines[n] + "\n");
    }
  }

  lemma BeforeTable(lines: seq<string>, i: nat, header: string, line: string, blank: string)
    requires Lined(lines) && i <= |lines|
    ensures var text := Concat(lines);
      && Offset(lines, i) <= |text|
      && var front := text[..Offset(lines, i)];
      && Concat(WithTable(WithNewline(lines[..i]), header, line, blank, lines[i..]))
         == (if front == "" || front[|front| - 1] == '\n' then front else front + "\n")
            + (header + line + blank) + text[Offset(lines, i)..]
  {
    ConcatSlices(lines, i, i);
    NewlineAdded(lines[..i]);
    var front, table := WithNewline(lines[..i]), [header, line, blank];
    ConcatThree(header, line, blank);
    ConcatAppends(front + table, lines[i..]);
    ConcatAppends(front, table);
  }

  lemma SectionIsItsLines(lines: seq<string>, h: nat, end: nat)
    requires Lined(lines) && h <= end <= |lines|
    ensures var text := Concat(lines);
      && Offset(lines, h) <= Offset(lines, end) <= |text|
      && SectionAt(lines, h, end, Lines(text[Offset(lines, h)..Offset(lines, end)]))
  {
    ConcatSlices(lines, h, end);
    assert forall i | 0 <= i < end - h :: lines[h..end][i] == lines[h + i];
    LinesOfConcat(lines[h..end]);
  }

  lemma NewlineEnds(text: string, start: nat, end: nat, line: string)
    requires start <= end <= |text| && text[start..end] == line && IsLine(line) && (Ended(line) || end == |text|)
    ensures var n := IndexOf(text, '\n', start); end == if n < |text| then n + 1 else |text|
  {
    assert forall i | start <= i < end :: text[i] == line[i - start];
    if Ended(line) {
      assert text[end - 1] == '\n';
    }
  }

  lemma LineEndsAt(lines: seq<string>, h: nat)
    requires Lined(lines) && h < |lines|
    ensures var text, start := Concat(lines), Offset(lines, h);
      && start <= |text|
      && var n := IndexOf(text, '\n', start);
      Offset(lines, h + 1) == if n < |text| then n + 1 else |text|
  {
    AroundLine(lines, h, lines[h]);
    WholeText(lines);
    assert IsLine(lines[h]) && (Ended(lines[h]) || h + 1 == |lines|);
    NewlineEnds(Concat(lines), Offset(lines, h), Offset(lines, h + 1), lines[h]);
  }

  /** The pieces of a line, put together one after the other. */
  method Assemble(left: string, before: string, value: string, after: string, newline: string)
    returns (line: string)
    ensures line == left + (before + value + after) + newline
  {
    line := left;
    line := line + before;
    line := line + value;
    line := line + after;
    line := line + newline;
  }

  /** One assignment line with its value replaced. */
  method UpdateLine(line: string, value: string) returns (updated: string)
    requires Equals(line) < |line|
    ensures updated == Updated(line, value)
  {
    var left, right, newline := Left(line), Right(line), Newline(line);
    var valueStart := NonWhite(right, 0);
    var beforeComment := IndexOf(right, '#', 0);
    var valueEnd := WhiteTail(right, beforeComment);
    updated := Assemble(left, right[..valueStart], value, right[valueEnd..], newline);
  }

  /** A text with other text in place of the line that begins here. */
  function LineReplaced(text: string, start: nat, line: string, other: string): string
    requires start + |line| <= |text|
  {
    text[..start] + other + text[start + |line|..]
  }

  lemma TextReplacedAt(lines: seq<string>, n: nat, other: string)
    requires n < |lines|
    ensures Offset(lines, n) + |lines[n]| <= |Concat(lines)|
    ensures Concat(lines[n := other]) == LineReplaced(Concat(lines), Offset(lines, n), lines[n], other)
  {
    AroundLine(lines, n, other);
    OffsetStep(lines, n);
  }

  lemma TextEditedAt(lines: seq<string>, n: nat, enabled: bool)
    requires EnabledLine(lines) == n < |lines|
    ensures var text, start, line := Concat(lines), Offset(lines, n), lines[n];
      && Equals(line) < |line| && start + |line| <= |text|
      && Concat(Edited(lines, enabled)) == LineReplaced(text, start, line, Updated(line, Value(enabled)))
  {
    EditedAt(lines, n, enabled);
    TextReplacedAt(lines, n, Updated(lines[n], Value(enabled)));
  }

  lemma TextWithLine(lines: seq<string>, h: nat, enabled: bool)
    requires First(lines, IsNotifications, 0) == h < |lines| && EnabledLine(lines) == |lines|
    ensures var text, end := Concat(lines), Offset(lines, h + 1);
      && end <= |text|
      && Concat(Edited(lines, enabled)) == text[..end] + Assignment(enabled) + text[end..]
  {
    AfterLine(lines, h, Assignment(enabled));
  }

  /** Replace the value on the line that begins here. */
  method EditLine(ghost lines: seq<string>, ghost n: nat, text: string, line: string, lineStart: nat, enabled: bool)
    returns (updated: string)
    requires text == Concat(lines) && n < |lines| && n == EnabledLine(lines)
    requires line == lines[n] && lineStart == Offset(lines, n)
    ensures updated == Concat(Edited(lines, enabled))
  {
    TextEditedAt(lines, n, enabled);
    var line' := UpdateLine(line, Value(enabled));
    updated := LineReplaced(text, lineStart, line, line');
  }

  /** A text with a line put under the one that begins here. */
  function UnderLine(text: string, start: nat, line: string): string
    requires start <= |text|
  {
    var newline := IndexOf(text, '\n', start);
    var end := if newline < |text| then newline + 1 else |text|;
    text[..end] + line + text[end..]
  }

  /** Put the assignment under the table's header. */
  method InsertLine(ghost lines: seq<string>, ghost h: nat, text: string, start: nat, enabled: bool)
    returns (updated: string)
    requires Lined(lines) && text == Concat(lines) && EnabledLine(lines) == |lines|
    requires h == First(lines, IsNotifications, 0) < |lines| && start == Offset(lines, h)
    ensures updated == Concat(Edited(lines, enabled))
  {
    TextUnderLine(lines, h, text, start, enabled);
    updated := UnderLine(text, start, Assignment(enabled));
  }

  lemma UnderLineEnds(text: string, start: nat, end: nat, line: string)
    requires start <= |text| && end <= |text|
    requires var n := IndexOf(text, '\n', start); end == if n < |text| then n + 1 else |text|
    ensures UnderLine(text, start, line) == text[..end] + line + text[end..]
  {
  }

  lemma TextUnderLine(lines: seq<string>, h: nat, text: string, start: nat, enabled: bool)
    requires Lined(lines) && text == Concat(lines) && EnabledLine(lines) == |lines|
    requires h == First(lines, IsNotifications, 0) < |lines| && start == Offset(lines, h)
    ensures start <= |text| && Concat(Edited(lines, enabled)) == UnderLine(text, start, Assignment(enabled))
  {
    LineEndsAt(lines, h);
    TextWithLine(lines, h, enabled);
    UnderLineEnds(text, start, Offset(lines, h + 1), Assignment(enabled));
  }

  /** Set the flag within a table that is there. */
  method EditTable(ghost lines: seq<string>, text: string, start: nat, end: nat, enabled: bool)
    returns (updated: string)
    requires Lined(lines) && text == Concat(lines) && First(lines, IsNotifications, 0) < |lines|
    requires var h := First(lines, IsNotifications, 0);
             start == Offset(lines, h) && end == Offset(lines, First(lines, IsHeader, h + 1))
    ensures updated == Concat(Edited(lines, enabled))
  {
    ghost var h := First(lines, IsNotifications, 0);
    ghost var last := First(lines, IsHeader, h + 1);
    SectionIsItsLines(lines, h, last);
    var section := Lines(text[start..end]);
    var i, lineStart := FindInTable(lines, h, last, section, start, IsNotifications, IsHeader, SetsEnabled);
    if i < |section| {
      updated := EditLine(lines, EnabledLine(lines), text, section[i], lineStart, enabled);
    } else {
      updated := InsertLine(lines, h, text, start, enabled);
    }
  }

  /** A text with the table added before the line that begins at `end`. */
  function WithTableAt(text: string, end: nat, enabled: bool): string
    requires end <= |text|
  {
    var front := text[..end];
    (if front == "" || front[|front| - 1] == '\n' then front else front + "\n")
    + (NOTIFICATIONS + "\n" + Assignment(enabled) + "\n") + text[end..]
  }

  lemma TextWithTable(lines: seq<string>, enabled: bool)
    requires Lined(lines) && First(lines, IsNotifications, 0) == |lines|
    ensures var text, end := Concat(lines), Offset(lines, First(lines, IsTargets, 0));
      end <= |text| && Concat(Edited(lines, enabled)) == WithTableAt(text, end, enabled)
  {
    BeforeTable(lines, First(lines, IsTargets, 0), NOTIFICATIONS + "\n", Assignment(enabled), "\n");
  }

  /** Add the table, before the first target or at the end. */
  method AddTable(ghost lines: seq<string>, text: string, insertAt: nat, enabled: bool) returns (updated: string)
    requires Lined(lines) && text == Concat(lines) && First(lines, IsNotifications, 0) == |lines|
    requires insertAt == Offset(lines, First(lines, IsTargets, 0))
    ensures updated == Concat(Edited(lines, enabled))
  {
    TextWithTable(lines, enabled);
    updated := text[..insertAt];
    if insertAt > 0 && updated[|updated| - 1] != '\n' {
      updated := updated + "\n";
    }
    updated := updated + (NOTIFICATIONS + "\n" + Assignment(enabled) + "\n");
    updated := updated + text[insertAt..];
  }

  /** The headers of a text and where they stand. */
  method TableHeaders(text: string) returns (headers: seq<Header>)
    ensures headers == Headers(Lines(text), 0, IsHeader, Trim)
  {
    headers := CollectHeaders(text, IsHeader, Trim);
  }

  lemma TitledNotifications(lines: seq<string>)
    ensures Titled(lines, NOTIFICATIONS, IsHeader, Trim, 0) == First(lines, IsNotifications, 0)
  {
    TitledIsFirst(lines, NOTIFICATIONS, IsHeader, Trim, IsNotifications, 0);
  }

  lemma TitledTargets(lines: seq<string>)
    ensures Titled(lines, TARGETS, IsHeader, Trim, 0) == First(lines, IsTargets, 0)
  {
    TitledIsFirst(lines, TARGETS, IsHeader, Trim, IsTargets, 0);
  }

  /** Set the flag in the configuration's text, leaving everything else as it was written. */
  method SetNotificationsEnabled(text: string, enabled: bool) returns (updated: string)
    ensures updated == Set(text, enabled)
  {
    ghost var lines := Lines(text);
    LinesOfText(text);
    WholeText(lines);
    var headers := TableHeaders(text);
    var found, start, end := FindTable(lines, text, headers, NOTIFICATIONS, IsHeader, Trim);
    TitledNotifications(lines);
    if found {
      updated := EditTable(lines, text, start, end, enabled);
    } else {
      var _, insertAt, _ := FindTable(lines, text, headers, TARGETS, IsHeader, Trim);
      TitledTargets(lines);
      updated := AddTable(lines, text, insertAt, enabled);
    }
  }
}
