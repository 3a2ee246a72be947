/** Turning notifications on or off by editing the configuration's own text. */
module Toml {
  import opened Base
  import opened Tables
  import opened TextLines

  const NOTIFICATIONS := "[notifications]"
  const TARGETS := "[[targets]]"

  function Value(enabled: bool): string { if enabled then "true" else "false" }

  function Assignment(enabled: bool): string { "enabled = " + Value(enabled) + "\n" }

  // ----- one line -----

  predicate IsHeader(line: string) {
    var trimmed := Trim(line);
    trimmed != "" && trimmed[0] == '[' && trimmed[|trimmed| - 1] == ']'
  }

  predicate SetsEnabled(line: string) {
    var trimmed := Trim(line);
    var equals := IndexOf(trimmed, '=', 0);
    equals < |trimmed| && Trim(trimmed[..equals]) == "enabled"
  }

  function Equals(line: string): nat { IndexOf(line, '=', 0) }

  function Content(line: string): string { if Ended(line) then line[..|line| - 1] else line }

  function Newline(line: string): string { if Ended(line) then "\n" else "" }

  function ValueStart(right: string): nat { NonWhite(right, 0) }

  function ValueEnd(right: string): nat { WhiteTail(right, IndexOf(right, '#', 0)) }

  /** What follows the equals sign, with the value between them replaced. */
  function NewRight(right: string, value: string): string {
    right[..ValueStart(right)] + value + right[ValueEnd(right)..]
  }

  function Left(line: string): string
    requires Equals(line) < |line|
  {
    line[..Equals(line) + 1]
  }

  function Right(line: string): string
    requires Equals(line) < |line|
  {
    Content(line)[Equals(line) + 1..]
  }

  function Updated(line: string, value: string): string
    requires Equals(line) < |line|
  {
    Left(line) + NewRight(Right(line), value) + Newline(line)
  }

  // ----- all lines -----

  predicate IsNotifications(line: string) { Trim(line) == NOTIFICATIONS }

  predicate IsTargets(line: string) { Trim(line) == TARGETS }

  /** The line that sets `enabled` in the first notifications table, when there is one. */
  function EnabledLine(lines: seq<string>): (n: nat)
    ensures n <= |lines|
  {
    Entry(lines, IsNotifications, IsHeader, SetsEnabled)
  }

  function Terminated(line: string): string { if Ended(line) then line else line + "\n" }

  function WithNewline(lines: seq<string>): (r: seq<string>)
    ensures |r| == |lines|
  {
    if lines == [] then [] else lines[..|lines| - 1] + [Terminated(lines[|lines| - 1])]
  }

  function Replaced(lines: seq<string>, n: nat, enabled: bool): seq<string>
    requires n < |lines| && Equals(lines[n]) < |lines[n]|
  {
    lines[n := Updated(lines[n], Value(enabled))]
  }

  /** The value replaced where there is one; or a line under the table's header; or a whole table. */
  function Edited(lines: seq<string>, enabled: bool): seq<string> {
    var h, n := First(lines, IsNotifications, 0), EnabledLine(lines);
    if n < |lines| then
      AssignmentHasEquals(lines);
      Replaced(lines, n, enabled)
    else if h < |lines| then WithLine(lines, h, Assignment(enabled))
    else
      var i := First(lines, IsTargets, 0);
      WithTable(WithNewline(lines[..i]), NOTIFICATIONS + "\n", Assignment(enabled), "\n", lines[i..])
  }

  /** What the text becomes. */
  function Set(text: string, enabled: bool): string {
    Concat(Edited(Lines(text), enabled))
  }

  // ----- trimming keeps the key -----

  lemma SetsEnabledHasEquals(line: string)
    requires SetsEnabled(line)
    ensures Equals(line) < |line|
  {
    var i, equals := NonWhite(line, 0), IndexOf(Trim(line), '=', 0);
    assert line[i + equals] == '=';
  }

  lemma AssignmentHasEquals(lines: seq<string>)
    requires EnabledLine(lines) < |lines|
    ensures Equals(lines[EnabledLine(lines)]) < |lines[EnabledLine(lines)]|
  {
    EntryPasses(lines, IsNotifications, IsHeader, SetsEnabled);
    SetsEnabledHasEquals(lines[EnabledLine(lines)]);
  }

  /** A line sets `enabled` exactly when that is the word before its first equals sign. */
  lemma KeyIsBeforeEquals(line: string)
    requires Equals(line) < |line|
    ensures SetsEnabled(line) <==> Trim(line[..Equals(line)]) == "enabled"
  {
    var i, j, e := NonWhite(line, 0), WhiteTail(line, |line|), Equals(line);
    assert line[e] == '=' && !IsWhite('=');
    var trimmed := line[i..j];
    assert trimmed[e - i] == '=' && forall k | 0 <= k < e - i :: trimmed[k] == line[i + k];
    assert IndexOf(trimmed, '=', 0) == e - i;
    var before := line[..e];
    assert trimmed[..e - i] == before[i..e];
    TrimInner(before, i, before[i..e]);
  }

  /** An assignment is never taken for a table header. */
  lemma AssignmentIsNoHeader(line: string)
    requires SetsEnabled(line)
    ensures !IsHeader(line)
  {
    var trimmed := Trim(line);
    var key := trimmed[..IndexOf(trimmed, '=', 0)];
    assert !IsWhite(trimmed[0]);
    assert Trim(key)[0] == trimmed[0];
  }

  lemma KeyWord()
    ensures Trim("enabled ") == "enabled"
  {
    TrimIs("enabled ", 0, 7);
    assert "enabled "[0..7] == "enabled";
  }

  lemma InsertedParts(enabled: bool)
    ensures Equals(Assignment(enabled)) == 8 && Assignment(enabled)[..8] == "enabled "
    ensures IsLine(Assignment(enabled)) && Ended(Assignment(enabled))
    ensures Content(Assignment(enabled)) == "enabled = " + Value(enabled)
    ensures Left(Assignment(enabled)) == "enabled ="
  {
    var line := Assignment(enabled);
    assert line[8] == '=' && forall k | 0 <= k < 8 :: line[k] == "enabled "[k];
  }

  lemma InsertedLines(enabled: bool)
    ensures SetsEnabled(Assignment(enabled)) && Right(Assignment(enabled)) == " " + Value(enabled)
  {
    InsertedParts(enabled);
    KeyIsBeforeEquals(Assignment(enabled));
    KeyWord();
  }

  lemma InsertedHeader()
    ensures Trim(NOTIFICATIONS + "\n") == NOTIFICATIONS && IsHeader(NOTIFICATIONS + "\n")
    ensures IsLine(NOTIFICATIONS + "\n") && Ended(NOTIFICATIONS + "\n") && IsLine("\n") && Ended("\n")
  {
    TrimIs(NOTIFICATIONS, 0, |NOTIFICATIONS|);
    TrimAddsNewline(NOTIFICATIONS);
  }

  // ----- editing one line twice -----

  lemma NoHash(right: string, n: nat)
    requires n <= |right| && forall i | 0 <= i < n :: right[i] != '#'
    requires n == |right| || right[n] == '#'
    ensures IndexOf(right, '#', 0) == n
  {
  }

  lemma ValueEndsAt(right: string, n: nat, hash: nat)
    requires IndexOf(right, '#', 0) == hash && 0 < n <= hash && !IsWhite(right[n - 1])
    requires forall i | n <= i < hash :: IsWhite(right[i])
    ensures ValueEnd(right) == n
  {
  }

  /** Values that cannot be mistaken for what surrounds them. */
  predicate Plain(value: string) {
    value != "" && forall i | 0 <= i < |value| :: !IsWhite(value[i]) && value[i] != '#'
  }

  lemma ValuesArePlain(enabled: bool)
    ensures Plain(Value(enabled))
  {
  }

  lemma ValueFound(before: string, value: string, after: string, n: nat)
    requires Plain(value) && forall i | 0 <= i < |before| :: IsWhite(before[i])
    requires n <= |after| && (forall i | 0 <= i < n :: IsWhite(after[i])) && (n < |after| ==> after[n] == '#')
    ensures var right := before + value + after;
      ValueStart(right) == |before| && ValueEnd(right) == |before| + |value|
  {
    var right, v := before + value + after, |before| + |value|;
    assert !IsWhite('#');
    assert forall i | 0 <= i < |before| :: right[i] == before[i];
    assert forall i | |before| <= i < v :: right[i] == value[i - |before|];
    assert forall i | v <= i < |right| :: right[i] == after[i - v];
    assert !IsWhite(right[|before|]) && !IsWhite(right[v - 1]);
    NoHash(right, v + n);
    ValueEndsAt(right, v, v + n);
  }

  /** The value just written is found again, and only it is replaced. */
  lemma NewRightFound(right: string, value: string)
    requires Plain(value)
    ensures var right' := NewRight(right, value);
      ValueStart(right') == ValueStart(right) && ValueEnd(right') == ValueStart(right) + |value|
  {
    var vs, ve := ValueStart(right), ValueEnd(right);
    ValueFound(right[..vs], value, right[ve..], IndexOf(right, '#', 0) - ve);
  }

  lemma NewRightTwice(right: string, first: string, second: string)
    requires Plain(first)
    ensures NewRight(NewRight(right, first), second) == NewRight(right, second)
  {
    var vs, n, right' := ValueStart(right), |first|, NewRight(right, first);
    NewRightFound(right, first);
    assert right'[..vs] == right[..vs] && right'[vs + n..] == right[ValueEnd(right)..];
  }

  lemma RightHasNoNewline(line: string)
    requires IsLine(line) && Equals(line) < |line|
    ensures '\n' !in Right(line)
  {
    var e := Equals(line);
    assert forall i | 0 <= i < |Right(line)| :: Right(line)[i] == line[e + 1 + i];
  }

  lemma NewRightHasNoNewline(right: string, value: string)
    requires '\n' !in right && Plain(value)
    ensures '\n' !in NewRight(right, value)
  {
    assert IsWhite('\n');
  }

  lemma LeftHasNoNewline(line: string)
    requires IsLine(line) && Equals(line) < |line|
    ensures '\n' !in Left(line)
  {
  }

  /** A line made of a left side and anything free of newlines is taken apart again the same way. */
  lemma Reassembled(line: string, right: string)
    requires IsLine(line) && Equals(line) < |line| && '\n' !in right
    ensures var line' := Left(line) + right + Newline(line);
      && IsLine(line') && (Ended(line') <==> Ended(line))
      && Equals(line') == Equals(line) < |line'| && line'[..Equals(line)] == line[..Equals(line)]
      && Left(line') == Left(line) && Right(line') == right
  {
    var e, content := Equals(line), Left(line) + right;
    var line' := content + Newline(line);
    LeftHasNoNewline(line);
    assert '\n' !in content;
    assert Content(line') == content;
    assert forall i | 0 <= i <= e :: line'[i] == line[i];
    assert Equals(line') == e;
  }

  /** An updated line is the same kind of line, with the same left side and only its value replaced. */
  lemma UpdatedLine(line: string, value: string)
    requires IsLine(line) && SetsEnabled(line) && Equals(line) < |line| && Plain(value)
    ensures var line' := Updated(line, value);
      && IsLine(line') && (Ended(line') <==> Ended(line)) && SetsEnabled(line')
      && Equals(line') == Equals(line) < |line'|
      && Left(line') == Left(line) && Right(line') == NewRight(Right(line), value)
  {
    RightHasNoNewline(line);
    NewRightHasNoNewline(Right(line), value);
    Reassembled(line, NewRight(Right(line), value));
    KeyIsBeforeEquals(line);
    KeyIsBeforeEquals(Updated(line, value));
  }

  lemma UpdatedTwice(line: string, first: string, second: string)
    requires IsLine(line) && SetsEnabled(line) && Equals(line) < |line| && Plain(first)
    requires Equals(Updated(line, first)) < |Updated(line, first)|
    ensures Updated(Updated(line, first), second) == Updated(line, second)
  {
    UpdatedLine(line, first);
    NewRightTwice(Right(line), first, second);
  }

  lemma BareValueEnds(value: string)
    requires Plain(value)
    ensures ValueStart(" " + value) == 1 && ValueEnd(" " + value) == 1 + |value|
  {
    var right := " " + value;
    assert forall i | 1 <= i < |right| :: right[i] == value[i - 1];
    NoHash(right, |right|);
    ValueEndsAt(right, |right|, |right|);
  }

  lemma AssignmentJoined(enabled: bool)
    ensures "enabled =" + (" " + Value(enabled)) + "\n" == Assignment(enabled)
  {
  }

  lemma BareRewritten(value: string, other: string)
    requires Plain(value)
    ensures NewRight(" " + value, other) == " " + other
  {
    BareValueEnds(value);
    var right := " " + value;
    assert right[..1] == " " && right[|right|..] == "";
  }

  lemma UpdatedParts(line: string, left: string, right: string, value: string)
    requires Equals(line) < |line| && Left(line) == left && Right(line) == right && Ended(line)
    ensures Updated(line, value) == left + NewRight(right, value) + "\n"
  {
  }

  lemma InsertedTwice(first: bool, second: bool)
    ensures Equals(Assignment(first)) < |Assignment(first)|
    ensures Updated(Assignment(first), Value(second)) == Assignment(second)
  {
    InsertedParts(first);
    InsertedLines(first);
    ValuesArePlain(first);
    BareRewritten(Value(first), Value(second));
    UpdatedParts(Assignment(first), "enabled =", " " + Value(first), Value(second));
    AssignmentJoined(second);
  }

  // ----- editing a text twice -----

  /** The one shape the editor does not survive: its header is the last line and lacks a newline. */
  predicate Torn(lines: seq<string>) {
    var h := First(lines, IsNotifications, 0);
    h == |lines| - 1 && !Ended(lines[h])
  }

  lemma KindsApart()
    ensures Apart(IsNotifications, IsHeader, SetsEnabled)
  {
    forall line | SetsEnabled(line)
      ensures !IsHeader(line)
    {
      AssignmentIsNoHeader(line);
    }
  }

  /** A text whose assignment is at line `n` is edited there. */
  lemma EditedAt(lines: seq<string>, n: nat, enabled: bool)
    requires EnabledLine(lines) == n < |lines|
    ensures SetsEnabled(lines[n]) && Equals(lines[n]) < |lines[n]|
    ensures Edited(lines, enabled) == Replaced(lines, n, enabled)
  {
    EntryPasses(lines, IsNotifications, IsHeader, SetsEnabled);
    SetsEnabledHasEquals(lines[n]);
  }

  lemma OnlyLastUpdateStays(lines: seq<string>, n: nat, first: string, second: string)
    requires n < |lines|
    ensures lines[n := first][n := second] == lines[n := second]
  {
  }

  lemma LinedReplaced(lines: seq<string>, n: nat, line: string)
    requires Lined(lines) && n < |lines| && IsLine(line) && (Ended(line) <==> Ended(lines[n]))
    ensures Lined(lines[n := line])
  {
  }

  lemma PresentTwice(lines: seq<string>, n: nat, first: bool, second: bool)
    requires Lined(lines) && EnabledLine(lines) == n < |lines|
    ensures var once := Edited(lines, first);
      Lined(once) && EnabledLine(once) == n < |once| && Edited(once, second) == Edited(lines, second)
  {
    var line := lines[n];
    EditedAt(lines, n, first);
    EditedAt(lines, n, second);
    var line' := Updated(line, Value(first));
    ValuesArePlain(first);
    UpdatedLine(line, Value(first));
    LinedReplaced(lines, n, line');
    KindsApart();
    EntryReplaced(lines, n, line', IsNotifications, IsHeader, SetsEnabled);
    EditedAt(lines[n := line'], n, second);
    UpdatedTwice(line, Value(first), Value(second));
    OnlyLastUpdateStays(lines, n, line', Updated(line, Value(second)));
  }

  lemma InsertedLineTwice(lines: seq<string>, h: nat, first: bool, second: bool)
    requires Lined(lines) && !Torn(lines)
    requires First(lines, IsNotifications, 0) == h < |lines| && EnabledLine(lines) == |lines|
    ensures var once := Edited(lines, first);
      && Lined(once) && EnabledLine(once) == h + 1 < |once| && once[h + 1] == Assignment(first)
      && Edited(once, second) == Edited(lines, second)
  {
    var line := Assignment(first);
    InsertedParts(first);
    InsertedLines(first);
    LinedWithLine(lines, h, line);
    KindsApart();
    EntryInserted(lines, h, line, IsNotifications, IsHeader, SetsEnabled);
    LineSwapped(lines, h, line, Assignment(second));
    InsertedTwice(first, second);
    EditedAt(WithLine(lines, h, line), h + 1, second);
  }

  lemma TerminatedLine(line: string)
    requires IsLine(line)
    ensures IsLine(Terminated(line)) && Ended(Terminated(line)) && Trim(Terminated(line)) == Trim(line)
  {
    TrimAddsNewline(line);
  }

  lemma TerminatedFront(lines: seq<string>, i: nat)
    requires Lined(lines) && i <= |lines|
    ensures var front := WithNewline(lines[..i]);
      && Lined(front) && (front != [] ==> Ended(front[|front| - 1]))
      && forall k | 0 <= k < i :: Trim(front[k]) == Trim(lines[k])
  {
    if i > 0 {
      var front := WithNewline(lines[..i]);
      assert IsLine(lines[i - 1]);
      TerminatedLine(lines[i - 1]);
      LinedReplacedLast(lines[..i], front[i - 1]);
      assert forall k | 0 <= k < i - 1 :: front[k] == lines[k];
    }
  }

  lemma LinedReplacedLast(lines: seq<string>, line: string)
    requires lines != [] && Lined(lines) && IsLine(line)
    ensures Lined(lines[..|lines| - 1] + [line])
  {
    var once := lines[..|lines| - 1] + [line];
    assert forall k | 0 <= k < |lines| - 1 :: once[k] == lines[k];
  }

  lemma BackStays(lines: seq<string>, i: nat)
    requires Lined(lines) && i <= |lines|
    ensures Lined(lines[i..])
  {
    assert forall k | 0 <= k < |lines| - i :: lines[i..][k] == lines[i + k];
  }

  lemma TableFits(lines: seq<string>, i: nat, line: string)
    requires Lined(lines) && i <= |lines| && forall k | 0 <= k < i :: !IsNotifications(lines[k])
    requires IsLine(line) && Ended(line) && SetsEnabled(line)
    ensures var once := WithTable(WithNewline(lines[..i]), NOTIFICATIONS + "\n", line, "\n", lines[i..]);
      Lined(once) && EnabledLine(once) == i + 1
  {
    var front, title, back := WithNewline(lines[..i]), NOTIFICATIONS + "\n", lines[i..];
    TerminatedFront(lines, i);
    BackStays(lines, i);
    InsertedHeader();
    LinedWithTable(front, title, line, "\n", back);
    KindsApart();
    EntryAdded(front, title, line, "\n", back, IsNotifications, IsHeader, SetsEnabled);
  }

  lemma InsertedTableTwice(lines: seq<string>, i: nat, first: bool, second: bool)
    requires Lined(lines) && First(lines, IsNotifications, 0) == |lines| && First(lines, IsTargets, 0) == i
    ensures var once := Edited(lines, first);
      && Lined(once) && EnabledLine(once) == i + 1 < |once| && once[i + 1] == Assignment(first)
      && Edited(once, second) == Edited(lines, second)
  {
    var front, title, back := WithNewline(lines[..i]), NOTIFICATIONS + "\n", lines[i..];
    var line := Assignment(first);
    InsertedParts(first);
    InsertedLines(first);
    FirstMeans(lines, IsNotifications, 0);
    TableFits(lines, i, line);
    TableSwapped(front, title, line, Assignment(second), "\n", back);
    InsertedTwice(first, second);
    EditedAt(WithTable(front, title, line, "\n", back), i + 1, second);
  }

  /** Away from the torn shape, an edit leaves proper lines and a second edit replaces the first. */
  lemma EditedTwice(lines: seq<string>, first: bool, second: bool)
    requires Lined(lines) && !Torn(lines)
    ensures Lined(Edited(lines, first)) && Edited(Edited(lines, first), second) == Edited(lines, second)
  {
    if EnabledLine(lines) < |lines| {
      PresentTwice(lines, EnabledLine(lines), first, second);
    } else if First(lines, IsNotifications, 0) < |lines| {
      InsertedLineTwice(lines, First(lines, IsNotifications, 0), first, second);
    } else {
      InsertedTableTwice(lines, First(lines, IsTargets, 0), first, second);
    }
  }
}
