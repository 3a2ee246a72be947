/** Where the lines of a sectioned text stand, whatever makes a line a header or the line looked for. */
module Tables {
  import opened TextLines

  type Test = string -> bool

  // ----- finding lines -----

  /** The first line from here on that passes, or the number of lines. */
  function First(lines: seq<string>, wanted: Test, from: nat): (n: nat)
    requires from <= |lines|
    ensures from <= n <= |lines|
    decreases |lines| - from
  {
    if from == |lines| || wanted(lines[from]) then from else First(lines, wanted, from + 1)
  }

  lemma {:induction false} FirstMeans(lines: seq<string>, wanted: Test, from: nat)
    requires from <= |lines|
    ensures var n := First(lines, wanted, from);
      (n < |lines| ==> wanted(lines[n])) && forall i | from <= i < n :: !wanted(lines[i])
    decreases |lines| - from
  {
    if from < |lines| && !wanted(lines[from]) {
      FirstMeans(lines, wanted, from + 1);
    }
  }

  lemma FirstIs(lines: seq<string>, wanted: Test, from: nat, n: nat)
    requires from <= n <= |lines| && (n < |lines| ==> wanted(lines[n]))
    requires forall i | from <= i < n :: !wanted(lines[i])
    ensures First(lines, wanted, from) == n
  {
    FirstMeans(lines, wanted, from);
  }

  /** The first line that passes within the first table: after its header and before the next. */
  function Entry(lines: seq<string>, table: Test, header: Test, wanted: Test): (n: nat)
    ensures n <= |lines|
  {
    var h := First(lines, table, 0);
    if h == |lines| then |lines|
    else
      var n := First(lines, wanted, h);
      if n < First(lines, header, h + 1) then n else |lines|
  }

  lemma EntryPasses(lines: seq<string>, table: Test, header: Test, wanted: Test)
    requires Entry(lines, table, header, wanted) < |lines|
    ensures wanted(lines[Entry(lines, table, header, wanted)])
  {
    FirstMeans(lines, wanted, First(lines, table, 0));
  }

  /** Where a search of the first table's lines ends is where its entry is, if it has one. */
  lemma EntryFound(lines: seq<string>, h: nat, at: nat, table: Test, header: Test, wanted: Test) returns (n: nat)
    requires First(lines, table, 0) == h < |lines| && h <= at <= First(lines, header, h + 1)
    requires First(lines, wanted, h) >= at && (at < First(lines, header, h + 1) ==> First(lines, wanted, h) == at)
    ensures n == Entry(lines, table, header, wanted)
    ensures n == if at < First(lines, header, h + 1) then at else |lines|
  {
    n := Entry(lines, table, header, wanted);
  }

  /** Headers and the lines looked for are different lines; the table's header is a header. */
  ghost predicate Apart(table: Test, header: Test, wanted: Test) {
    && (forall line :: header(line) ==> !wanted(line))
    && (forall line :: table(line) ==> header(line))
  }

  lemma EntryIs(lines: seq<string>, h: nat, n: nat, table: Test, header: Test, wanted: Test)
    requires h < n < |lines| && table(lines[h]) && forall i | 0 <= i < h :: !table(lines[i])
    requires forall i | h < i <= n :: !header(lines[i])
    requires wanted(lines[n]) && forall i | h <= i < n :: !wanted(lines[i])
    ensures First(lines, table, 0) == h && Entry(lines, table, header, wanted) == n
  {
    FirstIs(lines, table, 0, h);
    FirstIs(lines, wanted, h, n);
    FirstMeans(lines, header, h + 1);
  }

  lemma EntryMeans(lines: seq<string>, table: Test, header: Test, wanted: Test) returns (h: nat, n: nat)
    requires Apart(table, header, wanted) && Entry(lines, table, header, wanted) < |lines|
    ensures h == First(lines, table, 0) && n == Entry(lines, table, header, wanted)
    ensures h < n < |lines| && table(lines[h]) && forall i | 0 <= i < h :: !table(lines[i])
    ensures forall i | h < i <= n :: !header(lines[i])
    ensures wanted(lines[n]) && forall i | h <= i < n :: !wanted(lines[i])
  {
    h, n := First(lines, table, 0), Entry(lines, table, header, wanted);
    FirstMeans(lines, table, 0);
    FirstMeans(lines, header, h + 1);
    FirstMeans(lines, wanted, h);
    assert header(lines[h]);
  }

  /** A line that would be the entry, where there is none, stands behind the next header. */
  lemma HeaderBetween(lines: seq<string>, h: nat, i: nat, table: Test, header: Test, wanted: Test) returns (j: nat)
    requires Apart(table, header, wanted) && First(lines, table, 0) == h < i < |lines| && wanted(lines[i])
    requires Entry(lines, table, header, wanted) == |lines|
    ensures h < j < i && header(lines[j])
  {
    FirstMeans(lines, header, h + 1);
    FirstMeans(lines, wanted, h);
    j := First(lines, header, h + 1);
  }

  lemma EntryReplaced(lines: seq<string>, n: nat, line: string, table: Test, header: Test, wanted: Test)
    requires Apart(table, header, wanted) && n == Entry(lines, table, header, wanted) < |lines| && wanted(line)
    ensures Entry(lines[n := line], table, header, wanted) == n
  {
    var h, _ := EntryMeans(lines, table, header, wanted);
    EntryIs(lines[n := line], h, n, table, header, wanted);
  }

  // ----- putting lines in -----

  function WithLine(lines: seq<string>, h: nat, line: string): seq<string>
    requires h < |lines|
  {
    lines[..h + 1] + [line] + lines[h + 1..]
  }

  function WithTable(front: seq<string>, title: string, line: string, blank: string, back: seq<string>): seq<string> {
    front + [title, line, blank] + back
  }

  lemma LineUnder(lines: seq<string>, h: nat, line: string)
    requires h < |lines|
    ensures var once := WithLine(lines, h, line);
      h + 1 < |once| && once[h + 1] == line && forall i | 0 <= i <= h :: once[i] == lines[i]
  {
  }

  lemma EntryInserted(lines: seq<string>, h: nat, line: string, table: Test, header: Test, wanted: Test)
    requires Apart(table, header, wanted) && First(lines, table, 0) == h < |lines| && wanted(line)
    ensures Entry(WithLine(lines, h, line), table, header, wanted) == h + 1
  {
    var once := WithLine(lines, h, line);
    FirstMeans(lines, table, 0);
    LineUnder(lines, h, line);
    EntryIs(once, h, h + 1, table, header, wanted);
  }

  lemma EntryAdded(
    front: seq<string>, title: string, line: string, blank: string, back: seq<string>,
    table: Test, header: Test, wanted: Test)
    requires Apart(table, header, wanted) && (forall i | 0 <= i < |front| :: !table(front[i]))
    requires table(title) && wanted(line)
    ensures Entry(WithTable(front, title, line, blank, back), table, header, wanted) == |front| + 1
  {
    var once := WithTable(front, title, line, blank, back);
    assert forall i | 0 <= i < |front| :: once[i] == front[i];
    assert once[|front|] == title && once[|front| + 1] == line;
    EntryIs(once, |front|, |front| + 1, table, header, wanted);
  }

  lemma LinedWithLine(lines: seq<string>, h: nat, line: string)
    requires h < |lines| && Lined(lines) && Ended(lines[h]) && IsLine(line) && Ended(line)
    ensures Lined(WithLine(lines, h, line))
  {
    var once := WithLine(lines, h, line);
    assert forall i | 0 <= i <= h :: once[i] == lines[i];
    assert forall i | h + 1 < i < |once| :: once[i] == lines[i - 1];
  }

  lemma LinedWithTable(front: seq<string>, title: string, line: string, blank: string, back: seq<string>)
    requires Lined(front) && (front != [] ==> Ended(front[|front| - 1])) && Lined(back)
    requires IsLine(title) && Ended(title) && IsLine(line) && Ended(line) && IsLine(blank) && Ended(blank)
    ensures Lined(WithTable(front, title, line, blank, back))
  {
    var once, n := WithTable(front, title, line, blank, back), |front|;
    assert once[n] == title && once[n + 1] == line && once[n + 2] == blank;
    assert forall i | 0 <= i < n :: once[i] == front[i];
    assert forall i | n + 2 < i < |once| :: once[i] == back[i - n - 3];
  }

  lemma LineSwapped(lines: seq<string>, h: nat, first: string, second: string)
    requires h < |lines|
    ensures WithLine(lines, h, first)[h + 1] == first
    ensures WithLine(lines, h, first)[h + 1 := second] == WithLine(lines, h, second)
  {
  }

  lemma TableSwapped(front: seq<string>, title: string, first: string, second: string, blank: string, back: seq<string>)
    ensures WithTable(front, title, first, blank, back)[|front| + 1] == first
    ensures WithTable(front, title, first, blank, back)[|front| + 1 := second]
         == WithTable(front, title, second, blank, back)
  {
  }

  // ----- headers, and the offsets they stand at -----

  function Offset(lines: seq<string>, n: nat): nat
    requires n <= |lines|
  {
    |Concat(lines[..n])|
  }

  lemma OffsetStep(lines: seq<string>, n: nat)
    requires n < |lines|
    ensures Offset(lines, n + 1) == Offset(lines, n) + |lines[n]|
  {
    assert lines[..n + 1] == lines[..n] + [lines[n]];
    ConcatAppends(lines[..n], [lines[n]]);
    ConcatOne(lines[n]);
  }

  lemma WholeText(lines: seq<string>)
    ensures Offset(lines, |lines|) == |Concat(lines)|
  {
    assert lines[..|lines|] == lines;
  }

  datatype Header = Header(offset: nat, title: string)

  /** Each header line from here on: where it begins, and what it is called. */
  function Headers(lines: seq<string>, from: nat, header: Test, title: string -> string): seq<Header>
    requires from <= |lines|
    decreases |lines| - from
  {
    if from == |lines| then []
    else if header(lines[from]) then
      [Header(Offset(lines, from), title(lines[from]))] + Headers(lines, from + 1, header, title)
    else Headers(lines, from + 1, header, title)
  }

  /** A line's headers, found by walking the lines with a running offset. */
  method CollectHeaders(text: string, header: Test, title: string -> string) returns (headers: seq<Header>)
    ensures headers == Headers(Lines(text), 0, header, title)
  {
    var lines := Lines(text);
    var offset := 0;
    headers := [];
    for i := 0 to |lines|
      invariant offset == Offset(lines, i)
      invariant headers + Headers(lines, i, header, title) == Headers(lines, 0, header, title)
    {
      if header(lines[i]) {
        ghost var rest := Headers(lines, i + 1, header, title);
        var found := Header(offset, title(lines[i]));
        assert headers + ([found] + rest) == headers + [found] + rest;
        headers := headers + [found];
      }
      OffsetStep(lines, i);
      offset := offset + |lines[i]|;
    }
  }

  lemma {:induction false} HeadersSkip(lines: seq<string>, from: nat, header: Test, title: string -> string)
    requires from <= |lines|
    ensures var n, headers := First(lines, header, from), Headers(lines, from, header, title);
      && (headers == [] <==> n == |lines|)
      && (n < |lines| ==> headers[0] == Header(Offset(lines, n), title(lines[n]))
                          && headers[1..] == Headers(lines, n + 1, header, title))
    decreases |lines| - from
  {
    if from < |lines| && !header(lines[from]) {
      HeadersSkip(lines, from + 1, header, title);
    }
  }

  /** The first header line with this title. */
  function Titled(lines: seq<string>, wanted: string, header: Test, title: string -> string, from: nat): (n: nat)
    requires from <= |lines|
    ensures from <= n <= |lines|
    decreases |lines| - from
  {
    if from == |lines| || (header(lines[from]) && title(lines[from]) == wanted) then from
    else Titled(lines, wanted, header, title, from + 1)
  }

  lemma {:induction false} TitledIsFirst(
    lines: seq<string>, wanted: string, header: Test, title: string -> string, table: Test, from: nat)
    requires from <= |lines|
    requires forall i | 0 <= i < |lines| :: table(lines[i]) <==> header(lines[i]) && title(lines[i]) == wanted
    ensures Titled(lines, wanted, header, title, from) == First(lines, table, from)
    decreases |lines| - from
  {
    if from < |lines| && !table(lines[from]) {
      TitledIsFirst(lines, wanted, header, title, table, from + 1);
    }
  }

  lemma {:induction false} TitledSkips(
    lines: seq<string>, wanted: string, header: Test, title: string -> string, from: nat)
    requires from <= |lines|
    ensures Titled(lines, wanted, header, title, from)
       == Titled(lines, wanted, header, title, First(lines, header, from))
    decreases |lines| - from
  {
    if from < |lines| && !header(lines[from]) {
      TitledSkips(lines, wanted, header, title, from + 1);
    }
  }

  lemma AtHeader(lines: seq<string>, headers: seq<Header>, k: nat, from: nat, wanted: string, header: Test,
                 title: string -> string)
    returns (n: nat)
    requires from <= |lines| && k <= |headers| && headers[k..] == Headers(lines, from, header, title)
    ensures k == |headers| ==> Titled(lines, wanted, header, title, from) == |lines|
    ensures k < |headers| ==>
      && n < |lines| && headers[k].offset == Offset(lines, n)
      && headers[k + 1..] == Headers(lines, n + 1, header, title)
      && Titled(lines, wanted, header, title, from)
         == if headers[k].title == wanted then n else Titled(lines, wanted, header, title, n + 1)
  {
    n := First(lines, header, from);
    HeadersSkip(lines, from, header, title);
    TitledSkips(lines, wanted, header, title, from);
    FirstMeans(lines, header, from);
    if k < |headers| {
      assert headers[k] == headers[k..][0] && headers[k..][1..] == headers[k + 1..];
    }
  }

  /** The next header, or the end of the text, is where the table before it ends. */
  lemma HeaderAfter(lines: seq<string>, headers: seq<Header>, k: nat, from: nat, header: Test, title: string -> string)
    requires from <= |lines| && k <= |headers| && headers[k..] == Headers(lines, from, header, title)
    ensures (if k < |headers| then headers[k].offset else |Concat(lines)|) == Offset(lines, First(lines, header, from))
  {
    HeadersSkip(lines, from, header, title);
    WholeText(lines);
    assert k < |headers| ==> headers[k] == headers[k..][0];
  }

  /** The first of the headers with this title: where its table begins, and where the next one does. */
  method FindTable(ghost lines: seq<string>, text: string, headers: seq<Header>, wanted: string,
                   ghost header: Test, ghost title: string -> string)
    returns (found: bool, start: nat, end: nat)
    requires text == Concat(lines) && headers == Headers(lines, 0, header, title)
    ensures var h := Titled(lines, wanted, header, title, 0);
      && (found <==> h < |lines|) && start == Offset(lines, h)
      && (found ==> end == Offset(lines, First(lines, header, h + 1)))
  {
    ghost var from: nat := 0;
    var k := 0;
    while k < |headers| && headers[k].title != wanted
      invariant k <= |headers| && from <= |lines| && headers[k..] == Headers(lines, from, header, title)
      invariant Titled(lines, wanted, header, title, 0) == Titled(lines, wanted, header, title, from)
    {
      ghost var n := AtHeader(lines, headers, k, from, wanted, header, title);
      k, from := k + 1, n + 1;
    }
    ghost var h := AtHeader(lines, headers, k, from, wanted, header, title);
    WholeText(lines);
    if k == |headers| {
      return false, |text|, |text|;
    }
    HeaderAfter(lines, headers, k + 1, h + 1, header, title);
    return true, headers[k].offset, if k + 1 < |headers| then headers[k + 1].offset else |text|;
  }

  /** `section` is the lines of a table, from its header up to the next. */
  ghost predicate SectionAt(lines: seq<string>, h: nat, end: nat, section: seq<string>) {
    h + |section| == end <= |lines| && forall i | 0 <= i < |section| :: section[i] == lines[h + i]
  }

  /** Which line of a table, if any, is the one looked for, and where it begins. */
  method FindInTable(ghost lines: seq<string>, ghost h: nat, ghost last: nat, section: seq<string>, start: nat,
                     ghost table: Test, ghost header: Test, wanted: Test)
    returns (i: nat, lineStart: nat)
    requires First(lines, table, 0) == h < |lines| && last == First(lines, header, h + 1)
    requires SectionAt(lines, h, last, section) && start == Offset(lines, h)
    ensures i <= |section|
    ensures var n := Entry(lines, table, header, wanted);
      if i < |section| then n == h + i < |lines| && section[i] == lines[n] && lineStart == Offset(lines, n)
      else n == |lines|
  {
    i, lineStart := 0, start;
    while i < |section| && !wanted(section[i])
      invariant i <= |section| && lineStart == Offset(lines, h + i)
      invariant First(lines, wanted, h) == First(lines, wanted, h + i)
    {
      OffsetStep(lines, h + i);
      lineStart, i := lineStart + |section[i]|, i + 1;
    }
    ghost var n := EntryFound(lines, h, h + i, table, header, wanted);
  }
}
