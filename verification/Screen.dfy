/** Rendered terminal screens: rows as runs of equally styled text, and the diffs between them. */
module Screen {
  import opened Base

  datatype Color = Default | Indexed(index: bv8) | Rgb(red: bv8, green: bv8, blue: bv8) {
    function Specified(): Option<Color> { if Default? then None else Some(this) }
  }

  datatype Style = Style(
    foreground: Option<Color>, background: Option<Color>, bold: bool, dim: bool, italic: bool, underline: bool,
    inverse: bool)

  const PLAIN := Style(None, None, false, false, false, false, false)

  datatype Run = Run(text: string, style: Style)

  datatype Cell = Cell(
    contents: string, continuation: bool, foreground: Color, background: Color, bold: bool, dim: bool,
    italic: bool, underline: bool, inverse: bool)
  {
    /** Inverse is resolved by exchanging the colours, unless both are defaults. */
    function Look(): Style {
      Style(
        (if inverse then background else foreground).Specified(),
        (if inverse then foreground else background).Specified(),
        bold, dim, italic, underline, inverse && foreground == Default && background == Default)
    }

    function Text(): (r: string)
      ensures r != ""
    {
      if contents != "" then contents else " "
    }
  }

  // ----- what a row of cells shows, one styled character at a time -----

  type Glyph = (char, Style)

  function Styled(text: string, style: Style): (r: seq<Glyph>)
    ensures |r| == |text|
    ensures forall i | 0 <= i < |r| :: r[i] == (text[i], style)
  {
    if text == "" then [] else Styled(text[..|text| - 1], style) + [(text[|text| - 1], style)]
  }

  /** An absent cell or a wide continuation shows nothing. */
  function Glyphs(cell: Option<Cell>): seq<Glyph> {
    if cell.None? || cell.value.continuation then [] else Styled(cell.value.Text(), cell.value.Look())
  }

  /** The glyphs of the first `n` columns. */
  function Shown(cells: seq<Option<Cell>>, n: nat): seq<Glyph>
    requires n <= |cells|
  {
    if n == 0 then [] else Shown(cells, n - 1) + Glyphs(cells[n - 1])
  }

  function Expand(runs: seq<Run>): seq<Glyph> {
    if runs == [] then []
    else Expand(runs[..|runs| - 1]) + Styled(runs[|runs| - 1].text, runs[|runs| - 1].style)
  }

  predicate Blank(g: Glyph) { g.1 == PLAIN && IsWhite(g.0) }

  /** Without the longest suffix of plain whitespace. */
  function Trimmed(glyphs: seq<Glyph>): (r: seq<Glyph>)
    ensures r <= glyphs && forall i | |r| <= i < |glyphs| :: Blank(glyphs[i])
    ensures r != [] ==> !Blank(r[|r| - 1])
  {
    if glyphs == [] || !Blank(glyphs[|glyphs| - 1]) then glyphs else Trimmed(glyphs[..|glyphs| - 1])
  }

  /** No run is empty and no two neighbours could have been one. */
  ghost predicate Canonical(runs: seq<Run>) {
    && (forall i | 0 <= i < |runs| :: runs[i].text != "")
    && forall i | 0 < i < |runs| :: runs[i - 1].style != runs[i].style
  }

  /**
   * A cell is shown in its own colours, or inverted in each other's place; a default colour is none,
   * and only a cell that is inverted without a colour to exchange is still marked as inverted.
   */
  lemma LookMeans(cell: Cell)
    ensures var look, back, front := cell.Look(), cell.background, cell.foreground;
      && (look.foreground.None? <==> (if cell.inverse then back else front) == Default)
      && (look.background.None? <==> (if cell.inverse then front else back) == Default)
      && (look.foreground.Some? ==> look.foreground.value == if cell.inverse then back else front)
      && (look.background.Some? ==> look.background.value == if cell.inverse then front else back)
      && (look.inverse <==> cell.inverse && front == Default && back == Default)
      && (look.bold <==> cell.bold) && (look.dim <==> cell.dim)
      && (look.italic <==> cell.italic) && (look.underline <==> cell.underline)
  {
  }

  /** What each column adds: its text, a space where it has none, and nothing where a wide one goes on. */
  lemma GlyphsMeans(cell: Cell, i: nat)
    ensures |Glyphs(Some(cell))| == if cell.continuation then 0 else if cell.contents == "" then 1 else |cell.contents|
    ensures i < |Glyphs(Some(cell))| ==>
      Glyphs(Some(cell))[i] == (if cell.contents == "" then ' ' else cell.contents[i], cell.Look())
  {
  }

  // ----- rendering a row -----

  lemma {:induction false} StyledJoins(a: string, b: string, style: Style)
    ensures Styled(a + b, style) == Styled(a, style) + Styled(b, style)
  {
    if b == "" {
      assert a + b == a;
    } else {
      var n := |b| - 1;
      StyledJoins(a, b[..n], style);
      assert (a + b)[..|a| + n] == a + b[..n];
    }
  }

  lemma ExpandSnoc(runs: seq<Run>, run: Run)
    ensures Expand(runs + [run]) == Expand(runs) + Styled(run.text, run.style)
  {
    assert (runs + [run])[..|runs|] == runs;
  }

  lemma ExpandGrown(runs: seq<Run>, text: string)
    requires runs != []
    ensures var last := |runs| - 1;
            Expand(runs[last := runs[last].(text := runs[last].text + text)])
            == Expand(runs) + Styled(text, runs[last].style)
  {
    var last := |runs| - 1;
    StyledJoins(runs[last].text, text, runs[last].style);
    assert runs[last := runs[last].(text := runs[last].text + text)][..last] == runs[..last];
  }

  lemma {:induction false} BlanksTrim(glyphs: seq<Glyph>, n: nat)
    requires n <= |glyphs| && forall i | n <= i < |glyphs| :: Blank(glyphs[i])
    ensures Trimmed(glyphs) == Trimmed(glyphs[..n])
  {
    if n == |glyphs| {
      assert glyphs[..n] == glyphs;
    } else {
      var front := glyphs[..|glyphs| - 1];
      assert front[..n] == glyphs[..n];
      BlanksTrim(front, n);
    }
  }

  lemma BlankTextTrims(front: seq<Glyph>, text: string)
    ensures Trimmed(front + Styled(text, PLAIN))
         == if TrimEnd(text) == "" then Trimmed(front) else front + Styled(TrimEnd(text), PLAIN)
  {
    var all, kept := front + Styled(text, PLAIN), front + Styled(TrimEnd(text), PLAIN);
    var n := |kept|;
    assert all[..n] == kept;
    forall i | n <= i < |all|
      ensures Blank(all[i])
    {
      assert all[i] == (text[i - |front|], PLAIN);
    }
    BlanksTrim(all, n);
    if TrimEnd(text) == "" {
      assert kept == front;
    } else {
      assert kept[n - 1] == (text[n - 1 - |front|], PLAIN);
    }
  }

  lemma StyledStays(front: seq<Glyph>, run: Run)
    requires run.text != "" && run.style != PLAIN
    ensures Trimmed(front + Styled(run.text, run.style)) == front + Styled(run.text, run.style)
  {
  }

  /** Append one cell's text, to the last run when the style is the same. */
  method Draw(runs0: seq<Run>, text: string, style: Style) returns (runs: seq<Run>)
    requires Canonical(runs0) && text != ""
    ensures Canonical(runs) && Expand(runs) == Expand(runs0) + Styled(text, style)
  {
    if runs0 != [] && runs0[|runs0| - 1].style == style {
      ExpandGrown(runs0, text);
      runs := runs0[|runs0| - 1 := runs0[|runs0| - 1].(text := runs0[|runs0| - 1].text + text)];
    } else {
      ExpandSnoc(runs0, Run(text, style));
      runs := runs0 + [Run(text, style)];
    }
  }

  lemma CanonicalFront(runs: seq<Run>)
    requires Canonical(runs) && runs != []
    ensures Canonical(runs[..|runs| - 1])
  {
  }

  /** Drop the trailing blanks: whole runs of them, then the end of a plain run. */
  method Trim(runs0: seq<Run>) returns (runs: seq<Run>)
    requires Canonical(runs0)
    ensures Canonical(runs) && Expand(runs) == Trimmed(Expand(runs0))
  {
    runs := runs0;
    while runs != [] && runs[|runs| - 1].style == PLAIN && TrimEnd(runs[|runs| - 1].text) == ""
      invariant Canonical(runs) && Trimmed(Expand(runs)) == Trimmed(Expand(runs0))
    {
      BlankTextTrims(Expand(runs[..|runs| - 1]), runs[|runs| - 1].text);
      CanonicalFront(runs);
      runs := runs[..|runs| - 1];
    }
    if runs != [] && runs[|runs| - 1].style == PLAIN {
      runs := TrimLast(runs);
    } else if runs != [] {
      StyledStays(Expand(runs[..|runs| - 1]), runs[|runs| - 1]);
    }
  }

  /** Cuts a last plain run, not all of it blank, after its last visible character. */
  method TrimLast(runs0: seq<Run>) returns (runs: seq<Run>)
    requires Canonical(runs0) && runs0 != []
    requires runs0[|runs0| - 1].style == PLAIN && TrimEnd(runs0[|runs0| - 1].text) != ""
    ensures Canonical(runs) && Expand(runs) == Trimmed(Expand(runs0))
  {
    var front, last := runs0[..|runs0| - 1], runs0[|runs0| - 1];
    BlankTextTrims(Expand(front), last.text);
    ExpandSnoc(front, Run(TrimEnd(last.text), PLAIN));
    runs := front + [Run(TrimEnd(last.text), PLAIN)];
  }

  /** Append what one cell shows, if it shows anything. */
  method DrawCell(runs0: seq<Run>, cell: Option<Cell>) returns (runs: seq<Run>)
    requires Canonical(runs0)
    ensures Canonical(runs) && Expand(runs) == Expand(runs0) + Glyphs(cell)
  {
    runs := runs0;
    if cell.Some? && !cell.value.continuation {
      runs := Draw(runs0, cell.value.Text(), cell.value.Look());
    } else {
      assert Expand(runs0) + [] == Expand(runs0);
    }
  }

  /**
   * One row of the screen. Its runs are canonical, and expanding them gives exactly what the
   * cells show, without the blanks at the end.
   */
  method RenderRow(cells: seq<Option<Cell>>) returns (runs: seq<Run>)
    ensures Expand(runs) == Trimmed(Shown(cells, |cells|))
    ensures Canonical(runs)
  {
    runs := [];
    for column := 0 to |cells|
      invariant Expand(runs) == Shown(cells, column) && Canonical(runs)
    {
      runs := DrawCell(runs, cells[column]);
    }
    runs := Trim(runs);
  }

  // ----- a canonical row is determined by what it shows -----

  lemma {:induction false} Ends(runs: seq<Run>)
    requires Canonical(runs) && runs != []
    ensures var m := |runs| - 1;
            var front, glyphs := Expand(runs[..m]), Expand(runs);
      && front < glyphs && glyphs[|front|..] == Styled(runs[m].text, runs[m].style)
      && (forall i | |front| <= i < |glyphs| :: glyphs[i].1 == runs[m].style)
      && (front == [] <==> m == 0)
      && (front != [] ==> glyphs[|front| - 1].1 != runs[m].style)
  {
    var m, last := |runs| - 1, runs[|runs| - 1];
    var front, tail := Expand(runs[..m]), Styled(last.text, last.style);
    CanonicalLast(runs);
    if m > 0 {
      Ends(runs[..m]);
      LastStyle(runs[..m]);
    }
    AppendParts(front, tail, last.style);
  }

  lemma CanonicalLast(runs: seq<Run>)
    requires Canonical(runs) && runs != []
    ensures runs[|runs| - 1].text != "" && Canonical(runs[..|runs| - 1])
    ensures |runs| > 1 ==> runs[|runs| - 2].style != runs[|runs| - 1].style
  {
  }

  lemma LastStyle(runs: seq<Run>)
    requires runs != []
    requires var m := |runs| - 1; var front, glyphs := Expand(runs[..m]), Expand(runs);
      front < glyphs && forall i | |front| <= i < |glyphs| :: glyphs[i].1 == runs[m].style
    ensures Expand(runs) != [] && Expand(runs)[|Expand(runs)| - 1].1 == runs[|runs| - 1].style
  {
  }

  lemma AppendParts(front: seq<Glyph>, tail: seq<Glyph>, style: Style)
    requires tail != [] && forall i | 0 <= i < |tail| :: tail[i].1 == style
    ensures front < front + tail && (front + tail)[|front|..] == tail
    ensures forall i | |front| <= i < |front + tail| :: (front + tail)[i].1 == style
    ensures front != [] ==> (front + tail)[|front| - 1] == front[|front| - 1]
  {
  }

  lemma {:induction false} StyledText(a: string, b: string, style: Style)
    requires Styled(a, style) == Styled(b, style)
    ensures a == b
  {
    forall i | 0 <= i < |a| ensures a[i] == b[i] {
      assert Styled(a, style)[i] == (a[i], style);
    }
  }

  lemma {:induction false} SameCut(a: seq<Run>, b: seq<Run>)
    requires Canonical(a) && Canonical(b) && Expand(a) == Expand(b) && a != [] && b != []
    ensures var m, n := |a| - 1, |b| - 1;
            a[m].style == b[n].style && |Expand(a[..m])| == |Expand(b[..n])|
  {
    Ends(a);
    Ends(b);
    var glyphs := Expand(a);
    assert glyphs[|glyphs| - 1].1 == a[|a| - 1].style && glyphs[|glyphs| - 1].1 == b[|b| - 1].style;
  }

  lemma {:induction false} ShowsSomething(runs: seq<Run>)
    requires Canonical(runs)
    ensures runs == [] <==> Expand(runs) == []
  {
    if runs != [] {
      Ends(runs);
    }
  }

  lemma {:induction false} LastsSame(a: seq<Run>, b: seq<Run>)
    requires Canonical(a) && Canonical(b) && Expand(a) == Expand(b) && a != [] && b != []
    ensures a[|a| - 1] == b[|b| - 1] && Expand(a[..|a| - 1]) == Expand(b[..|b| - 1])
    ensures Canonical(a[..|a| - 1]) && Canonical(b[..|b| - 1])
  {
    var m, n := |a| - 1, |b| - 1;
    Ends(a);
    Ends(b);
    SameCut(a, b);
    var cut := |Expand(a[..m])|;
    assert Expand(a[..m]) == Expand(a)[..cut] && Expand(b[..n]) == Expand(b)[..cut];
    StyledText(a[m].text, b[n].text, a[m].style);
  }

  /** Two canonical rows that show the same glyphs are the same runs. */
  lemma {:induction false} CanonicalUnique(a: seq<Run>, b: seq<Run>)
    requires Canonical(a) && Canonical(b) && Expand(a) == Expand(b)
    ensures a == b
  {
    if a == [] || b == [] {
      ShowsSomething(a);
      ShowsSomething(b);
    } else {
      LastsSame(a, b);
      CanonicalUnique(a[..|a| - 1], b[..|b| - 1]);
      assert a == a[..|a| - 1] + [a[|a| - 1]] && b == b[..|b| - 1] + [b[|b| - 1]];
    }
  }

  // ----- snapshots and diffs -----

  datatype Cursor = Cursor(row: nat, column: nat)

  datatype Snapshot = Snapshot(sequence: nat, width: nat, height: nat, rows: seq<seq<Run>>, cursor: Option<Cursor>) {
    /** One list of runs for each of the screen's rows, which a `u16` can number. */
    ghost predicate Whole() { |rows| == height <= 0xFFFF }
  }

  datatype RowUpdate = RowUpdate(row: nat, runs: seq<Run>)

  datatype Diff = Diff(follows: nat, sequence: nat, rows: seq<RowUpdate>, cursor: Option<Cursor>)

  datatype StaleScreen = StaleScreen(held: nat, expected: nat)

  /** The rows below `n` that differ between two screens of one size. */
  function Differing(current: seq<seq<Run>>, earlier: seq<seq<Run>>, n: nat): (r: seq<nat>)
    requires n <= |current| && n <= |earlier|
    ensures forall row :: row in r <==> 0 <= row < n && current[row] != earlier[row]
    ensures forall i | 0 <= i < |r| :: r[i] < n
  {
    if n == 0 then []
    else Differing(current, earlier, n - 1) + if current[n - 1] != earlier[n - 1] then [n - 1] else []
  }

  function Below(n: nat): (r: seq<nat>)
    ensures forall row :: row in r <==> 0 <= row < n
    ensures forall i | 0 <= i < |r| :: r[i] < n
  {
    if n == 0 then [] else Below(n - 1) + [n - 1]
  }

  function ChangedRows(current: Snapshot, previous: Snapshot): seq<nat> {
    if current.width != previous.width || current.height != previous.height then Below(current.height)
    else Differing(current.rows, previous.rows,
      if |current.rows| < |previous.rows| then |current.rows| else |previous.rows|)
  }

  function Updates(rows: seq<nat>, current: seq<seq<Run>>): (r: seq<RowUpdate>)
    requires forall i | 0 <= i < |rows| :: rows[i] < |current|
    ensures |r| == |rows| && forall i | 0 <= i < |r| :: r[i] == RowUpdate(rows[i], current[rows[i]])
  {
    if rows == [] then [] else [RowUpdate(rows[0], current[rows[0]])] + Updates(rows[1..], current)
  }

  /** The rows that differ, as they are in `current`; there is no diff between screens of two sizes. */
  function Between(previous: Snapshot, current: Snapshot): Option<Diff> {
    if previous.width != current.width || previous.height != current.height then None
    else Some(Diff(previous.sequence, current.sequence,
              Updates(ChangedRows(current, previous), current.rows), current.cursor))
  }

  /** The rows after the first `n` updates, each of which names a row that exists. */
  function Overwritten(rows: seq<seq<Run>>, updates: seq<RowUpdate>, n: nat): (r: seq<seq<Run>>)
    requires n <= |updates| && forall i | 0 <= i < n :: updates[i].row < |rows|
    ensures |r| == |rows|
  {
    if n == 0 then rows else Overwritten(rows, updates, n - 1)[updates[n - 1].row := updates[n - 1].runs]
  }

  /** How many updates land before the first that names a row the screen does not have. */
  function Landing(rows: seq<seq<Run>>, updates: seq<RowUpdate>, from: nat): (n: nat)
    requires from <= |updates| && forall i | 0 <= i < from :: updates[i].row < |rows|
    ensures from <= n <= |updates| && forall i | 0 <= i < n :: updates[i].row < |rows|
    ensures n < |updates| ==> updates[n].row >= |rows|
    decreases |updates| - from
  {
    if from == |updates| || updates[from].row >= |rows| then from else Landing(rows, updates, from + 1)
  }

  /** Applying a diff: what is held afterwards, and whether it was accepted. */
  function Applied(held: Snapshot, diff: Diff): (Snapshot, Result<(), StaleScreen>) {
    var refusal := Err(StaleScreen(held.sequence, diff.follows));
    if diff.follows != held.sequence then (held, refusal)
    else
      var n := Landing(held.rows, diff.rows, 0);
      var rows := Overwritten(held.rows, diff.rows, n);
      if n < |diff.rows| then (held.(rows := rows), refusal)
      else (held.(rows := rows, cursor := diff.cursor, sequence := diff.sequence), Ok(()))
  }

  /** A client's copy of the screen, brought up to date in place. */
  class HeldScreen {
    var sequence: nat
    var rows: seq<seq<Run>>
    var cursor: Option<Cursor>
    const width: nat
    const height: nat

    ghost function View(): Snapshot
      reads this
    {
      Snapshot(sequence, width, height, rows, cursor)
    }

    constructor (of: Snapshot)
      ensures View() == of
    {
      sequence, width, height, rows, cursor := of.sequence, of.width, of.height, of.rows, of.cursor;
    }

    method Apply(diff: Diff) returns (result: Result<(), StaleScreen>)
      modifies this
      ensures (View(), result) == Applied(old(View()), diff)
    {
      if diff.follows != sequence {
        return Err(StaleScreen(sequence, diff.follows));
      }
      ghost var before := rows;
      for i := 0 to |diff.rows|
        invariant forall k | 0 <= k < i :: diff.rows[k].row < |before|
        invariant rows == Overwritten(before, diff.rows, i) && sequence == old(sequence) && cursor == old(cursor)
        invariant Landing(before, diff.rows, 0) == Landing(before, diff.rows, i)
      {
        var update := diff.rows[i];
        if update.row >= |rows| {
          return Err(StaleScreen(sequence, diff.follows));
        }
        rows := rows[update.row := update.runs];
      }
      cursor := diff.cursor;
      sequence := diff.sequence;
      return Ok(());
    }
  }

  // ----- a client never holds a screen nobody published -----

  /** Whether one of the first `n` updates is of row `k`. */
  ghost predicate Touches(updates: seq<RowUpdate>, n: nat, k: nat)
    requires n <= |updates|
  {
    exists i :: 0 <= i < n && updates[i].row == k
  }

  lemma TouchesStep(updates: seq<RowUpdate>, n: nat, k: nat)
    requires 0 < n <= |updates|
    ensures Touches(updates, n, k) <==> Touches(updates, n - 1, k) || updates[n - 1].row == k
  {
  }

  lemma {:induction false} OverwrittenBy(
    rows: seq<seq<Run>>, updates: seq<RowUpdate>, n: nat, current: seq<seq<Run>>, k: nat)
    requires n <= |updates| && |rows| == |current| && k < |rows|
    requires forall i | 0 <= i < |updates| :: updates[i].row < |rows| && updates[i].runs == current[updates[i].row]
    ensures Overwritten(rows, updates, n)[k] == if Touches(updates, n, k) then current[k] else rows[k]
  {
    if n > 0 {
      OverwrittenBy(rows, updates, n - 1, current, k);
      TouchesStep(updates, n, k);
    }
  }

  /** Every row a diff carries is a row of the screen, with what the target shows there. */
  lemma SentRowsLand(previous: Snapshot, current: Snapshot)
    requires previous.Whole() && current.Whole() && Between(previous, current).Some?
    ensures var rows := Between(previous, current).value.rows;
      && |previous.rows| == |current.rows| && Landing(previous.rows, rows, 0) == |rows|
      && forall i | 0 <= i < |rows| :: rows[i].row < |current.rows| && rows[i].runs == current.rows[rows[i].row]
  {
    var rows, changed := Between(previous, current).value.rows, ChangedRows(current, previous);
    assert forall i | 0 <= i < |rows| :: changed[i] in changed;
  }

  lemma ChangedIsSent(previous: Snapshot, current: Snapshot, k: nat)
    requires previous.Whole() && current.Whole() && Between(previous, current).Some?
    requires k < |current.rows| && |previous.rows| == |current.rows| && current.rows[k] != previous.rows[k]
    ensures var rows := Between(previous, current).value.rows; Touches(rows, |rows|, k)
  {
    var changed := ChangedRows(current, previous);
    assert k in changed;
    var i :| 0 <= i < |changed| && changed[i] == k;
    assert Between(previous, current).value.rows[i].row == k;
  }

  lemma RowsReach(previous: Snapshot, current: Snapshot)
    requires previous.Whole() && current.Whole() && Between(previous, current).Some?
    ensures var rows := Between(previous, current).value.rows;
      && (forall i | 0 <= i < |rows| :: rows[i].row < |previous.rows|)
      && Overwritten(previous.rows, rows, |rows|) == current.rows
  {
    var rows := Between(previous, current).value.rows;
    SentRowsLand(previous, current);
    forall k | 0 <= k < |current.rows|
      ensures Overwritten(previous.rows, rows, |rows|)[k] == current.rows[k]
    {
      OverwrittenBy(previous.rows, rows, |rows|, current.rows, k);
      if current.rows[k] != previous.rows[k] {
        ChangedIsSent(previous, current, k);
      }
    }
  }

  lemma {:induction false} DifferingAscends(current: seq<seq<Run>>, earlier: seq<seq<Run>>, n: nat, i: nat, j: nat)
    requires n <= |current| && n <= |earlier| && i < j < |Differing(current, earlier, n)|
    ensures Differing(current, earlier, n)[i] < Differing(current, earlier, n)[j]
  {
    if j < |Differing(current, earlier, n - 1)| {
      DifferingAscends(current, earlier, n - 1, i, j);
    }
  }

  /** There is a diff exactly between screens of one size, and it carries exactly the rows that differ, each once. */
  lemma BetweenExactly(previous: Snapshot, current: Snapshot)
    requires previous.Whole() && current.Whole()
    ensures Between(previous, current).Some? <==> previous.width == current.width && previous.height == current.height
    ensures Between(previous, current).Some? ==>
      var diff := Between(previous, current).value;
      && diff.follows == previous.sequence && diff.sequence == current.sequence && diff.cursor == current.cursor
      && (forall k | 0 <= k < |current.rows| ::
            (exists i :: 0 <= i < |diff.rows| && diff.rows[i].row == k) <==> current.rows[k] != previous.rows[k])
      && (forall i, j | 0 <= i < j < |diff.rows| :: diff.rows[i].row < diff.rows[j].row)
  {
    if Between(previous, current).Some? {
      var rows, changed := Between(previous, current).value.rows, ChangedRows(current, previous);
      assert forall i | 0 <= i < |rows| :: rows[i].row == changed[i] && changed[i] in changed;
      forall i, j | 0 <= i < j < |rows| ensures rows[i].row < rows[j].row {
        DifferingAscends(current.rows, previous.rows, |current.rows|, i, j);
      }
      forall k | 0 <= k < |current.rows| && current.rows[k] != previous.rows[k]
        ensures exists i :: 0 <= i < |rows| && rows[i].row == k
      {
        ChangedIsSent(previous, current, k);
      }
    }
  }

  /** Across a resize every row counts as changed. */
  lemma ResizeChangesAll(previous: Snapshot, current: Snapshot, row: nat)
    requires previous.width != current.width || previous.height != current.height
    ensures row in ChangedRows(current, previous) <==> row < current.height
  {
  }

  /** A diff that names a row the screen lacks is refused, and leaves the rows it came to before that overwritten. */
  lemma MalformedIsRefused(held: Snapshot, diff: Diff, n: nat)
    requires diff.follows == held.sequence && n < |diff.rows| && diff.rows[n].row >= |held.rows|
    requires forall i | 0 <= i < n :: diff.rows[i].row < |held.rows|
    ensures Applied(held, diff)
         == (held.(rows := Overwritten(held.rows, diff.rows, n)), Err(StaleScreen(held.sequence, diff.follows)))
  {
    LandingIs(held.rows, diff.rows, 0, n);
  }

  lemma {:induction false} LandingIs(rows: seq<seq<Run>>, updates: seq<RowUpdate>, from: nat, n: nat)
    requires from <= n < |updates| && updates[n].row >= |rows|
    requires forall i | 0 <= i < n :: updates[i].row < |rows|
    ensures Landing(rows, updates, from) == n
    decreases n - from
  {
    if from < n {
      LandingIs(rows, updates, from + 1, n);
    }
  }

  /** A diff takes a holder of exactly its base to exactly its target. */
  lemma BetweenReaches(previous: Snapshot, current: Snapshot)
    requires previous.Whole() && current.Whole() && Between(previous, current).Some?
    ensures Applied(previous, Between(previous, current).value) == (current, Ok(()))
  {
    SentRowsLand(previous, current);
    RowsReach(previous, current);
  }

  /** Published screens: whole, and no two under one sequence number. */
  ghost predicate Published(screens: seq<Snapshot>) {
    && (forall i | 0 <= i < |screens| :: screens[i].Whole())
    && forall i, j | 0 <= i < j < |screens| :: screens[i].sequence != screens[j].sequence
  }

  /** A diff some publisher could have sent: computed between two published screens. */
  ghost predicate Sendable(screens: seq<Snapshot>, diff: Diff) {
    exists i, j :: 0 <= i < |screens| && 0 <= j < |screens| && Between(screens[i], screens[j]) == Some(diff)
  }

  function AppliedAll(held: Snapshot, diffs: seq<Diff>): Snapshot {
    if diffs == [] then held else Applied(AppliedAll(held, diffs[..|diffs| - 1]), diffs[|diffs| - 1]).0
  }

  /** One delivery, whichever it is: accepted, it gives exactly its target; refused, it changes nothing. */
  lemma DeliveryIsExact(screens: seq<Snapshot>, held: Snapshot, diff: Diff)
    requires Published(screens) && held in screens && Sendable(screens, diff)
    ensures var (after, result) := Applied(held, diff);
      && after in screens
      && (result.Ok? <==> diff.follows == held.sequence)
      && (result.Ok? ==> after.sequence == diff.sequence && Between(held, after) == Some(diff))
      && (result.Err? ==> after == held)
  {
    var i, j :| 0 <= i < |screens| && 0 <= j < |screens| && Between(screens[i], screens[j]) == Some(diff);
    if diff.follows == held.sequence {
      var k :| 0 <= k < |screens| && screens[k] == held;
      assert k == i;
      BetweenReaches(held, screens[j]);
    }
  }

  /**
   * However diffs between published screens are dropped, repeated or reordered on the way, the
   * client holds exactly one of the published screens after every delivery.
   */
  lemma {:induction false} HoldsOnlyPublished(screens: seq<Snapshot>, held: Snapshot, diffs: seq<Diff>)
    requires Published(screens) && held in screens
    requires forall i | 0 <= i < |diffs| :: Sendable(screens, diffs[i])
    ensures AppliedAll(held, diffs) in screens
  {
    if diffs != [] {
      HoldsOnlyPublished(screens, held, diffs[..|diffs| - 1]);
      DeliveryIsExact(screens, AppliedAll(held, diffs[..|diffs| - 1]), diffs[|diffs| - 1]);
    }
  }
}
