/** Where the flag is written and what is written there, in the words of the text itself. */
module TomlPlace {
  import opened Base
  import opened Tables
  import opened TextLines
  import opened Toml
  import opened TomlEdit
  import opened TomlLaws

  // ----- lines, in their own words -----

  /** The first line that trims to this title. */
  ghost predicate FirstTitled(lines: seq<string>, h: nat, title: string) {
    h < |lines| && Trim(lines[h]) == title && forall i | 0 <= i < h :: Trim(lines[i]) != title
  }

  ghost predicate Untitled(lines: seq<string>, title: string) {
    forall i | 0 <= i < |lines| :: Trim(lines[i]) != title
  }

  /** Trimmed, it stands in brackets. */
  ghost predicate Bracketed(line: string) {
    exists inner: string :: Trim(line) == "[" + inner + "]"
  }

  /** Trimmed, what stands before its first equals sign is the word `enabled`. */
  ghost predicate Assigns(line: string) {
    var e := IndexOf(line, '=', 0); e < |line| && Trim(line[..e]) == "enabled"
  }

  lemma HeaderMeans(line: string)
    ensures IsHeader(line) <==> Bracketed(line)
  {
    var trimmed := Trim(line);
    if IsHeader(line) {
      assert trimmed[0] != trimmed[|trimmed| - 1];
      assert trimmed == "[" + trimmed[1..|trimmed| - 1] + "]";
    }
    if inner: string :| trimmed == "[" + inner + "]" {
      assert trimmed[0] == '[' && trimmed[|trimmed| - 1] == ']';
    }
  }

  lemma AssignsMeans(line: string)
    ensures SetsEnabled(line) <==> Assigns(line)
  {
    if SetsEnabled(line) {
      SetsEnabledHasEquals(line);
    }
    if Equals(line) < |line| {
      KeyIsBeforeEquals(line);
    }
  }

  // ----- where the flag is -----

  /** Line `n` is the first of the table under line `h` that assigns the flag. */
  ghost predicate FirstAssigning(lines: seq<string>, h: nat, n: nat) {
    && h < n < |lines| && Assigns(lines[n])
    && (forall i | h < i <= n :: !Bracketed(lines[i]))
    && forall i | h < i < n :: !Assigns(lines[i])
  }

  /** No line of the table under line `h` does. */
  ghost predicate NoneAssigning(lines: seq<string>, h: nat) {
    forall i | h < i < |lines| && Assigns(lines[i]) :: exists j :: h < j < i && Bracketed(lines[j])
  }

  lemma TitledIs(lines: seq<string>, h: nat)
    requires FirstTitled(lines, h, "[notifications]")
    ensures First(lines, IsNotifications, 0) == h
  {
    FirstIs(lines, IsNotifications, 0, h);
  }

  lemma HeaderAssignsNothing(line: string)
    requires Trim(line) == "[notifications]"
    ensures !SetsEnabled(line)
  {
    if SetsEnabled(line) {
      AssignmentIsNoHeader(line);
    }
  }

  /** The same, in the editor's own tests. */
  lemma AssigningTests(lines: seq<string>, h: nat, n: nat)
    requires FirstTitled(lines, h, "[notifications]") && FirstAssigning(lines, h, n)
    ensures forall i | h < i <= n :: !IsHeader(lines[i])
    ensures SetsEnabled(lines[n]) && forall i | h <= i < n :: !SetsEnabled(lines[i])
  {
    HeaderAssignsNothing(lines[h]);
    forall i | h < i <= n ensures !IsHeader(lines[i]) && (SetsEnabled(lines[i]) <==> i == n) {
      HeaderMeans(lines[i]);
      AssignsMeans(lines[i]);
    }
  }

  lemma AssigningIs(lines: seq<string>, h: nat, n: nat)
    requires FirstTitled(lines, h, "[notifications]") && FirstAssigning(lines, h, n)
    ensures EnabledLine(lines) == n
  {
    AssigningTests(lines, h, n);
    EntryIs(lines, h, n, IsNotifications, IsHeader, SetsEnabled);
  }

  lemma NothingAssigning(lines: seq<string>, h: nat)
    requires FirstTitled(lines, h, "[notifications]") && NoneAssigning(lines, h)
    ensures EnabledLine(lines) == |lines|
  {
    if EnabledLine(lines) < |lines| {
      KindsApart();
      TitledIs(lines, h);
      var at, n := EntryMeans(lines, IsNotifications, IsHeader, SetsEnabled);
      AssignsMeans(lines[n]);
      var j :| h < j < n && Bracketed(lines[j]);
      HeaderMeans(lines[j]);
    }
  }

  // ----- what is written -----

  /** The line that is added for the flag, in letters. */
  lemma AssignmentSpelled(enabled: bool)
    ensures Assignment(enabled) == if enabled then "enabled = true\n" else "enabled = false\n"
  {
  }

  /** And the table. */
  lemma TableSpelled(enabled: bool)
    ensures NOTIFICATIONS + "\n" + Assignment(enabled) + "\n"
         == if enabled then "[notifications]\nenabled = true\n\n" else "[notifications]\nenabled = false\n\n"
  {
    AssignmentSpelled(enabled);
  }

  /** Turned on, it is read back as on, and turned off as off, unless the text is torn. */
  lemma OnIsOn(text: string)
    ensures ReadBack(Set(text, true)) == Some("true") <==> !Torn(Lines(text))
    ensures ReadBack(Set(text, false)) == Some("false") <==> !Torn(Lines(text))
  {
    WriteIsReadExactly(text, true);
    WriteIsReadExactly(text, false);
  }

  /** Where the table assigns the flag, the first line that does is rewritten, and no other line is touched. */
  lemma SetRewrites(text: string, h: nat, n: nat, enabled: bool) returns (line: string, patch: Patch)
    requires FirstTitled(Lines(text), h, "[notifications]") && FirstAssigning(Lines(text), h, n)
    ensures var lines := Lines(text);
      && Set(text, enabled) == Concat(lines[..n]) + line + Concat(lines[n + 1..])
      && OnlyPatched(lines[n], line, patch, enabled) && Assigns(line)
  {
    var lines := Lines(text);
    LinesOfText(text);
    AssigningIs(lines, h, n);
    EditedAt(lines, n, enabled);
    line := Updated(lines[n], Value(enabled));
    patch := LinePatched(lines[n], enabled);
    ValuesArePlain(enabled);
    UpdatedLine(lines[n], Value(enabled));
    AssignsMeans(line);
    Spliced(lines, n, line);
  }

  lemma Spliced(lines: seq<string>, n: nat, line: string)
    requires n < |lines|
    ensures Concat(lines[n := line]) == Concat(lines[..n]) + line + Concat(lines[n + 1..])
  {
    LineSpliced(lines, n, line);
    ConcatAppends(lines[..n] + [line], lines[n + 1..]);
    ConcatAppends(lines[..n], [line]);
    ConcatOne(line);
  }

  /** Where the table is there and does not, a line is added right under its header. */
  lemma SetInserts(text: string, h: nat, enabled: bool)
    requires FirstTitled(Lines(text), h, "[notifications]") && NoneAssigning(Lines(text), h)
    ensures var lines := Lines(text);
      Set(text, enabled)
      == Concat(lines[..h + 1]) + (if enabled then "enabled = true\n" else "enabled = false\n") + Concat(lines[h + 1..])
  {
    var lines := Lines(text);
    TitledIs(lines, h);
    NothingAssigning(lines, h);
    Inserted(lines, h, Assignment(enabled));
    AssignmentSpelled(enabled);
  }

  lemma Inserted(lines: seq<string>, h: nat, line: string)
    requires h < |lines|
    ensures Concat(WithLine(lines, h, line)) == Concat(lines[..h + 1]) + line + Concat(lines[h + 1..])
  {
    ConcatAppends(lines[..h + 1] + [line], lines[h + 1..]);
    ConcatAppends(lines[..h + 1], [line]);
    ConcatOne(line);
  }

  /** Where there is no such table, one is added before the first target, or at the end where there is none. */
  lemma SetAdds(text: string, i: nat, enabled: bool)
    requires Untitled(Lines(text), "[notifications]") && i <= |Lines(text)|
    requires if i < |Lines(text)| then FirstTitled(Lines(text), i, "[[targets]]")
             else Untitled(Lines(text), "[[targets]]")
    ensures var front, back := Concat(Lines(text)[..i]), Concat(Lines(text)[i..]);
      Set(text, enabled)
      == (if front == "" || front[|front| - 1] == '\n' then front else front + "\n")
         + (if enabled then "[notifications]\nenabled = true\n\n" else "[notifications]\nenabled = false\n\n")
         + back
  {
    var lines := Lines(text);
    LinesOfText(text);
    FirstIs(lines, IsNotifications, 0, |lines|);
    FirstIs(lines, IsTargets, 0, i);
    ConcatSlices(lines, i, i);
    TextWithTable(lines, enabled);
    TableSpelled(enabled);
  }

  lemma EntryIsFirst(lines: seq<string>, h: nat, n: nat)
    requires FirstTitled(lines, h, "[notifications]") && EnabledLine(lines) == n < |lines|
    ensures FirstAssigning(lines, h, n)
  {
    TitledIs(lines, h);
    KindsApart();
    var at, entry := EntryMeans(lines, IsNotifications, IsHeader, SetsEnabled);
    forall i | h < i <= n ensures !Bracketed(lines[i]) && (Assigns(lines[i]) <==> i == n) {
      HeaderMeans(lines[i]);
      AssignsMeans(lines[i]);
    }
  }

  lemma NoEntryIsNone(lines: seq<string>, h: nat)
    requires FirstTitled(lines, h, "[notifications]") && EnabledLine(lines) == |lines|
    ensures NoneAssigning(lines, h)
  {
    TitledIs(lines, h);
    KindsApart();
    forall i | h < i < |lines| && Assigns(lines[i]) ensures exists j :: h < j < i && Bracketed(lines[j]) {
      AssignsMeans(lines[i]);
      var j := HeaderBetween(lines, h, i, IsNotifications, IsHeader, SetsEnabled);
      HeaderMeans(lines[j]);
    }
  }

  /** Every text has no such table, or one that assigns the flag, or one that does not. */
  lemma EveryText(lines: seq<string>) returns (h: nat, n: nat)
    ensures || Untitled(lines, "[notifications]")
            || (FirstTitled(lines, h, "[notifications]") && (FirstAssigning(lines, h, n) || NoneAssigning(lines, h)))
  {
    h, n := First(lines, IsNotifications, 0), EnabledLine(lines);
    FirstMeans(lines, IsNotifications, 0);
    if h < |lines| {
      assert FirstTitled(lines, h, "[notifications]");
      if n < |lines| {
        EntryIsFirst(lines, h, n);
      } else {
        NoEntryIsNone(lines, h);
      }
    }
  }
}
