/** Texts cut into lines that keep their newlines, and what trimming does to them. */
module TextLines {
  import opened Base

  // ----- lines -----

  function LineEnd(text: string): (n: nat)
    requires text != ""
    ensures 1 <= n <= |text| && (forall i | 0 <= i < n - 1 :: text[i] != '\n')
    ensures n < |text| ==> text[n - 1] == '\n'
  {
    if text[0] == '\n' || |text| == 1 then 1 else 1 + LineEnd(text[1..])
  }

  /** `str::split_inclusive` at newlines. */
  function Lines(text: string): seq<string>
    decreases |text|
  {
    if text == "" then [] else [text[..LineEnd(text)]] + Lines(text[LineEnd(text)..])
  }

  function Concat(lines: seq<string>): string {
    if lines == [] then "" else lines[0] + Concat(lines[1..])
  }

  predicate Ended(line: string) { line != "" && line[|line| - 1] == '\n' }

  /** One line: not empty, and no newline but at its end. */
  ghost predicate IsLine(line: string) {
    line != "" && forall i | 0 <= i < |line| - 1 :: line[i] != '\n'
  }

  /** Lines of one text: only the last may lack its newline. */
  ghost predicate Lined(lines: seq<string>) {
    && (forall i | 0 <= i < |lines| :: IsLine(lines[i]))
    && forall i | 0 <= i < |lines| - 1 :: Ended(lines[i])
  }

  lemma {:induction false} LinesOfText(text: string)
    ensures Concat(Lines(text)) == text && Lined(Lines(text))
    decreases |text|
  {
    if text != "" {
      var n := LineEnd(text);
      LinesOfText(text[n..]);
      FirstLineOf(text);
      LinedCons(text[..n], Lines(text[n..]));
      ConcatCons(text[..n], Lines(text[n..]));
      assert text[..n] + text[n..] == text;
    }
  }

  lemma FirstLineOf(text: string)
    requires text != ""
    ensures IsLine(text[..LineEnd(text)]) && (LineEnd(text) < |text| ==> Ended(text[..LineEnd(text)]))
  {
  }

  lemma ConcatCons(line: string, rest: seq<string>)
    ensures Concat([line] + rest) == line + Concat(rest)
  {
    assert ([line] + rest)[1..] == rest;
  }

  lemma LinedCons(line: string, rest: seq<string>)
    requires IsLine(line) && Lined(rest) && (rest != [] ==> Ended(line))
    ensures Lined([line] + rest)
  {
    var lines := [line] + rest;
    assert forall i | 1 <= i < |lines| :: lines[i] == rest[i - 1];
  }

  /** Cutting a text into such lines is the only way to do it. */
  lemma {:induction false} LinesOfConcat(lines: seq<string>)
    requires Lined(lines)
    ensures Lines(Concat(lines)) == lines
  {
    if lines != [] {
      var text, rest := Concat(lines), Concat(lines[1..]);
      LinesOfConcat(lines[1..]);
      if |lines| == 1 {
        assert rest == "";
      }
      assert forall i | 0 <= i < |lines[0]| :: text[i] == lines[0][i];
      assert LineEnd(text) == |lines[0]|;
      assert text[..|lines[0]|] == lines[0] && text[|lines[0]|..] == rest;
    }
  }

  lemma {:induction false} ConcatAppends(a: seq<string>, b: seq<string>)
    ensures Concat(a + b) == Concat(a) + Concat(b)
  {
    if a == [] {
      assert a + b == b;
    } else {
      assert (a + b)[1..] == a[1..] + b;
      ConcatAppends(a[1..], b);
    }
  }

  /** The text between two line boundaries is the lines between them. */
  lemma ConcatSlices(lines: seq<string>, i: nat, j: nat)
    requires i <= j <= |lines|
    ensures var text := Concat(lines); var p := |Concat(lines[..i])|; var q := |Concat(lines[..j])|;
      p <= q <= |text| && text[..p] == Concat(lines[..i]) && text[p..q] == Concat(lines[i..j])
        && text[q..] == Concat(lines[j..])
  {
    assert lines == lines[..j] + lines[j..] && lines[..j] == lines[..i] + lines[i..j];
    ConcatAppends(lines[..j], lines[j..]);
    ConcatAppends(lines[..i], lines[i..j]);
  }

  lemma ConcatOne(line: string)
    ensures Concat([line]) == line
  {
    assert [line][1..] == [];
  }

  lemma ConcatThree(a: string, b: string, c: string)
    ensures Concat([a, b, c]) == a + b + c
  {
    assert [a, b, c][1..] == [b, c] && [b, c][1..] == [c];
    ConcatOne(c);
    assert a + (b + c) == a + b + c;
  }

  // ----- searching and trimming -----

  /** Where `c` first occurs at or after `from`, or the length when it does not. */
  function IndexOf(s: string, c: char, from: nat): (n: nat)
    requires from <= |s|
    ensures from <= n <= |s| && (n < |s| ==> s[n] == c) && forall i | from <= i < n :: s[i] != c
    decreases |s| - from
  {
    if from == |s| || s[from] == c then from else IndexOf(s, c, from + 1)
  }

  /** Where the first character that is not whitespace stands at or after `from`, or the length. */
  function NonWhite(s: string, from: nat): (n: nat)
    requires from <= |s|
    ensures from <= n <= |s| && (n < |s| ==> !IsWhite(s[n])) && forall i | from <= i < n :: IsWhite(s[i])
    decreases |s| - from
  {
    if from == |s| || !IsWhite(s[from]) then from else NonWhite(s, from + 1)
  }

  /** `str::trim`. */
  function Trim(s: string): string {
    var i, j := NonWhite(s, 0), WhiteTail(s, |s|);
    if i < j then s[i..j] else ""
  }

  /** What trimming leaves is the part between white ends. */
  lemma TrimIs(s: string, i: nat, j: nat)
    requires i < j <= |s| && !IsWhite(s[i]) && !IsWhite(s[j - 1])
    requires forall k | 0 <= k < |s| && !(i <= k < j) :: IsWhite(s[k])
    ensures Trim(s) == s[i..j]
  {
    assert NonWhite(s, 0) == i && WhiteTail(s, |s|) == j;
  }

  lemma BlankTrims(s: string)
    requires forall k | 0 <= k < |s| :: IsWhite(s[k])
    ensures Trim(s) == ""
  {
    assert NonWhite(s, 0) == |s|;
  }

  /** Two texts that differ only in white ends are trimmed to the same. */
  lemma TrimInner(s: string, i: nat, inner: string)
    requires i + |inner| <= |s| && s[i..i + |inner|] == inner
    requires forall k | 0 <= k < |s| && !(i <= k < i + |inner|) :: IsWhite(s[k])
    ensures Trim(inner) == Trim(s)
  {
    var a, b := NonWhite(inner, 0), WhiteTail(inner, |inner|);
    if a < b {
      CoreWithin(s, i, inner, a, b);
    } else {
      forall k | 0 <= k < |s|
        ensures IsWhite(s[k])
      {
        if i <= k < i + |inner| {
          assert s[k] == inner[k - i];
        }
      }
      BlankTrims(s);
    }
  }

  lemma CoreWithin(s: string, i: nat, inner: string, a: nat, b: nat)
    requires i + |inner| <= |s| && s[i..i + |inner|] == inner
    requires forall k | 0 <= k < |s| && !(i <= k < i + |inner|) :: IsWhite(s[k])
    requires a < b <= |inner| && !IsWhite(inner[a]) && !IsWhite(inner[b - 1])
    requires forall k | 0 <= k < |inner| && !(a <= k < b) :: IsWhite(inner[k])
    ensures Trim(s) == inner[a..b]
  {
    assert forall k | i <= k < i + |inner| :: s[k] == inner[k - i];
    TrimIs(s, i + a, i + b);
    assert s[i + a..i + b] == inner[a..b];
  }

  lemma TrimAddsNewline(s: string)
    ensures Trim(s + "\n") == Trim(s)
  {
    assert (s + "\n")[0..|s|] == s;
    TrimInner(s + "\n", 0, s);
  }
}
