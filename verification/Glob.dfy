/** File searches: a literal query made into a pattern, against what the pattern then matches. */
module Glob {
  /** The meaning of a pattern the standard leaves to more rules than these, over the rest of a name. */
  type Elsewhere = (string, string) -> bool

  predicate Special(c: char) { c == '*' || c == '?' || c == '[' || c == ']' || c == '\\' }

  function Escaped(query: string): string {
    if query == "" then ""
    else
      var last := query[|query| - 1];
      Escaped(query[..|query| - 1]) + if Special(last) then ['\\', last] else [last]
  }

  /** One backslash before each special character, and nothing else changed. */
  method EscapeGlob(query: string) returns (escaped: string)
    ensures escaped == Escaped(query)
  {
    escaped := "";
    for i := 0 to |query|
      invariant escaped == Escaped(query[..i])
    {
      assert query[..i + 1][..i] == query[..i];
      if Special(query[i]) {
        escaped := escaped + ['\\'];
      }
      escaped := escaped + [query[i]];
    }
    assert query[..|query|] == query;
  }

  /**
   * Sections 2.13.1 and 2.13.2 of the POSIX Shell Command Language. Bracket expressions, and a
   * pattern ending in an unescaped backslash, mean whatever `elsewhere` says.
   */
  predicate Matches(pattern: string, name: string, elsewhere: Elsewhere)
    decreases |pattern| + |name|
  {
    if pattern == "" then name == ""
    else match pattern[0]
      case '*' =>
        Matches(pattern[1..], name, elsewhere) || (name != "" && Matches(pattern, name[1..], elsewhere))
      case '?' => name != "" && Matches(pattern[1..], name[1..], elsewhere)
      case '[' => elsewhere(pattern, name)
      case '\\' =>
        if |pattern| == 1 then elsewhere(pattern, name)
        else name != "" && name[0] == pattern[1] && Matches(pattern[2..], name[1..], elsewhere)
      case c => name != "" && name[0] == c && Matches(pattern[1..], name[1..], elsewhere)
  }

  /** `text` occurs contiguously in `name`. */
  ghost predicate Contains(name: string, text: string) {
    exists k :: 0 <= k <= |name| && text <= name[k..]
  }

  lemma {:induction false} EscapedFromFront(query: string)
    requires query != ""
    ensures Escaped(query) == (if Special(query[0]) then ['\\', query[0]] else [query[0]]) + Escaped(query[1..])
  {
    if |query| > 1 {
      var front := query[..|query| - 1];
      EscapedFromFront(front);
      assert front[1..] == query[1..][..|query| - 2];
    } else {
      assert query[..0] == "" && query[1..] == "";
    }
  }

  /** An escaped query consumes itself and nothing else, and leaves the rest of the pattern to the rest of the name. */
  lemma {:induction false} EscapedConsumes(query: string, rest: string, name: string, elsewhere: Elsewhere)
    ensures Matches(Escaped(query) + rest, name, elsewhere)
        <==> query <= name && Matches(rest, name[|query|..], elsewhere)
    decreases |query|
  {
    if query == "" {
      assert Escaped(query) + rest == rest && name[0..] == name;
    } else {
      EscapedFromFront(query);
      var head, tail := if Special(query[0]) then ['\\', query[0]] else [query[0]], Escaped(query[1..]);
      var pattern := Escaped(query) + rest;
      assert pattern == head + (tail + rest);
      assert pattern[|head|..] == tail + rest;
      if name != "" && name[0] == query[0] {
        EscapedConsumes(query[1..], rest, name[1..], elsewhere);
        assert |name| >= |query| ==> name[1..][|query| - 1..] == name[|query|..];
        assert query <= name <==> query[1..] <= name[1..] by {
          assert query == [query[0]] + query[1..] && name == [name[0]] + name[1..];
        }
      }
    }
  }

  lemma {:induction false} StarMatchesAll(name: string, elsewhere: Elsewhere)
    ensures Matches("*", name, elsewhere)
    decreases |name|
  {
    if name == "" {
      assert "*"[1..] == "";
    } else {
      StarMatchesAll(name[1..], elsewhere);
    }
  }

  /** A leading star skips any number of characters. */
  lemma {:induction false} StarSkips(pattern: string, name: string, elsewhere: Elsewhere)
    ensures Matches("*" + pattern, name, elsewhere)
        <==> exists k :: 0 <= k <= |name| && Matches(pattern, name[k..], elsewhere)
    decreases |name|
  {
    assert ("*" + pattern)[1..] == pattern && name[0..] == name;
    if name != "" {
      StarSkips(pattern, name[1..], elsewhere);
      forall k | 0 <= k <= |name| - 1
        ensures name[1..][k..] == name[k + 1..]
      {
      }
      if Matches("*" + pattern, name[1..], elsewhere) {
        var k :| 0 <= k <= |name[1..]| && Matches(pattern, name[1..][k..], elsewhere);
        assert Matches(pattern, name[k + 1..], elsewhere);
      }
      if k :| 0 < k <= |name| && Matches(pattern, name[k..], elsewhere) {
        assert name[1..][k - 1..] == name[k..];
      }
    }
  }

  /** A literal search finds exactly the names the query occurs in, whatever characters it holds. */
  lemma LiteralSearchFinds(query: string, name: string, elsewhere: Elsewhere)
    ensures Matches("*" + Escaped(query) + "*", name, elsewhere) <==> Contains(name, query)
  {
    var inner := Escaped(query) + "*";
    assert "*" + Escaped(query) + "*" == "*" + inner;
    StarSkips(inner, name, elsewhere);
    forall k | 0 <= k <= |name|
      ensures Matches(inner, name[k..], elsewhere) <==> query <= name[k..]
    {
      EscapedConsumes(query, "*", name[k..], elsewhere);
      if query <= name[k..] {
        StarMatchesAll(name[k..][|query|..], elsewhere);
      }
    }
  }

  /** Escaping loses nothing: as a pattern of its own it matches the query and no other name. */
  lemma EscapedMatchesOnlyItself(query: string, name: string, elsewhere: Elsewhere)
    ensures Matches(Escaped(query), name, elsewhere) <==> name == query
  {
    EscapedConsumes(query, "", name, elsewhere);
    assert Escaped(query) + "" == Escaped(query);
  }

  /** The pattern a search sends: the query as it is, or one that finds the query anywhere in a name. */
  method SearchPattern(query: string, glob: bool) returns (pattern: string)
    ensures glob ==> pattern == query
    ensures !glob ==> forall name: string, elsewhere: Elsewhere ::
      Matches(pattern, name, elsewhere) <==> Contains(name, query)
  {
    if glob {
      return query;
    }
    var escaped := EscapeGlob(query);
    pattern := "*" + escaped + "*";
    forall name: string, elsewhere: Elsewhere
      ensures Matches(pattern, name, elsewhere) <==> Contains(name, query)
    {
      LiteralSearchFinds(query, name, elsewhere);
    }
  }
}
