/** Walking a set or a map's keys in increasing order, as an ordered map yields them. */
module Ordering {
  ghost predicate StrictTotal<K(!new)>(less: (K, K) -> bool) {
    && (forall a :: !less(a, a))
    && (forall a, b :: a != b ==> less(a, b) || less(b, a))
    && (forall a, b, c :: less(a, b) && less(b, c) ==> less(a, c))
  }

  /** Strictly increasing; recursive, so that a proof meets one pair at a time. */
  ghost predicate Increasing<K>(s: seq<K>, less: (K, K) -> bool) {
    |s| < 2 || (less(s[|s| - 2], s[|s| - 1]) && Increasing(s[..|s| - 1], less))
  }

  lemma {:induction false} IncreasingPair<K(!new)>(s: seq<K>, less: (K, K) -> bool, i: nat, j: nat)
    requires StrictTotal(less) && Increasing(s, less) && i < j < |s|
    ensures less(s[i], s[j])
  {
    if j < |s| - 1 {
      IncreasingPair(s[..|s| - 1], less, i, j);
    } else if i < |s| - 2 {
      IncreasingPair(s[..|s| - 1], less, i, |s| - 2);
    }
  }

  /** What a loop over `s` has met after `n` rounds. */
  ghost function Taken<K>(s: seq<K>, n: nat): set<K>
    requires n <= |s|
  {
    if n == 0 then {} else Taken(s, n - 1) + {s[n - 1]}
  }

  lemma {:induction false} TakenMember<K>(s: seq<K>, n: nat, x: K)
    requires n <= |s|
    ensures x in Taken(s, n) <==> exists i :: 0 <= i < n && s[i] == x
  {
    if n > 0 {
      TakenMember(s, n - 1, x);
    }
  }

  lemma {:induction false} TakenPrefix<K>(s: seq<K>, t: seq<K>, n: nat)
    requires n <= |s| && s <= t
    ensures Taken(s, n) == Taken(t, n)
  {
    if n > 0 {
      TakenPrefix(s, t, n - 1);
    }
  }

  /** The next key of an increasing sequence is new, and above every key already met. */
  lemma TakenStep<K(!new)>(s: seq<K>, n: nat, less: (K, K) -> bool)
    requires StrictTotal(less) && Increasing(s, less) && n < |s|
    ensures s[n] !in Taken(s, n) && s[n] in Taken(s, |s|)
    ensures forall x | x in Taken(s, n) :: less(x, s[n])
  {
    TakenMember(s, |s|, s[n]);
    forall x | x in Taken(s, n) ensures less(x, s[n]) {
      TakenMember(s, n, x);
      var i :| 0 <= i < n && s[i] == x;
      IncreasingPair(s, less, i, n);
    }
  }

  lemma GreatestExists<K(!new)>(s: set<K>, less: (K, K) -> bool)
    requires StrictTotal(less) && s != {}
    ensures exists m :: m in s && forall x | x in s :: x == m || less(x, m)
  {
    var y :| y in s;
    if s != {y} {
      GreatestExists(s - {y}, less);
      var m :| m in s - {y} && forall x | x in s - {y} :: x == m || less(x, m);
      var greatest := if less(m, y) then y else m;
      assert forall x | x in s :: x == greatest || less(x, greatest);
    }
  }

  function Greatest<K(!new, ==)>(s: set<K>, less: (K, K) -> bool): (m: K)
    requires StrictTotal(less) && s != {}
    ensures m in s && forall x | x in s :: x == m || less(x, m)
  {
    GreatestExists(s, less);
    var m :| m in s && forall x | x in s :: x == m || less(x, m);
    m
  }

  /** The members of `s`, each once, smallest first: how a `BTreeMap` yields its keys. */
  function Ascending<K(!new, ==)>(s: set<K>, less: (K, K) -> bool): (r: seq<K>)
    requires StrictTotal(less)
    ensures Increasing(r, less)
    ensures |r| == |s|
    ensures Taken(r, |r|) == s
  {
    if s == {} then []
    else
      var m := Greatest(s, less);
      var rest := Ascending(s - {m}, less);
      TakenPrefix(rest, rest + [m], |rest|);
      TakenMember(rest, |rest|, if rest == [] then m else rest[|rest| - 1]);
      assert (rest + [m])[..|rest|] == rest;
      rest + [m]
  }

  /** Lexicographic comparison, the derived `Ord` of strings and of structures. */
  predicate Lex<K(==)>(less: (K, K) -> bool, a: seq<K>, b: seq<K>) {
    b != [] && (a == [] || less(a[0], b[0]) || (a[0] == b[0] && Lex(less, a[1..], b[1..])))
  }

  lemma LexCons<K>(less: (K, K) -> bool, x: K, xs: seq<K>, y: K, ys: seq<K>)
    ensures Lex(less, [x] + xs, [y] + ys) <==> less(x, y) || (x == y && Lex(less, xs, ys))
  {
    assert ([x] + xs)[1..] == xs && ([y] + ys)[1..] == ys;
  }

  lemma {:induction false} LexTrichotomy<K(!new)>(less: (K, K) -> bool, a: seq<K>, b: seq<K>)
    requires StrictTotal(less)
    ensures !Lex(less, a, a)
    ensures a != b ==> Lex(less, a, b) || Lex(less, b, a)
  {
    if a != [] {
      LexTrichotomy(less, a[1..], if b != [] then b[1..] else []);
      if b != [] && a[0] == b[0] && a != b {
        assert a == [a[0]] + a[1..] && b == [b[0]] + b[1..];
      }
    }
  }

  lemma {:induction false} LexTransitive<K(!new)>(less: (K, K) -> bool, a: seq<K>, b: seq<K>, c: seq<K>)
    requires StrictTotal(less) && Lex(less, a, b) && Lex(less, b, c)
    ensures Lex(less, a, c)
  {
    if a != [] && a[0] == b[0] && b[0] == c[0] {
      LexTransitive(less, a[1..], b[1..], c[1..]);
    }
  }

  predicate CharLess(a: char, b: char) { a < b }

  predicate StringLess(a: string, b: string) { Lex(CharLess, a, b) }

  predicate PathLess(a: seq<string>, b: seq<string>) { Lex(StringLess, a, b) }

  lemma PathLessTotal()
    ensures StrictTotal(PathLess)
  {
    assert StrictTotal(CharLess);
    forall a, b ensures !StringLess(a, a) && (a != b ==> StringLess(a, b) || StringLess(b, a)) {
      LexTrichotomy(CharLess, a, b);
    }
    forall a, b, c | StringLess(a, b) && StringLess(b, c) ensures StringLess(a, c) {
      LexTransitive(CharLess, a, b, c);
    }
    assert StrictTotal(StringLess);
    forall a, b ensures !PathLess(a, a) && (a != b ==> PathLess(a, b) || PathLess(b, a)) {
      LexTrichotomy(StringLess, a, b);
    }
    forall a, b, c | PathLess(a, b) && PathLess(b, c) ensures PathLess(a, c) {
      LexTransitive(StringLess, a, b, c);
    }
  }
}
