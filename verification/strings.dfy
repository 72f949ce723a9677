/**
 * String operations the pipeline borrows from Python's `str`: joining and
 * splitting on a separator, `startswith`, the `in` substring test, ASCII
 * `lower()` and the code-point ordering that `sorted` uses.
 */
module Strings {

  /** `parts` joined with `sep` between neighbours (Python's `sep.join(parts)`). */
  function Join(parts: seq<string>, sep: char): (r: string)
    requires |parts| >= 1
    ensures parts[0] <= r
    decreases |parts|
  {
    if |parts| == 1 then parts[0] else parts[0] + [sep] + Join(parts[1..], sep)
  }

  /** A join of two or more parts starts with the first two parts and the separator between them. */
  lemma JoinStartsWithTwo(parts: seq<string>, sep: char)
    requires |parts| >= 2
    ensures var head := parts[0] + [sep] + parts[1];
            |head| <= |Join(parts, sep)| && Join(parts, sep)[..|head|] == head
  {
    var tail := Join(parts[1..], sep);
    assert parts[1..][0] == parts[1];
    assert parts[1] <= tail;
    assert Join(parts, sep) == parts[0] + [sep] + tail;
  }

  /** `s` cut at every occurrence of `sep` (Python's `s.split(sep)`). */
  function Split(s: string, sep: char): (r: seq<string>)
    ensures |r| >= 1
    decreases |s|
  {
    if |s| == 0 then [""]
    else
      var rest := Split(s[1..], sep);
      if s[0] == sep then [""] + rest else [[s[0]] + rest[0]] + rest[1..]
  }

  lemma {:induction false} SplitWithoutSeparator(w: string, sep: char)
    requires sep !in w
    ensures Split(w, sep) == [w]
    decreases |w|
  {
    if |w| > 0 {
      SplitWithoutSeparator(w[1..], sep);
      assert [w[0]] + w[1..] == w;
    }
  }

  lemma {:induction false} SplitAtFirstSeparator(w: string, sep: char, t: string)
    requires sep !in w
    ensures Split(w + [sep] + t, sep) == [w] + Split(t, sep)
    decreases |w|
  {
    var s := w + [sep] + t;
    if |w| == 0 {
      assert s == [sep] + t;
      assert s[1..] == t;
    } else {
      assert s[1..] == w[1..] + [sep] + t;
      SplitAtFirstSeparator(w[1..], sep, t);
      assert [w[0]] + w[1..] == w;
    }
  }

  /** Splitting undoes joining when no part contains the separator. */
  lemma {:induction false} SplitJoin(parts: seq<string>, sep: char)
    requires |parts| >= 1
    requires forall i :: 0 <= i < |parts| ==> sep !in parts[i]
    ensures Split(Join(parts, sep), sep) == parts
    decreases |parts|
  {
    if |parts| == 1 {
      SplitWithoutSeparator(parts[0], sep);
    } else {
      SplitAtFirstSeparator(parts[0], sep, Join(parts[1..], sep));
      SplitJoin(parts[1..], sep);
      assert parts == [parts[0]] + parts[1..];
    }
  }

  /** Python's `s.startswith(p)`. */
  predicate StartsWith(s: string, p: string) {
    |p| <= |s| && s[..|p|] == p
  }

  /** `w` occurs in `s` at position `i`. */
  predicate OccursAt(s: string, w: string, i: int) {
    0 <= i && i + |w| <= |s| && s[i..i + |w|] == w
  }

  /** Python's `w in s`, scanning positions from `from` onwards. */
  function ContainsFrom(s: string, w: string, from: nat): (r: bool)
    ensures r <==> exists i :: from <= i && OccursAt(s, w, i)
    decreases |s| - from
  {
    if from + |w| > |s| then false
    else if s[from..from + |w|] == w then assert OccursAt(s, w, from); true
    else ContainsFrom(s, w, from + 1)
  }

  /** Python's `w in s`. */
  function Contains(s: string, w: string): (r: bool)
    ensures r <==> exists i :: OccursAt(s, w, i)
  {
    ContainsFrom(s, w, 0)
  }

  /** Python's `c.lower()` on the ASCII letters; every other character is kept. */
  function LowerChar(c: char): (r: char)
    ensures 'A' <= c <= 'Z' ==> 'a' <= r <= 'z' && r as int - c as int == 32
    ensures !('A' <= c <= 'Z') ==> r == c
  {
    if 'A' <= c <= 'Z' then (c as int + 32) as char else c
  }

  /** Python's `s.lower()` restricted to ASCII letters; the length never changes. */
  function Lower(s: string): (r: string)
    ensures |r| == |s|
    ensures forall i :: 0 <= i < |s| ==> r[i] == LowerChar(s[i])
  {
    seq(|s|, i requires 0 <= i < |s| => LowerChar(s[i]))
  }

  /** Lowercasing an already lowercased string changes nothing. */
  lemma LowerIdempotent(s: string)
    ensures Lower(Lower(s)) == Lower(s)
  {
    forall i | 0 <= i < |s| ensures Lower(Lower(s))[i] == Lower(s)[i] {
      assert Lower(Lower(s))[i] == LowerChar(LowerChar(s[i]));
    }
  }

  /** Non-strict code-point lexicographic order, the order Python's `sorted` puts strings in. */
  predicate LexLe(a: string, b: string)
    decreases |a|
  {
    |a| == 0 || (|b| > 0 && (a[0] < b[0] || (a[0] == b[0] && LexLe(a[1..], b[1..]))))
  }

  lemma {:induction false} LexLeTotal(a: string, b: string)
    ensures LexLe(a, b) || LexLe(b, a)
    decreases |a|
  {
    if |a| > 0 && |b| > 0 && a[0] == b[0] {
      LexLeTotal(a[1..], b[1..]);
    }
  }

  lemma {:induction false} LexLeAntisymmetric(a: string, b: string)
    requires LexLe(a, b) && LexLe(b, a)
    ensures a == b
    decreases |a|
  {
    if |a| > 0 && |b| > 0 {
      LexLeAntisymmetric(a[1..], b[1..]);
      assert a == [a[0]] + a[1..];
      assert b == [b[0]] + b[1..];
    }
  }

  lemma {:induction false} LexLeTransitive(a: string, b: string, c: string)
    requires LexLe(a, b) && LexLe(b, c)
    ensures LexLe(a, c)
    decreases |a|
  {
    if |a| > 0 && |b| > 0 && |c| > 0 && a[0] == b[0] && b[0] == c[0] {
      LexLeTransitive(a[1..], b[1..], c[1..]);
    }
  }

  /** A least string of a finite non-empty set, found by removing one element at a time. */
  ghost function MinOf(s: set<string>): (m: string)
    requires s != {}
    ensures m in s
    ensures forall k :: k in s ==> LexLe(m, k)
    decreases |s|
  {
    var x :| x in s;
    LexLeTotal(x, x);
    if s == {x} then x
    else
      var m := MinOf(s - {x});
      LexLeTotal(m, x);
      if LexLe(m, x) then m
      else
        BelowLeast(x, m, s - {x});
        x
  }

  /** A string below the least element of a set is below all of it. */
  lemma BelowLeast(x: string, m: string, s: set<string>)
    requires LexLe(x, m)
    requires forall k :: k in s ==> LexLe(m, k)
    ensures forall k :: k in s ==> LexLe(x, k)
  {
    forall k | k in s ensures LexLe(x, k) {
      LexLeTransitive(x, m, k);
    }
  }

  /** The least string of a finite non-empty set under `LexLe`. */
  function Least(s: set<string>): (m: string)
    requires s != {}
    ensures m in s
    ensures forall k :: k in s ==> LexLe(m, k)
  {
    ghost var _ := MinOf(s);
    LeastUnique(s);
    var m :| m in s && forall k :: k in s ==> LexLe(m, k); m
  }

  lemma LeastUnique(s: set<string>)
    ensures forall m, n ::
              (m in s && n in s && (forall k :: k in s ==> LexLe(m, k)) && (forall k :: k in s ==> LexLe(n, k)))
              ==> m == n
  {
    forall m, n | m in s && n in s && (forall k :: k in s ==> LexLe(m, k))
                  && (forall k :: k in s ==> LexLe(n, k))
      ensures m == n
    {
      LexLeAntisymmetric(m, n);
    }
  }

  /** The elements of a finite set of strings in ascending order (Python's `sorted`). */
  function Sorted(s: set<string>): (r: seq<string>)
    ensures |r| == |s|
    ensures forall k :: k in r <==> k in s
    ensures Ascending(r)
    decreases |s|
  {
    if s == {} then []
    else
      var m := Least(s);
      var rest := Sorted(s - {m});
      ConsAscending(m, rest);
      [m] + rest
  }

  predicate Ascending(r: seq<string>) {
    forall i, j :: 0 <= i < j < |r| ==> LexLe(r[i], r[j]) && r[i] != r[j]
  }

  /** Putting a string strictly below every element in front keeps a sequence ascending. */
  lemma ConsAscending(m: string, rest: seq<string>)
    requires Ascending(rest)
    requires forall k :: k in rest ==> LexLe(m, k) && k != m
    ensures Ascending([m] + rest)
  {
    var r := [m] + rest;
    forall i, j | 0 <= i < j < |r| ensures LexLe(r[i], r[j]) && r[i] != r[j] {
      if i > 0 {
        assert r[i] == rest[i - 1] && r[j] == rest[j - 1];
      } else {
        assert r[j] == rest[j - 1] && rest[j - 1] in rest;
      }
    }
  }
}
