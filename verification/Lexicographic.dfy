// The order in which Python compares strings, and the sorted traversals built on it.
module Lexicographic {

  predicate AtMost(a: string, b: string) {
    a == "" || (b != "" && (a[0] < b[0] || (a[0] == b[0] && AtMost(a[1..], b[1..]))))
  }

  lemma {:induction false} Total(a: string, b: string)
    ensures AtMost(a, b) || AtMost(b, a)
  {
    if a != "" && b != "" && a[0] == b[0] {
      Total(a[1..], b[1..]);
    }
  }

  lemma {:induction false} Antisymmetric(a: string, b: string)
    requires AtMost(a, b) && AtMost(b, a)
    ensures a == b
  {
    if a != "" && b != "" {
      Antisymmetric(a[1..], b[1..]);
      assert a == [a[0]] + a[1..] && b == [b[0]] + b[1..];
    }
  }

  lemma {:induction false} Transitive(a: string, b: string, c: string)
    requires AtMost(a, b) && AtMost(b, c)
    ensures AtMost(a, c)
  {
    if a != "" && a[0] == b[0] == c[0] {
      Transitive(a[1..], b[1..], c[1..]);
    }
  }

  /** The first difference decides, and a string comes before its continuations. */
  lemma {:induction false} FirstDifference(a: string, b: string)
    ensures AtMost(a, b) <==> a <= b || exists i :: 0 <= i < |a| && i < |b| && a[..i] == b[..i] && a[i] < b[i]
  {
    if a != "" && b != "" {
      var c, d := a[1..], b[1..];
      FirstDifference(c, d);
      assert a == [a[0]] + c && b == [b[0]] + d;
      if a[0] < b[0] {
        assert a[..0] == b[..0];
      }
      if i :| 0 <= i < |c| && i < |d| && c[..i] == d[..i] && c[i] < d[i] && a[0] == b[0] {
        assert a[..i + 1] == [a[0]] + c[..i] && b[..i + 1] == [b[0]] + d[..i] && a[i + 1] < b[i + 1];
      }
      if i :| 0 < i < |a| && i < |b| && a[..i] == b[..i] && a[i] < b[i] {
        assert a[..i][0] == a[0] && b[..i][0] == b[0];
        assert c[..i - 1] == a[..i][1..] && d[..i - 1] == b[..i][1..] && c[i - 1] < d[i - 1];
      }
    }
  }

  predicate IsLeast(m: string, names: set<string>) {
    m in names && forall n :: n in names ==> AtMost(m, n)
  }

  lemma {:induction false} LeastExists(names: set<string>)
    requires names != {}
    ensures exists m :: IsLeast(m, names)
    decreases |names|
  {
    var x :| x in names;
    if names == {x} {
      Total(x, x);
      assert IsLeast(x, names);
    } else {
      LeastExists(names - {x});
      var m :| IsLeast(m, names - {x});
      Total(m, x);
      if AtMost(m, x) {
        assert IsLeast(m, names);
      } else {
        forall n | n in names ensures AtMost(x, n) {
          if n == x { Total(x, x); } else { Transitive(x, m, n); }
        }
        assert IsLeast(x, names);
      }
    }
  }

  lemma LeastUnique(names: set<string>)
    ensures forall m, n :: IsLeast(m, names) && IsLeast(n, names) ==> m == n
  {
    forall m, n | IsLeast(m, names) && IsLeast(n, names) ensures m == n {
      Antisymmetric(m, n);
    }
  }

  /** Python's `min` of a non-empty set of strings. */
  function Least(names: set<string>): (m: string)
    requires names != {}
    ensures IsLeast(m, names)
  {
    LeastExists(names);
    LeastUnique(names);
    var m :| m in names && IsLeast(m, names);
    m
  }

  ghost predicate Ascending(s: seq<string>) {
    forall i, j :: 0 <= i < j < |s| ==> AtMost(s[i], s[j]) && s[i] != s[j]
  }

  /** Python's `sorted` of a set: every member once, in ascending order. */
  function Sorted(names: set<string>): (s: seq<string>)
    ensures forall n :: n in s <==> n in names
    ensures Ascending(s)
    decreases |names|
  {
    if names == {} then [] else
      var m := Least(names);
      [m] + Sorted(names - {m})
  }
}
