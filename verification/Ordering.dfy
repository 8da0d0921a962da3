/** Code-point order on strings, sorted listings of finite sets, and sums over them. */
module Ordering {

  /** Strictly earlier in code-point order. */
  predicate Before(a: string, b: string) {
    b != [] && (a == [] || a[0] < b[0] || (a[0] == b[0] && Before(a[1..], b[1..])))
  }

  lemma {:induction false} BeforeTotal(a: string, b: string)
    ensures a == b || Before(a, b) || Before(b, a)
    ensures !(Before(a, b) && Before(b, a))
    ensures !Before(a, a)
  {
    if a != [] && b != [] && a[0] == b[0] {
      BeforeTotal(a[1..], b[1..]);
      assert a == [a[0]] + a[1..] && b == [b[0]] + b[1..];
    }
    if a != [] {
      BeforeIrreflexive(a);
    }
  }

  lemma {:induction false} BeforeIrreflexive(a: string)
    ensures !Before(a, a)
  {
    if a != [] {
      BeforeIrreflexive(a[1..]);
    }
  }

  lemma {:induction false} BeforeTransitive(a: string, b: string, c: string)
    requires Before(a, b) && Before(b, c)
    ensures Before(a, c)
  {
    if a != [] && a[0] == b[0] && b[0] == c[0] {
      BeforeTransitive(a[1..], b[1..], c[1..]);
    }
  }

  predicate IsFirst(s: set<string>, x: string) {
    x in s && (forall y :: y in s && y != x ==> Before(x, y))
  }

  lemma {:induction false} FirstExists(s: set<string>)
    requires s != {}
    ensures exists x :: IsFirst(s, x)
    decreases |s|
  {
    var c :| c in s;
    var rest := s - {c};
    if rest == {} {
      assert s == {c} && IsFirst(s, c);
    } else {
      FirstExists(rest);
      var m :| IsFirst(rest, m);
      BeforeTotal(m, c);
      var x := if Before(m, c) then m else c;
      forall y | y in s && y != x
        ensures Before(x, y)
      {
        if x == c && y != m {
          BeforeTransitive(c, m, y);
        }
      }
      assert IsFirst(s, x);
    }
  }

  lemma FirstUnique(s: set<string>)
    ensures forall x, y :: IsFirst(s, x) && IsFirst(s, y) ==> x == y
  {
    forall x, y | IsFirst(s, x) && IsFirst(s, y)
      ensures x == y
    {
      BeforeTotal(x, y);
    }
  }

  function First(s: set<string>): (x: string)
    requires s != {}
    ensures IsFirst(s, x)
  {
    FirstExists(s);
    FirstUnique(s);
    var x :| x in s && IsFirst(s, x);
    x
  }

  /** The members in ascending order, each once. */
  function Sorted(s: set<string>): seq<string> {
    if s == {} then [] else [First(s)] + Sorted(s - {First(s)})
  }

  predicate Ascending(xs: seq<string>) {
    forall i, j :: 0 <= i < j < |xs| ==> Before(xs[i], xs[j])
  }

  lemma {:induction false} SortedLists(s: set<string>)
    ensures |Sorted(s)| == |s| && Ascending(Sorted(s))
    ensures forall x :: x in Sorted(s) <==> x in s
    decreases |s|
  {
    if s != {} {
      var x := First(s);
      var rest := Sorted(s - {x});
      SortedLists(s - {x});
      assert Sorted(s) == [x] + rest;
      assert forall i :: 0 <= i < |rest| ==> rest[i] in s - {x};
    }
  }

  /** The sum of a weight over a set. */
  function Sum(s: set<string>, weight: string -> nat): nat {
    if s == {} then 0 else weight(First(s)) + Sum(s - {First(s)}, weight)
  }

  lemma {:induction false} SumAdd(s: set<string>, x: string, weight: string -> nat)
    requires x !in s
    ensures Sum(s + {x}, weight) == Sum(s, weight) + weight(x)
    decreases |s|
  {
    var all := s + {x};
    var y := First(all);
    if y == x {
      assert all - {x} == s;
    } else {
      SumAdd(s - {y}, x, weight);
      assert all - {y} == (s - {y}) + {x};
      assert First(s) == y by {
        BeforeTotal(First(s), y);
      }
    }
  }

  lemma {:induction false} SumSubset(s: set<string>, t: set<string>, weight: string -> nat)
    requires s <= t
    ensures Sum(s, weight) <= Sum(t, weight)
    decreases |t|
  {
    if s != t {
      assert !(t <= s);
      var x :| x in t && x !in s;
      SumSubset(s, t - {x}, weight);
      SumAdd(t - {x}, x, weight);
      assert (t - {x}) + {x} == t;
    }
  }
}
