/** Small shared vocabulary: optional values, outcomes and sequence reversal. */
module Prelude {

  datatype Option<+T> = None | Some(value: T)

  datatype Result<+T, +E> = Ok(value: T) | Err(error: E)

  function Last<T>(s: seq<T>): (x: T)
    requires s != []
  {
    s[|s| - 1]
  }

  function DropLast<T>(s: seq<T>): (r: seq<T>)
    requires s != []
  {
    s[..|s| - 1]
  }

  function Reverse<T>(s: seq<T>): (r: seq<T>)
  {
    if s == [] then [] else Reverse(s[1..]) + [s[0]]
  }

  lemma {:induction false} ReverseAppend<T>(s: seq<T>, t: seq<T>)
    ensures Reverse(s + t) == Reverse(t) + Reverse(s)
  {
    if s == [] {
      assert s + t == t;
      assert Reverse(t) + [] == Reverse(t);
    } else {
      assert (s + t)[1..] == s[1..] + t;
      ReverseAppend(s[1..], t);
      assert Reverse(t) + Reverse(s[1..]) + [s[0]] == Reverse(t) + (Reverse(s[1..]) + [s[0]]);
    }
  }

  lemma {:induction false} ReverseAt<T>(s: seq<T>)
    ensures |Reverse(s)| == |s|
    ensures forall k :: 0 <= k < |s| ==> Reverse(s)[k] == s[|s| - 1 - k]
  {
    if s != [] {
      ReverseAt(s[1..]);
    }
  }

  ghost predicate Distinct<T(!new)>(s: seq<T>) {
    forall i, j :: 0 <= i < j < |s| ==> s[i] != s[j]
  }

  lemma Assoc<T>(a: seq<T>, b: seq<T>, c: seq<T>)
    ensures (a + b) + c == a + (b + c)
  {
  }
}
