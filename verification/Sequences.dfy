/** Small functions on numbers and sequences that several modules share. */
module Sequences {

  function Min(a: int, b: int): int {
    if a < b then a else b
  }

  function Max(a: int, b: int): int {
    if a < b then b else a
  }

  ghost predicate Differ(s: seq<int>, i: int, j: int)
    requires 0 <= i < j < |s|
  {
    s[i] != s[j]
  }

  ghost predicate NoDup(s: seq<int>) {
    forall i, j :: 0 <= i < j < |s| ==> Differ(s, i, j)
  }

  lemma NoDupTail(s: seq<int>)
    requires NoDup(s) && s != []
    ensures NoDup(s[1..]) && s[0] !in s[1..]
    ensures forall x :: x in s[1..] <==> x in s && x != s[0]
  {
    assert s == [s[0]] + s[1..];
    forall j | 1 <= j < |s| ensures s[j] != s[0] { assert Differ(s, 0, j); }
    var t := s[1..];
    forall i, j | 0 <= i < j < |t| ensures Differ(t, i, j) { assert Differ(s, i + 1, j + 1); }
  }

  lemma NoDupMore(s: seq<int>, x: int)
    requires NoDup(s) && x !in s
    ensures NoDup(s + [x])
  {
    forall i, j | 0 <= i < j < |s| + 1 ensures Differ(s + [x], i, j) { if j < |s| { assert Differ(s, i, j); } }
  }

  /** The sequence without the first `x`. */
  function Without(s: seq<int>, x: int): seq<int> {
    if s == [] then [] else if s[0] == x then s[1..] else [s[0]] + Without(s[1..], x)
  }

  lemma {:induction false} WithoutOne(s: seq<int>, x: int)
    requires NoDup(s)
    ensures NoDup(Without(s, x)) && forall y :: y in Without(s, x) <==> y in s && y != x
    ensures x in s ==> |Without(s, x)| == |s| - 1
  {
    if s != [] {
      NoDupTail(s);
      WithoutOne(s[1..], x);
      var w := Without(s[1..], x);
      if s[0] != x {
        var r := [s[0]] + w;
        forall i, j | 0 <= i < j < |r| ensures Differ(r, i, j) {
          if i > 0 { assert Differ(w, i - 1, j - 1); } else { assert w[j - 1] in w; }
        }
      }
    }
  }

  /** The first position of `x`, or the length of the sequence. */
  function IndexOf<T(==)>(s: seq<T>, x: T): (k: nat)
    ensures x in s ==> k < |s| && s[k] == x
  {
    if s == [] || s[0] == x then 0 else 1 + IndexOf(s[1..], x)
  }

  lemma {:induction false} IndexOfIn<T>(s: seq<T>, x: T)
    ensures x in s ==> IndexOf(s, x) < |s| && s[IndexOf(s, x)] == x
    ensures forall i :: 0 <= i < IndexOf(s, x) && i < |s| ==> s[i] != x
    ensures x !in s ==> IndexOf(s, x) == |s|
  {
    if s != [] && s[0] != x {
      IndexOfIn(s[1..], x);
      assert forall i :: 1 <= i < |s| ==> s[i] == s[1..][i - 1];
    }
  }
}
