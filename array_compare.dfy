/** The order-insensitive comparison of two id lists used by the variant update: equal lengths,
    then the default-sorted copies agree position by position. */
module ArrayCompare {

  /** The default `sort` order on strings: lexicographic by character code. */
  predicate StrLe(a: string, b: string)
    decreases |a|
  {
    if a == [] then true
    else if b == [] then false
    else if a[0] != b[0] then a[0] < b[0]
    else StrLe(a[1..], b[1..])
  }

  lemma {:induction false} StrLeTotal(a: string, b: string)
    ensures StrLe(a, b) || StrLe(b, a)
    decreases |a|
  {
    if a != [] && b != [] && a[0] == b[0] {
      StrLeTotal(a[1..], b[1..]);
    }
  }

  lemma {:induction false} StrLeAntisymmetric(a: string, b: string)
    requires StrLe(a, b) && StrLe(b, a)
    ensures a == b
    decreases |a|
  {
    if a != [] && b != [] {
      StrLeAntisymmetric(a[1..], b[1..]);
      assert a == [a[0]] + a[1..] && b == [b[0]] + b[1..];
    }
  }

  lemma {:induction false} StrLeTransitive(a: string, b: string, c: string)
    requires StrLe(a, b) && StrLe(b, c)
    ensures StrLe(a, c)
    decreases |a|
  {
    if a != [] && b != [] && c != [] && a[0] == b[0] && b[0] == c[0] {
      StrLeTransitive(a[1..], b[1..], c[1..]);
    }
  }

  predicate Sorted(s: seq<string>) {
    forall i, j :: 0 <= i < j < |s| ==> StrLe(s[i], s[j])
  }

  /** Inserts `x` before the first element it does not follow. */
  function InsertStr(x: string, s: seq<string>): (r: seq<string>)
    ensures multiset(r) == multiset(s) + multiset{x}
  {
    if s == [] then [x]
    else if StrLe(x, s[0]) then [x] + s
    else
      assert s == [s[0]] + s[1..];
      [s[0]] + InsertStr(x, s[1..])
  }

  lemma {:induction false} InsertStrSorted(x: string, s: seq<string>)
    requires Sorted(s)
    ensures Sorted(InsertStr(x, s))
    decreases |s|
  {
    if s != [] {
      if StrLe(x, s[0]) {
        var r := [x] + s;
        forall i, j | 0 <= i < j < |r| ensures StrLe(r[i], r[j]) {
          if i == 0 && j > 1 {
            StrLeTransitive(x, s[0], s[j - 1]);
          }
        }
      } else {
        StrLeTotal(x, s[0]);
        InsertStrSorted(x, s[1..]);
        var rest := InsertStr(x, s[1..]);
        var r := [s[0]] + rest;
        forall y | y in rest ensures StrLe(s[0], y) {
          assert y in multiset(rest);
          if y != x {
            assert y in multiset(s[1..]);
            var k :| 0 <= k < |s[1..]| && s[1..][k] == y;
            assert s[k + 1] == y;
          }
        }
        forall i, j | 0 <= i < j < |r| ensures StrLe(r[i], r[j]) {
          if i == 0 {
            assert r[j] == rest[j - 1];
            assert r[j] in rest;
          } else {
            assert r[i] == rest[i - 1] && r[j] == rest[j - 1];
          }
        }
      }
    }
  }

  /** `[...arr].sort()`: a sorted copy with the same elements; the argument is a value and is
      left as it was. */
  function SortStrings(s: seq<string>): (r: seq<string>)
    ensures multiset(r) == multiset(s)
    ensures |r| == |s|
    ensures Sorted(r)
  {
    if s == [] then []
    else
      assert s == [s[0]] + s[1..];
      var tail := SortStrings(s[1..]);
      InsertStrSorted(s[0], tail);
      InsertStr(s[0], tail)
  }

  /** `xs.every((value, index) => value === ys[index])` on lists of equal length. */
  function EveryEqual(xs: seq<string>, ys: seq<string>): (r: bool)
    requires |xs| == |ys|
    ensures r <==> xs == ys
  {
    if xs == [] then true
    else
      assert xs == [xs[0]] + xs[1..] && ys == [ys[0]] + ys[1..];
      xs[0] == ys[0] && EveryEqual(xs[1..], ys[1..])
  }

  /** The head of a sorted list comes before everything in it. */
  lemma SortedHeadFirst(xs: seq<string>, y: string)
    requires Sorted(xs) && y in xs
    ensures StrLe(xs[0], y)
  {
    var k :| 0 <= k < |xs| && xs[k] == y;
    if k == 0 {
      StrLeTotal(y, y);
    }
  }

  /** Two sorted lists with the same elements start with the same element. */
  lemma SortedSameHead(xs: seq<string>, ys: seq<string>)
    requires Sorted(xs) && Sorted(ys) && multiset(xs) == multiset(ys) && xs != [] && ys != []
    ensures xs[0] == ys[0]
  {
    assert xs[0] in multiset(ys) && ys[0] in multiset(xs);
    SortedHeadFirst(ys, xs[0]);
    SortedHeadFirst(xs, ys[0]);
    StrLeAntisymmetric(xs[0], ys[0]);
  }

  lemma TailElements(xs: seq<string>)
    requires xs != []
    ensures multiset(xs[1..]) == multiset(xs) - multiset{xs[0]}
  {
    assert xs == [xs[0]] + xs[1..];
  }

  /** Two sorted lists with the same elements are the same list. */
  lemma {:induction false} SortedUnique(xs: seq<string>, ys: seq<string>)
    requires Sorted(xs) && Sorted(ys) && multiset(xs) == multiset(ys)
    ensures xs == ys
    decreases |xs|
  {
    assert |xs| == |multiset(xs)| == |multiset(ys)| == |ys|;
    if xs != [] {
      SortedSameHead(xs, ys);
      TailElements(xs);
      TailElements(ys);
      var xt, yt := xs[1..], ys[1..];
      assert Sorted(xt) && Sorted(yt);
      SortedUnique(xt, yt);
      assert xs == [xs[0]] + xt && ys == [ys[0]] + yt;
    }
  }

  /** Lists with the same elements have the same sorted copy. */
  lemma SameElementsSameSort(arr1: seq<string>, arr2: seq<string>)
    ensures multiset(arr1) == multiset(arr2) ==> SortStrings(arr1) == SortStrings(arr2)
  {
    if multiset(arr1) == multiset(arr2) {
      SortedUnique(SortStrings(arr1), SortStrings(arr2));
    }
  }

  /** areArraysEqual: false on different lengths, otherwise the sorted copies compared
      position by position; that is, equality of the two lists as multisets. */
  function AreArraysEqual(arr1: seq<string>, arr2: seq<string>): (r: bool)
    ensures r <==> multiset(arr1) == multiset(arr2)
  {
    assert multiset(arr1) == multiset(arr2) ==> |arr1| == |multiset(arr1)| == |multiset(arr2)| == |arr2|;
    if |arr1| != |arr2| then false
    else
      var sorted1 := SortStrings(arr1);
      var sorted2 := SortStrings(arr2);
      SameElementsSameSort(arr1, arr2);
      EveryEqual(sorted1, sorted2)
  }

  lemma SwapKeepsElements(s: seq<string>, i: nat, j: nat)
    requires i < j < |s|
    ensures multiset(s[i := s[j]][j := s[i]]) == multiset(s)
  {
    var t := s[i := s[j]];
    assert multiset(t) == multiset(s) - multiset{s[i]} + multiset{s[j]};
    assert t[j] == s[j];
    assert multiset(t[j := s[i]]) == multiset(t) - multiset{s[j]} + multiset{s[i]};
  }

  /** Hence it is reflexive and symmetric, ignores order, and is false on lists of different length. */
  lemma AreArraysEqualProperties(arr1: seq<string>, arr2: seq<string>, i: nat, j: nat)
    ensures AreArraysEqual(arr1, arr1)
    ensures AreArraysEqual(arr1, arr2) == AreArraysEqual(arr2, arr1)
    ensures i < j < |arr1| ==> AreArraysEqual(arr1, arr1[i := arr1[j]][j := arr1[i]])
    ensures |arr1| != |arr2| ==> !AreArraysEqual(arr1, arr2)
  {
    if i < j < |arr1| {
      SwapKeepsElements(arr1, i, j);
    }
  }
}
