/**
 * Sorting a list of rows by the reverse of a row comparator, as
 * `List.sort(ordering.reverse())` does: a row goes before another when the
 * comparator ranks it higher.
 */
module RowOrdering {

  /** A Java comparator: negative, zero or positive. */
  type Comparator<!T> = (T, T) -> int

  /** The comparator's signs are consistent: `a` above `b` means `b` below `a`. */
  ghost predicate SignConsistent<T(!new)>(cmp: Comparator<T>)
  {
    forall a, b :: cmp(a, b) > 0 ==> cmp(b, a) < 0
  }

  /** Every row ranks at least as high as its successor. */
  predicate SortedReversed<T>(s: seq<T>, cmp: Comparator<T>)
  {
    forall i :: 0 <= i < |s| - 1 ==> cmp(s[i + 1], s[i]) <= 0
  }

  /** Inserts `x` before the first row that it ranks strictly above, so after rows it ties with. */
  function Insert<T>(x: T, s: seq<T>, cmp: Comparator<T>): (r: seq<T>)
    ensures multiset(r) == multiset(s) + multiset{x}
    ensures |r| == |s| + 1
    ensures r[0] == x || (|s| > 0 && r[0] == s[0])
    decreases |s|
  {
    if |s| == 0 then [x]
    else if cmp(s[0], x) < 0 then [x] + s
    else
      assert s == [s[0]] + s[1..];
      [s[0]] + Insert(x, s[1..], cmp)
  }

  /** A sorted sequence stays sorted under a head that ranks at least as high as its first row. */
  lemma ConsSorted<T>(a: T, t: seq<T>, cmp: Comparator<T>)
    requires SortedReversed(t, cmp)
    requires |t| > 0 ==> cmp(t[0], a) <= 0
    ensures SortedReversed([a] + t, cmp)
  {
    var s := [a] + t;
    forall i | 0 <= i < |s| - 1
      ensures cmp(s[i + 1], s[i]) <= 0
    {
      if i > 0 {
        assert s[i] == t[i - 1] && s[i + 1] == t[i];
      }
    }
  }

  /** Inserting into a sorted sequence keeps it sorted, given a sign-consistent comparator. */
  lemma {:induction false} InsertKeepsSorted<T(!new)>(x: T, s: seq<T>, cmp: Comparator<T>)
    ensures SignConsistent(cmp) && SortedReversed(s, cmp) ==> SortedReversed(Insert(x, s, cmp), cmp)
    decreases |s|
  {
    if !(SignConsistent(cmp) && SortedReversed(s, cmp)) || |s| == 0 {
    } else if cmp(s[0], x) < 0 {
      ConsSorted(x, s, cmp);
    } else {
      var t := s[1..];
      assert SortedReversed(t, cmp) by {
        forall i | 0 <= i < |t| - 1
          ensures cmp(t[i + 1], t[i]) <= 0
        {
          assert t[i] == s[i + 1] && t[i + 1] == s[i + 2];
        }
      }
      InsertKeepsSorted(x, t, cmp);
      var rest := Insert(x, t, cmp);
      if rest[0] == x {
        assert cmp(x, s[0]) <= 0;
      } else {
        assert rest[0] == s[1];
      }
      ConsSorted(s[0], rest, cmp);
    }
  }

  /** Sorts by the reversed comparator: a permutation of the input, sorted when the comparator is sign-consistent. */
  function SortReversed<T(!new)>(s: seq<T>, cmp: Comparator<T>): (r: seq<T>)
    ensures multiset(r) == multiset(s)
    ensures |r| == |s|
    ensures SignConsistent(cmp) ==> SortedReversed(r, cmp)
    decreases |s|
  {
    if |s| == 0 then []
    else
      assert s == s[..|s| - 1] + [s[|s| - 1]];
      var sorted := SortReversed(s[..|s| - 1], cmp);
      InsertKeepsSorted(s[|s| - 1], sorted, cmp);
      Insert(s[|s| - 1], sorted, cmp)
  }
}
