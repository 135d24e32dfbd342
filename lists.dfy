/** Facts about ordered lists that the handlers rely on: the first-match
    linear search, counting occurrences, duplicate-freedom and
    order-preserving subsequences. */
module Lists {
  import opened Wrappers

  /** The position of the first element equal to `k`, as a
      `for ... if ...: break` search finds it; None when there is none. */
  function FirstIndexOf<K(==)>(s: seq<K>, k: K): (r: Option<nat>)
    ensures r.None? <==> k !in s
    ensures r.Some? ==> r.value < |s| && s[r.value] == k
    ensures r.Some? ==> forall j :: 0 <= j < r.value ==> s[j] != k
  {
    if |s| == 0 then None
    else if s[0] == k then Some(0)
    else match FirstIndexOf(s[1..], k) {
      case None => None
      case Some(i) => Some(i + 1)
    }
  }

  /** A search that stops at `i`, having passed only elements different
      from `k`, found the first match. */
  lemma FirstIndexOfAt<K>(s: seq<K>, k: K, i: nat)
    requires i < |s| && s[i] == k
    requires forall j :: 0 <= j < i ==> s[j] != k
    ensures FirstIndexOf(s, k) == Some(i)
  {
  }

  /** Appending a key that is not yet in the list makes the appended slot
      its first occurrence. */
  lemma FirstIndexOfAppended<K>(s: seq<K>, k: K)
    requires k !in s
    ensures FirstIndexOf(s + [k], k) == Some(|s|)
  {
  }

  /** How many times `x` occurs in `s`. */
  function Occurrences<T(==)>(s: seq<T>, x: T): nat {
    if |s| == 0 then 0
    else (if s[0] == x then 1 else 0) + Occurrences(s[1..], x)
  }

  lemma {:induction false} OccurrencesZero<T>(s: seq<T>, x: T)
    ensures Occurrences(s, x) == 0 <==> x !in s
  {
    if |s| > 0 {
      OccurrencesZero(s[1..], x);
      assert s == [s[0]] + s[1..];
    }
  }

  lemma {:induction false} OccurrencesAppend<T>(s: seq<T>, y: T, x: T)
    ensures Occurrences(s + [y], x) == Occurrences(s, x) + (if y == x then 1 else 0)
  {
    if |s| == 0 {
      assert s + [y] == [y];
    } else {
      assert (s + [y])[1..] == s[1..] + [y];
      OccurrencesAppend(s[1..], y, x);
    }
  }

  /** No element occurs at two positions. */
  predicate NoDuplicates<T(==)>(s: seq<T>) {
    forall i, j :: 0 <= i < j < |s| ==> s[i] != s[j]
  }

  /** `a` is `b` with some elements dropped, the rest in their order. */
  predicate SubsequenceOf<T(==)>(a: seq<T>, b: seq<T>)
    decreases |b|
  {
    if |a| == 0 then true
    else if |b| == 0 then false
    else (a[0] == b[0] && SubsequenceOf(a[1..], b[1..])) || SubsequenceOf(a, b[1..])
  }
}
