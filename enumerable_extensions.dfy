/**
 * EnumerableExtensions.AreEqual: null-safe element-wise equality of two
 * possibly-null sequences.
 *
 * A comparer of None stands for the default (absent) comparer, which is value
 * equality. The reference-identity check on the two sequences is modelled as
 * equality of the two values.
 */
module EnumerableExtensions {
  import opened Wrappers
  import opened Linq

  function Comparison<T(==)>(comparer: Option<(T, T) -> bool>): (T, T) -> bool {
    match comparer
    case None => (x: T, y: T) => x == y
    case Some(eq) => eq
  }

  function AreEqual<T(==)>(first: Option<seq<T>>, second: Option<seq<T>>, comparer: Option<(T, T) -> bool>): (r: bool)
    // the same sequence, including two nulls
    ensures first == second ==> r
    // exactly one null
    ensures first.None? != second.None? ==> !r
    // two different non-null sequences: same length and pairwise equal under the comparer
    ensures first.Some? && second.Some? && first != second ==>
      (r <==> |first.value| == |second.value| &&
              forall i :: 0 <= i < |first.value| ==> Comparison(comparer)(first.value[i], second.value[i]))
  {
    if first == second then true
    else if first.None? || second.None? then false
    else SequenceEqual(first.value, second.value, Comparison(comparer))
  }

  /** With the default comparer, two non-null sequences are equal exactly when they are the same sequence. */
  lemma AreEqualDefault<T>(first: seq<T>, second: seq<T>)
    ensures AreEqual(Some(first), Some(second), None) <==> first == second
  {
    if AreEqual(Some(first), Some(second), None) && first != second {
      assert |first| == |second|;
      assert forall i :: 0 <= i < |first| ==> first[i] == second[i];
    }
  }

  /** With the default comparer AreEqual is reflexive and symmetric. */
  lemma AreEqualDefaultLaws<T>(first: Option<seq<T>>, second: Option<seq<T>>)
    ensures AreEqual(first, first, None)
    ensures AreEqual(first, second, None) == AreEqual(second, first, None)
  {
    if first.Some? && second.Some? {
      AreEqualDefault(first.value, second.value);
      AreEqualDefault(second.value, first.value);
    }
  }

  /** Sequences of different lengths are never equal, whatever the comparer. */
  lemma AreEqualLength<T>(first: seq<T>, second: seq<T>, comparer: Option<(T, T) -> bool>)
    requires |first| != |second|
    ensures !AreEqual(Some(first), Some(second), comparer)
  {
  }
}
