/** Shared vocabulary of the model: optional values, results, and the scalar
    types the application stores. Calendar dates are day numbers, hours are
    integer tenths of an hour (the hour column keeps exactly one decimal
    place), and every database identity is a natural number. */
module Common {

  datatype Option<+T> = None | Some(value: T)

  datatype Result<+T, +E> = Ok(value: T) | Err(error: E)

  /** A calendar date as a day number; consecutive days differ by one. */
  type Day = int

  /** A timestamp (creation, submission); only compared for equality. */
  type Instant = int

  /** Hours as integer tenths of an hour: 8.5 hours is 85. */
  type Tenths = int

  type UserId = nat
  type ProjectId = nat

  /** An opaque token identity standing for a random UUID. */
  type TokenId = nat

  /** The set of elements of a sequence. */
  function Elems<T>(s: seq<T>): set<T>
  {
    set x | x in s
  }

  /** Every element is strictly smaller than the ones after it. */
  predicate StrictlyIncreasing(s: seq<int>)
  {
    forall i, j :: 0 <= i < j < |s| ==> s[i] < s[j]
  }

  /** A strictly increasing sequence has no repeated element, so it has as
      many distinct elements as positions. */
  lemma {:induction false} StrictlyIncreasingCard(s: seq<int>)
    requires StrictlyIncreasing(s)
    ensures |Elems(s)| == |s|
  {
    if |s| > 0 {
      var t := s[1..];
      StrictlyIncreasingCard(t);
      assert Elems(s) == {s[0]} + Elems(t);
      assert s[0] !in Elems(t);
    }
  }
}
