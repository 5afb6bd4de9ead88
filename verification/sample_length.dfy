/**
 The derived `Length` of a pausable skinnable sound: the longest of the
 durations of its realised sub-samples, or 0 when it has none.

 Durations are modelled as `real`; only comparison and maximum matter.
 */
module SampleLength {

  /** `r` is the largest element of the non-empty sequence `lengths`. */
  predicate IsMaxOf(lengths: seq<real>, r: real) {
    && |lengths| > 0
    && (forall i :: 0 <= i < |lengths| ==> lengths[i] <= r)
    && (exists i :: 0 <= i < |lengths| && lengths[i] == r)
  }

  /** Maximum of a non-empty sequence of durations (LINQ `Max`). */
  function MaxLength(lengths: seq<real>): (r: real)
    requires |lengths| > 0
    ensures IsMaxOf(lengths, r)
    decreases |lengths|
  {
    if |lengths| == 1 then lengths[0]
    else
      var rest := MaxLength(lengths[1..]);
      assert forall i :: 1 <= i < |lengths| ==> lengths[i] == lengths[1..][i - 1];
      if lengths[0] >= rest then lengths[0] else rest
  }

  /** The sound's `Length`: 0 with no sub-samples, else their maximum. */
  function Length(lengths: seq<real>): (r: real)
    ensures |lengths| == 0 ==> r == 0.0
    ensures |lengths| > 0 ==> IsMaxOf(lengths, r)
  {
    if |lengths| == 0 then 0.0 else MaxLength(lengths)
  }

  /** The maximum is unique: any value that is an upper bound attained by
      some sub-sample is exactly `Length`. */
  lemma MaxIsUnique(lengths: seq<real>, r: real)
    requires IsMaxOf(lengths, r)
    ensures r == Length(lengths)
  {
    // Two attained upper bounds are each at most the other.
  }

  /** `Length` does not depend on the order in which the sub-samples are
      listed: any rearrangement of the durations has the same `Length`. */
  lemma LengthIsOrderIndependent(a: seq<real>, b: seq<real>)
    requires multiset(a) == multiset(b)
    ensures Length(a) == Length(b)
  {
    if |a| > 0 {
      assert |b| == |multiset(b)| == |multiset(a)| == |a|;
      var ra := Length(a);
      forall k | 0 <= k < |b|
        ensures b[k] <= ra
      {
        assert b[k] in multiset(a);
      }
      var i :| 0 <= i < |a| && a[i] == ra;
      assert a[i] in multiset(b);
      MaxIsUnique(b, ra);
    } else {
      assert |b| == |multiset(b)| == 0;
    }
  }
}
