/** Governance thresholds: which are accepted, and what their quorums have in common. */
module Quorum {
  /** The threshold of the override class. BigInt division of a non-negative number. */
  function OverrideThreshold(threshold: int, signers: nat): int {
    var twoThirds := (2 * signers + 2) / 3;
    if threshold + 1 > twoThirds then threshold + 1 else twoThirds
  }

  /** The least number above the threshold that comes to two thirds of the signers. */
  lemma OverrideLeast(threshold: int, signers: nat, other: int)
    ensures OverrideThreshold(threshold, signers) > threshold && 3 * OverrideThreshold(threshold, signers) >= 2 * signers
    ensures other > threshold && 3 * other >= 2 * signers ==> OverrideThreshold(threshold, signers) <= other
  {
  }

  predicate ValidThreshold(signers: nat, threshold: int) {
    !(signers < 3 || threshold == 0 || threshold > signers || threshold * 2 <= signers
      || OverrideThreshold(threshold, signers) > signers)
  }

  /** The five conditions come to two: at least three signers, and a strict majority that is not everyone. */
  lemma ValidExactly(signers: nat, threshold: int)
    ensures ValidThreshold(signers, threshold) <==> signers >= 3 && signers < 2 * threshold && threshold < signers
  {
  }

  /** A set of signers large enough to act. */
  predicate IsQuorum<S>(all: set<S>, threshold: int, q: set<S>) { q <= all && |q| >= threshold }

  lemma Overlap<S>(all: set<S>, a: set<S>, b: set<S>)
    requires a <= all && b <= all
    ensures |a * b| >= |a| + |b| - |all|
  {
    Within(a + b, all);
    assert |a + b| + |a * b| == |a| + |b|;
  }

  lemma {:induction false} Within<S>(a: set<S>, b: set<S>)
    requires a <= b
    ensures |a| <= |b|
  {
    if x :| x in a { Within(a - {x}, b - {x}); }
  }

  lemma {:induction false} Subset<S>(all: set<S>, size: nat) returns (part: set<S>)
    requires size <= |all|
    ensures part <= all && |part| == size
  {
    if size == 0 {
      part := {};
    } else {
      var x :| x in all;
      var rest := Subset(all - {x}, size - 1);
      part := rest + {x};
    }
  }

  lemma MajorityMeets<S>(all: set<S>, threshold: int, a: set<S>, b: set<S>)
    requires threshold * 2 > |all| && IsQuorum(all, threshold, a) && IsQuorum(all, threshold, b)
    ensures a * b != {}
  {
    Overlap(all, a, b);
  }

  ghost predicate AllMeet<S(!new)>(all: set<S>, threshold: int) {
    forall a, b :: IsQuorum(all, threshold, a) && IsQuorum(all, threshold, b) ==> a * b != {}
  }

  /** Strict majority is not only enough for every two quorums to share a signer: it is needed. */
  lemma MeetExactly<S(!new)>(all: set<S>, threshold: int)
    requires 0 <= threshold <= |all|
    ensures AllMeet(all, threshold) <==> threshold * 2 > |all|
  {
    if threshold * 2 > |all| {
      forall a, b | IsQuorum(all, threshold, a) && IsQuorum(all, threshold, b) ensures a * b != {} {
        MajorityMeets(all, threshold, a, b);
      }
    } else {
      var a := Subset(all, threshold);
      assert |all - a| == |all| - |a|;
      var b := Subset(all - a, threshold);
      assert IsQuorum(all, threshold, a) && IsQuorum(all, threshold, b) && a * b == {};
    }
  }

  /** An override quorum meets every standard quorum, and outlives the loss of any one signer as a standard quorum. */
  lemma OverrideCovers<S>(all: set<S>, threshold: int, over: set<S>, standard: set<S>, lost: S)
    requires ValidThreshold(|all|, threshold)
    requires IsQuorum(all, OverrideThreshold(threshold, |all|), over) && IsQuorum(all, threshold, standard)
    ensures over * standard != {}
    ensures IsQuorum(all, threshold, over - {lost})
  {
    Overlap(all, over, standard);
    assert |over - {lost}| >= |over| - 1 by {
      if lost in over { assert over == (over - {lost}) + {lost}; } else { assert over - {lost} == over; }
    }
  }

  /** Any two override quorums share at least a third of the signers, rounded up. */
  lemma OverridesShareThird<S>(all: set<S>, threshold: int, a: set<S>, b: set<S>)
    requires ValidThreshold(|all|, threshold)
    requires IsQuorum(all, OverrideThreshold(threshold, |all|), a) && IsQuorum(all, OverrideThreshold(threshold, |all|), b)
    ensures 3 * |a * b| >= |all|
    ensures |a * b| >= (|all| + 2) / 3
  {
    Overlap(all, a, b);
  }

  /** For an accepted threshold there always is an override quorum, and it takes more than a standard one. */
  lemma OverrideReachable<S>(all: set<S>, threshold: int) returns (over: set<S>)
    requires ValidThreshold(|all|, threshold)
    ensures IsQuorum(all, OverrideThreshold(threshold, |all|), over)
    ensures OverrideThreshold(threshold, |all|) > threshold && 3 * OverrideThreshold(threshold, |all|) >= 2 * |all|
  {
    over := Subset(all, OverrideThreshold(threshold, |all|));
  }
}
