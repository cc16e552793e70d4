/** Checkpoint bookkeeping: when one is due, which one to restore, whether to restart. */
module CheckpointSelect {
  import opened Common

  function SaturatingAdd(a: nat, b: nat): nat {
    if a + b > U64_MAX then U64_MAX else a + b
  }

  predicate IsCheckpointDue(last: Option<nat>, current: nat, interval: nat) {
    interval != 0
    && match last
       case None => current >= interval
       case Some(l) => current >= SaturatingAdd(l, interval)
  }

  /** Searching from the back: the last index whose seq is at or before the target. */
  function NearestAtOrBefore(seqs: seq<nat>, target: nat): (r: Option<nat>)
    ensures r.None? <==> forall i :: 0 <= i < |seqs| ==> seqs[i] > target
    ensures r.Some? ==> r.value < |seqs| && seqs[r.value] <= target
                        && forall i :: r.value < i < |seqs| ==> seqs[i] > target
  {
    if seqs == [] then None
    else if seqs[|seqs| - 1] <= target then Some(|seqs| - 1)
    else
      assert forall i :: 0 <= i < |seqs| - 1 ==> seqs[..|seqs| - 1][i] == seqs[i];
      NearestAtOrBefore(seqs[..|seqs| - 1], target)
  }

  predicate ShouldRestart(current: Option<nat>, startSeq: nat, target: nat) {
    match current
    case None => startSeq > 0
    case Some(c) => c > target || startSeq > c
  }

  /** Among ascending checkpoints the one chosen is the closest at or before the target. */
  lemma NearestIsClosest(seqs: seq<nat>, target: nat)
    requires forall i, j :: 0 <= i < j < |seqs| ==> seqs[i] < seqs[j]
    ensures match NearestAtOrBefore(seqs, target)
            case Some(k) => forall i :: 0 <= i < |seqs| && seqs[i] <= target ==> seqs[i] <= seqs[k]
            case None => forall i :: 0 <= i < |seqs| ==> seqs[i] > target
  {
  }

  /** Below the last representable seq saturation never shows; at that seq a second
      checkpoint is due on the spot. */
  lemma SaturationOnlyAtTheTop(last: nat, current: nat, interval: nat)
    requires 0 < interval && last <= U64_MAX && current <= U64_MAX
    ensures current < U64_MAX ==> (IsCheckpointDue(Some(last), current, interval) <==> current >= last + interval)
    ensures IsCheckpointDue(Some(U64_MAX), U64_MAX, interval)
  {
  }
}
