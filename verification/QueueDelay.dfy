/** Repair of a configured delay before it is queued, against the Timelock's gate. */
module QueueDelay {
  import opened Common

  const TIMELOCK_MIN_DELAY_SEC := 86400

  function ClampTimelockQueueDelay(delay: int): int {
    if 0 < delay < TIMELOCK_MIN_DELAY_SEC then 0 else delay
  }

  /** No floor is known for a Timelock that predates the getter. */
  function ResolveHighValueQueueDelay(delay: int, floorSec: Option<int>): int {
    if floorSec.None? then ClampTimelockQueueDelay(delay)
    else
      var floor := if floorSec.value > 0 then floorSec.value else 1;
      if delay >= floor then delay else floor
  }

  /** The gate of `TimelockQueue`; without a floor every method has the ordinary rule. */
  predicate DelayAdmitted(highValue: bool, delay: int, floorSec: Option<nat>) {
    if highValue && floorSec.Some? then delay > 0 && delay >= floorSec.value
    else delay == 0 || delay >= TIMELOCK_MIN_DELAY_SEC
  }

  function Repaired(highValue: bool, delay: int, floorSec: Option<nat>): int {
    if highValue then ResolveHighValueQueueDelay(delay, floorSec) else ClampTimelockQueueDelay(delay)
  }

  /**
   * Every non-negative delay is repaired to an admitted one, an admitted delay is left alone, and repairing
   * again changes nothing. With a floor the repair is the least admitted delay that is not shorter; without
   * one it is the greatest admitted delay that is not longer.
   */
  lemma RepairIsAdmitted(highValue: bool, delay: nat, floorSec: Option<nat>)
    ensures var d := Repaired(highValue, delay, floorSec);
      && DelayAdmitted(highValue, d, floorSec)
      && (d == delay <==> DelayAdmitted(highValue, delay, floorSec))
      && Repaired(highValue, d, floorSec) == d
    ensures highValue && floorSec.Some? ==>
      forall other :: DelayAdmitted(highValue, other, floorSec) && other >= delay ==>
        Repaired(highValue, delay, floorSec) <= other
    ensures !highValue || floorSec.None? ==>
      forall other :: DelayAdmitted(highValue, other, floorSec) && other <= delay ==>
        other <= Repaired(highValue, delay, floorSec)
  {
  }

  /** A negative delay is repaired only by the floor rule; the clamp passes it on to be refused. */
  lemma RepairAdmittedIff(highValue: bool, delay: int, floorSec: Option<nat>)
    ensures DelayAdmitted(highValue, Repaired(highValue, delay, floorSec), floorSec)
      <==> 0 <= delay || (highValue && floorSec.Some?)
  {
  }
}
