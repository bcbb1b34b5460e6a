/**
 * The vote counter shown under each proposed motion: yay and nay counts that
 * are clamped so that together they never exceed the number of delegates, the
 * status derived from them, and submission once every delegate has voted.
 */
module Voting {
  import opened Wrappers
  import Session

  /** `Math.max(0, Math.min(value, totalDelegates - other))`: the new count for one side when the
      other side holds `other` votes. */
  function ClampVote(value: int, totalDelegates: int, other: int): (r: int)
    ensures 0 <= r
    ensures r <= value || r == 0
    ensures 0 <= other <= totalDelegates ==> r + other <= totalDelegates
    ensures 0 <= value && value + other <= totalDelegates ==> r == value
    ensures value > totalDelegates - other && other <= totalDelegates ==> r == totalDelegates - other
  {
    var capped := if value < totalDelegates - other then value else totalDelegates - other;
    if capped < 0 then 0 else capped
  }

  predicate IsComplete(yay: int, nay: int, totalDelegates: int) {
    yay + nay == totalDelegates
  }

  predicate IsPassing(yay: int, nay: int, totalDelegates: int) {
    yay > nay && IsComplete(yay, nay, totalDelegates)
  }

  /** The status badge: pending with the number still to vote, or the outcome. */
  datatype VoteStatus = Pending(remaining: int) | Passes | Fails

  function Status(yay: int, nay: int, totalDelegates: int): (r: VoteStatus)
    ensures r.Pending? <==> !IsComplete(yay, nay, totalDelegates)
    ensures r.Pending? ==> r.remaining == totalDelegates - (yay + nay) && r.remaining != 0
    ensures r == Passes <==> IsPassing(yay, nay, totalDelegates)
    ensures r == Fails <==> IsComplete(yay, nay, totalDelegates) && yay <= nay
  {
    if !IsComplete(yay, nay, totalDelegates) then Pending(totalDelegates - (yay + nay))
    else if IsPassing(yay, nay, totalDelegates) then Passes
    else Fails
  }

  /** The counter's verdict is the session's: a count it shows as passing is one the session
      promotes, and a complete tie is shown as failing. */
  lemma StatusAgreesWithSession(yay: int, nay: int, totalDelegates: int)
    ensures Status(yay, nay, totalDelegates) == Passes <==> Session.Passes(yay, nay, totalDelegates)
    ensures yay == nay && IsComplete(yay, nay, totalDelegates) ==> Status(yay, nay, totalDelegates) == Fails
  {
  }

  /** The "+" buttons are disabled once every delegate is counted; a "-" button at zero. */
  predicate IncrementDisabled(yay: int, nay: int, totalDelegates: int) {
    yay + nay >= totalDelegates
  }

  predicate DecrementDisabled(count: int) {
    count == 0
  }

  /** An enabled button moves its count by exactly one: the clamp never bites on a button press
      from a valid count. */
  lemma ButtonsStepByOne(count: int, other: int, totalDelegates: int)
    requires 0 <= count && 0 <= other && count + other <= totalDelegates
    ensures !IncrementDisabled(count, other, totalDelegates) ==> ClampVote(count + 1, totalDelegates, other) == count + 1
    ensures !DecrementDisabled(count) ==> ClampVote(count - 1, totalDelegates, other) == count - 1
  {
  }

  datatype VoteReport = VoteReport(motionId: string, yayCount: int, nayCount: int)

  class VoteCounter {
    const motionId: string
    const totalDelegates: int
    var yay: int
    var nay: int

    /** What the counter keeps: neither count negative, and together at most the roster. */
    ghost predicate Valid()
      reads this
    {
      0 <= yay && 0 <= nay && yay + nay <= totalDelegates
    }

    constructor (motionId: string, yayVotes: int, nayVotes: int, totalDelegates: int)
      ensures this.motionId == motionId && this.totalDelegates == totalDelegates
      ensures yay == yayVotes && nay == nayVotes
    {
      this.motionId := motionId;
      this.totalDelegates := totalDelegates;
      yay := yayVotes;
      nay := nayVotes;
    }

    /** `handleYayChange`. */
    method SetYay(value: int)
      modifies this`yay
      ensures yay == ClampVote(value, totalDelegates, nay)
      ensures old(Valid()) ==> Valid()
    {
      yay := ClampVote(value, totalDelegates, nay);
    }

    /** `handleNayChange`. */
    method SetNay(value: int)
      modifies this`nay
      ensures nay == ClampVote(value, totalDelegates, yay)
      ensures old(Valid()) ==> Valid()
    {
      nay := ClampVote(value, totalDelegates, yay);
    }

    /** `handleSubmit`: nothing happens until every delegate is counted; then the motion's id and
        both counts are reported. */
    method Submit() returns (report: Option<VoteReport>)
      ensures report.Some? <==> IsComplete(yay, nay, totalDelegates)
      ensures report.Some? ==> report.value == VoteReport(motionId, yay, nay)
    {
      if !IsComplete(yay, nay, totalDelegates) {
        return None;
      }
      report := Some(VoteReport(motionId, yay, nay));
    }
  }
}
