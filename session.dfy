/**
 * The application's session state machine (the handlers of `App`): the single
 * session cell moves from setup to awaiting a motion, collects proposed
 * motions, turns a passing one into the active motion, and goes back to
 * awaiting a motion when the chair finishes it.
 */
module Session {
  import opened Wrappers
  import opened Types
  import ArrayOps

  /** A vote passes when more delegates voted yay than nay and every delegate voted. */
  predicate Passes(yay: int, nay: int, rosterSize: int) {
    yay > nay && yay + nay == rosterSize
  }

  /** Ties and incomplete counts never pass; a complete count passes exactly when yay is ahead. */
  lemma PassingRule(yay: int, nay: int, rosterSize: int)
    ensures yay == nay ==> !Passes(yay, nay, rosterSize)
    ensures yay + nay != rosterSize ==> !Passes(yay, nay, rosterSize)
    ensures yay + nay == rosterSize ==> (Passes(yay, nay, rosterSize) <==> yay > nay)
  {
  }

  /** `proposedMotions.find(m => m.id === motionId)`. */
  function FindMotion(queue: seq<ProposedMotion>, motionId: string): (r: Option<ProposedMotion>)
    ensures r.None? <==> forall i :: 0 <= i < |queue| ==> queue[i].id != motionId
    ensures r.Some? ==> exists i :: 0 <= i < |queue| && queue[i] == r.value && r.value.id == motionId
                                   && forall j :: 0 <= j < i ==> queue[j].id != motionId
  {
    ArrayOps.Find(queue, (m: ProposedMotion) => m.id == motionId)
  }

  /** `proposedMotions.filter(m => m.id !== motionId)`: every motion with that id goes, the others stay. */
  function RemoveMotion(queue: seq<ProposedMotion>, motionId: string): (r: seq<ProposedMotion>)
    ensures forall m :: m in r <==> m in queue && m.id != motionId
    ensures (forall i :: 0 <= i < |queue| ==> queue[i].id != motionId) ==> r == queue
    ensures (exists i :: 0 <= i < |queue| && queue[i].id == motionId) ==> |r| < |queue|
  {
    var r := ArrayOps.Filter(queue, (m: ProposedMotion) => m.id != motionId);
    if exists i :: 0 <= i < |queue| && queue[i].id == motionId then
      var i :| 0 <= i < |queue| && queue[i].id == motionId;
      RemovalShrinks(queue, motionId, i);
      r
    else
      r
  }

  lemma {:induction false} RemovalShrinks(queue: seq<ProposedMotion>, motionId: string, i: nat)
    requires i < |queue| && queue[i].id == motionId
    ensures |ArrayOps.Filter(queue, (m: ProposedMotion) => m.id != motionId)| < |queue|
    decreases |queue|
  {
    if i > 0 {
      assert queue[1..][i - 1] == queue[i];
      RemovalShrinks(queue[1..], motionId, i - 1);
    }
  }

  /** Removal keeps the order of the motions that stay. */
  lemma RemoveMotionKeepsOrder(front: seq<ProposedMotion>, back: seq<ProposedMotion>, motionId: string)
    ensures RemoveMotion(front + back, motionId) == RemoveMotion(front, motionId) + RemoveMotion(back, motionId)
  {
    ArrayOps.FilterAppend(front, back, (m: ProposedMotion) => m.id != motionId);
  }

  class Session {
    var status: SessionStatus
    var delegates: seq<Delegate>
    var activeMotion: Option<ActiveMotion>
    var proposedMotions: seq<ProposedMotion>

    function State(): SessionState
      reads this
    {
      SessionState(status, delegates, activeMotion, proposedMotions)
    }

    /** The initial session: in setup, with no delegates, no active motion and nothing queued. */
    constructor ()
      ensures State() == SessionState(Setup, [], None, [])
      ensures Consistent(State())
    {
      status := Setup;
      delegates := [];
      activeMotion := None;
      proposedMotions := [];
    }

    /** `handleSessionStart`: the roster is installed and the floor opens. */
    method StartSession(roster: seq<Delegate>)
      modifies this
      ensures State() == SessionState(AwaitingMotion, roster, None, [])
      ensures Consistent(State())
    {
      status, delegates, activeMotion, proposedMotions := AwaitingMotion, roster, None, [];
    }

    /** `handleAddProposedMotion`: the motion joins the end of the queue; there is no cap here. */
    method AddProposedMotion(motion: ProposedMotion)
      modifies this
      ensures State() == old(State()).(proposedMotions := old(proposedMotions) + [motion])
      ensures Consistent(old(State())) && old(status) != InMotion ==> Consistent(State())
    {
      proposedMotions := proposedMotions + [motion];
    }

    /** `handleVoteResult`: a vote on a motion that is not queued changes nothing; a passing vote
        makes the motion active and empties the whole queue; any other vote removes that motion. */
    method VoteResult(motionId: string, yayCount: int, nayCount: int)
      modifies this
      ensures FindMotion(old(proposedMotions), motionId).None? ==> State() == old(State())
      ensures FindMotion(old(proposedMotions), motionId).Some? && Passes(yayCount, nayCount, |old(delegates)|) ==>
        State() == old(State()).(status := InMotion,
                                 activeMotion := Some(Promote(FindMotion(old(proposedMotions), motionId).value)),
                                 proposedMotions := [])
      ensures FindMotion(old(proposedMotions), motionId).Some? && !Passes(yayCount, nayCount, |old(delegates)|) ==>
        State() == old(State()).(proposedMotions := RemoveMotion(old(proposedMotions), motionId))
      ensures Consistent(old(State())) ==> Consistent(State())
    {
      var found := FindMotion(proposedMotions, motionId);
      if found.None? {
        return;
      }
      var motion := found.value;
      if Passes(yayCount, nayCount, |delegates|) {
        status := InMotion;
        activeMotion := Some(Promote(motion));
        proposedMotions := [];
      } else {
        proposedMotions := RemoveMotion(proposedMotions, motionId);
      }
    }

    /** `handleFinishMotion`: back to awaiting a motion, from whatever state; queue and roster stay. */
    method FinishMotion()
      modifies this
      ensures State() == old(State()).(status := AwaitingMotion, activeMotion := None)
      ensures Consistent(State())
    {
      status := AwaitingMotion;
      activeMotion := None;
    }
  }
}
