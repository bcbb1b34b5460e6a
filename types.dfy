/**
 * The session's data model: delegates, proposed and active motions, and the
 * session state that holds them. Durations are whole seconds; an optional
 * numeric field is an `Option<int>` (TypeScript's `number | undefined`).
 */
module Types {
  import opened Wrappers
  import ArrayOps

  /** The three kinds of motion; a motion has exactly one of them. */
  datatype MotionType = SpeakersList | ModeratedCaucus | UnmoderatedCaucus

  /** The string a motion type carries in the data (and in the form's `<select>`). */
  function TypeTag(t: MotionType): string {
    match t
    case SpeakersList => "speakers_list"
    case ModeratedCaucus => "moderated_caucus"
    case UnmoderatedCaucus => "unmoderated_caucus"
  }

  /** Reads a motion type back from its tag; any other string is no motion type. */
  function ParseTypeTag(s: string): (r: Option<MotionType>)
    ensures r.Some? <==> s == "speakers_list" || s == "moderated_caucus" || s == "unmoderated_caucus"
    ensures r.Some? ==> TypeTag(r.value) == s
  {
    if s == "speakers_list" then Some(SpeakersList)
    else if s == "moderated_caucus" then Some(ModeratedCaucus)
    else if s == "unmoderated_caucus" then Some(UnmoderatedCaucus)
    else None
  }

  /** Every motion type is read back from its own tag, so distinct types have distinct tags. */
  lemma TypeTagRoundTrip(t: MotionType)
    ensures ParseTypeTag(TypeTag(t)) == Some(t)
  {
  }

  datatype Vote = Yay | Nay

  datatype VoteRecord = VoteRecord(motionId: string, vote: Vote)

  datatype SpeakingRecord = SpeakingRecord(motionId: string, motionType: string)

  datatype Delegate = Delegate(
    id: string,
    delegationName: string,
    delegateName: string,
    votingHistory: seq<VoteRecord>,
    speakingHistory: seq<SpeakingRecord>)

  /** The motion being executed: a proposed motion without its id and its vote counts. */
  datatype ActiveMotion = ActiveMotion(
    motionType: MotionType,
    proposer: string,
    totalTime: Option<int>,
    speakingTime: Option<int>,
    speakerCount: Option<int>)

  datatype ProposedMotion = ProposedMotion(
    id: string,
    motionType: MotionType,
    proposer: string,
    totalTime: Option<int>,
    speakingTime: Option<int>,
    speakerCount: Option<int>,
    yayVotes: int,
    nayVotes: int)

  /** The active motion a passing proposal becomes: type, proposer and the three optional
      fields carry over; id and vote counts are dropped. */
  function Promote(m: ProposedMotion): ActiveMotion {
    ActiveMotion(m.motionType, m.proposer, m.totalTime, m.speakingTime, m.speakerCount)
  }

  datatype SessionStatus = Setup | AwaitingMotion | InMotion

  datatype SessionState = SessionState(
    status: SessionStatus,
    delegates: seq<Delegate>,
    activeMotion: Option<ActiveMotion>,
    proposedMotions: seq<ProposedMotion>)

  /** The session's invariant: a motion is active exactly in `InMotion`, and then nothing is queued. */
  predicate Consistent(s: SessionState) {
    && (s.status == InMotion <==> s.activeMotion.Some?)
    && (s.status == InMotion ==> s.proposedMotions == [])
  }

  /** `delegates.find(d => d.id === id)`: the first delegate with that id, if any. */
  function DelegateById(delegates: seq<Delegate>, id: string): (r: Option<Delegate>)
    ensures r.None? <==> forall i :: 0 <= i < |delegates| ==> delegates[i].id != id
    ensures r.Some? ==> exists i :: 0 <= i < |delegates| && delegates[i] == r.value && r.value.id == id
                                   && forall j :: 0 <= j < i ==> delegates[j].id != id
  {
    ArrayOps.Find(delegates, (d: Delegate) => d.id == id)
  }
}
