/**
 * Proposing a motion: the form's data, the validation both proposal
 * components share (the modal and the inline form carry identical copies of
 * it), the cap of three queued motions enforced at submission, and the two
 * components' form state.
 */
module MotionProposal {
  import opened Wrappers
  import opened Types

  /** The fields being filled in. A number field that was never touched is absent. */
  datatype MotionFormData = MotionFormData(
    proposer: string,
    motionType: MotionType,
    speakingTime: Option<int>,
    speakerCount: Option<int>,
    totalTime: Option<int>)

  /** The form as it starts and as it is reset: no proposer, a speakers list, no numbers. */
  const EmptyForm := MotionFormData("", SpeakersList, None, None, None)

  /** The most motions that may be queued at once. */
  const MaxQueuedMotions := 3

  /** One entry of the error list, one per distinct message the components show. */
  datatype ProposalError =
    | ProposerMissing            // no proposing delegation selected
    | SpeechTimeOutOfRange       // speakers list: speaking time outside 30 s .. 60 min
    | SpeakerCountOutOfRange     // speakers list: number of speakers outside 1 .. 20
    | TotalTimeOutOfRange        // either caucus: total time outside 30 s .. 60 min
    | CaucusSpeechTimeOutOfRange // moderated caucus: speaking time outside 30 .. 300 s
    | TotalNotDivisible          // moderated caucus: total time not a multiple of speaking time
    | TooManyMotions             // three motions are already queued

  /** JavaScript truthiness of an optional number: present and not zero. */
  predicate Truthy(v: Option<int>) {
    v.Some? && v.value != 0
  }

  /** The range test as the components write it: `!v || v < lo || v > hi`. */
  predicate FailsRange(v: Option<int>, lo: int, hi: int) {
    !Truthy(v) || v.value < lo || v.value > hi
  }

  /** JavaScript's `a % b`, whose sign follows the dividend. It is zero exactly when Dafny's
      (Euclidean) remainder is, so the divisibility test reads the same under either. */
  function JsRemainder(a: int, b: int): (r: int)
    requires b != 0
    ensures r == 0 <==> a % b == 0
  {
    var m := if b < 0 then -b else b;
    DivisibleByMagnitude(a, b);
    DivisibleUnderNegation(a, m);
    if a >= 0 then a % m else -((-a) % m)
  }

  /** A multiple of `m` leaves no remainder. */
  lemma MultipleHasNoRemainder(m: int, q: int)
    requires m > 0
    ensures (m * q) % m == 0
  {
    var x := m * q;
    var k := q - x / m;
    assert x % m == m * k by {
      assert x == m * (x / m) + x % m;
      assert m * q - m * (x / m) == m * (q - x / m);
    }
    if k >= 1 || k <= -1 {
      assert false;
    }
  }

  lemma DivisibleUnderNegation(a: int, m: int)
    requires m > 0
    ensures (-a) % m == 0 <==> a % m == 0
  {
    if a % m == 0 {
      assert a == m * (a / m);
      assert -a == m * -(a / m);
      MultipleHasNoRemainder(m, -(a / m));
    }
    if (-a) % m == 0 {
      assert -a == m * ((-a) / m);
      assert a == m * -((-a) / m);
      MultipleHasNoRemainder(m, -((-a) / m));
    }
  }

  lemma DivisibleByMagnitude(a: int, b: int)
    requires b != 0
    ensures a % b == 0 <==> a % (if b < 0 then -b else b) == 0
  {
    var m := if b < 0 then -b else b;
    if a % b == 0 {
      assert a == b * (a / b);
      if b < 0 {
        assert a == m * -(a / b);
        MultipleHasNoRemainder(m, -(a / b));
      }
    }
    if a % m == 0 {
      assert a == m * (a / m);
      if b < 0 {
        assert a == b * -(a / m);
        assert (b * -(a / m)) % b == 0 by {
          var x := b * -(a / m);
          var k := -(a / m) - x / b;
          assert x == b * (x / b) + x % b;
          assert x % b == b * k;
          if k >= 1 || k <= -1 {
            assert false;
          }
        }
      }
    }
  }

  /** The list `validateForm` builds: every failed check in the order the checks are written,
      without stopping at the first. */
  function Violations(form: MotionFormData): (r: seq<ProposalError>)
    ensures TooManyMotions !in r
    ensures ProposerMissing in r <==> form.proposer == ""
  {
    (if form.proposer == "" then [ProposerMissing] else []) + TypeViolations(form)
  }

  /** The checks that depend on the motion type, in the order they run. */
  function TypeViolations(form: MotionFormData): (r: seq<ProposalError>)
    ensures TooManyMotions !in r && ProposerMissing !in r
  {
    match form.motionType
      case SpeakersList =>
        (if FailsRange(form.speakingTime, 30, 3600) then [SpeechTimeOutOfRange] else [])
        + (if FailsRange(form.speakerCount, 1, 20) then [SpeakerCountOutOfRange] else [])
      case ModeratedCaucus =>
        (if FailsRange(form.totalTime, 30, 3600) then [TotalTimeOutOfRange] else [])
        + (if FailsRange(form.speakingTime, 30, 300) then [CaucusSpeechTimeOutOfRange] else [])
        + (if Truthy(form.totalTime) && Truthy(form.speakingTime)
              && JsRemainder(form.totalTime.value, form.speakingTime.value) != 0
           then [TotalNotDivisible] else [])
      case UnmoderatedCaucus =>
        (if FailsRange(form.totalTime, 30, 3600) then [TotalTimeOutOfRange] else [])
  }

  /** `validateForm`: pushes one error per failed check. */
  method CollectErrors(form: MotionFormData) returns (errors: seq<ProposalError>)
    ensures errors == Violations(form)
  {
    errors := [];
    if form.proposer == "" {
      errors := errors + [ProposerMissing];
    }
    match form.motionType {
      case SpeakersList =>
        if FailsRange(form.speakingTime, 30, 3600) {
          errors := errors + [SpeechTimeOutOfRange];
        }
        if FailsRange(form.speakerCount, 1, 20) {
          errors := errors + [SpeakerCountOutOfRange];
        }
      case ModeratedCaucus =>
        if FailsRange(form.totalTime, 30, 3600) {
          errors := errors + [TotalTimeOutOfRange];
        }
        if FailsRange(form.speakingTime, 30, 300) {
          errors := errors + [CaucusSpeechTimeOutOfRange];
        }
        if Truthy(form.totalTime) && Truthy(form.speakingTime) {
          if JsRemainder(form.totalTime.value, form.speakingTime.value) != 0 {
            errors := errors + [TotalNotDivisible];
          }
        }
      case UnmoderatedCaucus =>
        if FailsRange(form.totalTime, 30, 3600) {
          errors := errors + [TotalTimeOutOfRange];
        }
    }
  }

  predicate InRange(v: Option<int>, lo: int, hi: int) {
    v.Some? && lo <= v.value <= hi
  }

  /** What a valid proposal is, stated per motion type: a proposer is chosen, and
      - a speakers list has a speaking time of 30..3600 s and 1..20 speakers;
      - a moderated caucus has a total time of 30..3600 s, a speaking time of 30..300 s,
        and the total is a whole number of speaking times;
      - an unmoderated caucus has a total time of 30..3600 s.
      Fields the type does not use are not looked at. */
  predicate WellFormed(form: MotionFormData) {
    && form.proposer != ""
    && match form.motionType
       case SpeakersList =>
         InRange(form.speakingTime, 30, 3600) && InRange(form.speakerCount, 1, 20)
       case ModeratedCaucus =>
         && InRange(form.totalTime, 30, 3600) && InRange(form.speakingTime, 30, 300)
         && form.totalTime.value % form.speakingTime.value == 0
       case UnmoderatedCaucus =>
         InRange(form.totalTime, 30, 3600)
  }

  /** The form is accepted exactly when it is well formed. */
  lemma ValidIffWellFormed(form: MotionFormData)
    ensures Violations(form) == [] <==> WellFormed(form)
  {
  }

  /** Every check reports on its own: each error is in the list exactly when its own condition
      fails, whatever the other checks find. */
  lemma EveryFailedCheckReported(form: MotionFormData)
    ensures ProposerMissing in Violations(form) <==> form.proposer == ""
    ensures SpeechTimeOutOfRange in Violations(form) <==>
              form.motionType == SpeakersList && FailsRange(form.speakingTime, 30, 3600)
    ensures SpeakerCountOutOfRange in Violations(form) <==>
              form.motionType == SpeakersList && FailsRange(form.speakerCount, 1, 20)
    ensures TotalTimeOutOfRange in Violations(form) <==>
              form.motionType != SpeakersList && FailsRange(form.totalTime, 30, 3600)
    ensures CaucusSpeechTimeOutOfRange in Violations(form) <==>
              form.motionType == ModeratedCaucus && FailsRange(form.speakingTime, 30, 300)
    ensures TotalNotDivisible in Violations(form) <==>
              && form.motionType == ModeratedCaucus && Truthy(form.totalTime) && Truthy(form.speakingTime)
              && form.totalTime.value % form.speakingTime.value != 0
  {
    var head: seq<ProposalError> := if form.proposer == "" then [ProposerMissing] else [];
    var tail := TypeViolations(form);
    assert Violations(form) == head + tail;
    assert forall e :: e in head ==> e == ProposerMissing;
  }

  /** Seven minutes cannot be cut into 45-second turns; it can be cut into one-minute turns. */
  lemma DivisibilityExamples(proposer: string)
    requires proposer != ""
    ensures Violations(MotionFormData(proposer, ModeratedCaucus, Some(45), None, Some(420))) == [TotalNotDivisible]
    ensures Violations(MotionFormData(proposer, ModeratedCaucus, Some(60), None, Some(420))) == []
  {
  }

  /** The proposed motion a valid submission emits: all three optional fields are copied whatever
      the type, and no votes have been counted. */
  function NewMotion(form: MotionFormData, motionId: string): ProposedMotion {
    ProposedMotion(motionId, form.motionType, form.proposer, form.totalTime, form.speakingTime,
                   form.speakerCount, 0, 0)
  }

  datatype SubmitOutcome = Rejected(errors: seq<ProposalError>) | Emitted(motion: ProposedMotion)

  /** `handleSubmit`: with three or more motions queued the submission is refused with a single
      error and the form is not validated; otherwise it is validated and, when valid, a new
      motion is emitted. */
  function SubmitProposal(form: MotionFormData, currentMotionCount: int, motionId: string): (r: SubmitOutcome)
    ensures currentMotionCount >= MaxQueuedMotions ==> r == Rejected([TooManyMotions])
    ensures r.Emitted? <==> currentMotionCount < MaxQueuedMotions && WellFormed(form)
    ensures r.Emitted? ==> && r.motion.id == motionId && r.motion.motionType == form.motionType
                           && r.motion.proposer == form.proposer && r.motion.totalTime == form.totalTime
                           && r.motion.speakingTime == form.speakingTime
                           && r.motion.speakerCount == form.speakerCount
                           && r.motion.yayVotes == 0 && r.motion.nayVotes == 0
    ensures r.Rejected? && currentMotionCount < MaxQueuedMotions ==> r.errors == Violations(form) != []
  {
    ValidIffWellFormed(form);
    if currentMotionCount >= MaxQueuedMotions then Rejected([TooManyMotions])
    else if Violations(form) != [] then Rejected(Violations(form))
    else Emitted(NewMotion(form, motionId))
  }

  /** A change to one field of the form, as its inputs deliver it. Number inputs deliver a number
      (0 for what does not parse), so a touched number field is always present. */
  datatype FieldChange =
    | SetProposer(proposer: string)
    | SetType(motionType: MotionType)
    | SetSpeakingTime(seconds: int)
    | SetSpeakerCount(count: int)
    | SetTotalTime(seconds: int)

  /** `{...prev, [field]: value}`: the named field takes the value, the others keep theirs
      (changing the type does not clear the numbers entered for another type). */
  function ApplyChange(form: MotionFormData, change: FieldChange): (r: MotionFormData) {
    match change
    case SetProposer(p) => form.(proposer := p)
    case SetType(t) => form.(motionType := t)
    case SetSpeakingTime(s) => form.(speakingTime := Some(s))
    case SetSpeakerCount(c) => form.(speakerCount := Some(c))
    case SetTotalTime(s) => form.(totalTime := Some(s))
  }

  /** The proposal dialog shown from the dashboard. */
  class MotionProposalModal {
    var isOpen: bool
    var formData: MotionFormData
    var errors: seq<ProposalError>

    constructor ()
      ensures !isOpen && formData == EmptyForm && errors == []
    {
      isOpen := false;
      formData := EmptyForm;
      errors := [];
    }

    /** Opening the dialog resets the form and the errors; opening an open dialog does nothing. */
    method Open()
      modifies this
      ensures isOpen
      ensures !old(isOpen) ==> formData == EmptyForm && errors == []
      ensures old(isOpen) ==> formData == old(formData) && errors == old(errors)
    {
      if !isOpen {
        formData := EmptyForm;
        errors := [];
      }
      isOpen := true;
    }

    method Close()
      modifies this`isOpen
      ensures !isOpen
    {
      isOpen := false;
    }

    /** `handleInputChange`: the field changes and the error list is cleared. */
    method InputChange(change: FieldChange)
      modifies this`formData, this`errors
      ensures formData == ApplyChange(old(formData), change)
      ensures errors == []
    {
      formData := ApplyChange(formData, change);
      errors := [];
    }

    /** `handleSubmit`: a refusal shows its errors and leaves the dialog open; an accepted proposal
        is handed to the dashboard and the dialog closes. The form itself is left as it was. */
    method Submit(currentMotionCount: int, motionId: string) returns (emitted: Option<ProposedMotion>)
      modifies this`errors, this`isOpen
      ensures match SubmitProposal(formData, currentMotionCount, motionId)
              case Rejected(es) => emitted == None && errors == es && isOpen == old(isOpen)
              case Emitted(m) => emitted == Some(m) && errors == [] && !isOpen
    {
      if currentMotionCount >= MaxQueuedMotions {
        errors := [TooManyMotions];
        return None;
      }
      var found := CollectErrors(formData);
      errors := found;
      if found != [] {
        return None;
      }
      emitted := Some(NewMotion(formData, motionId));
      isOpen := false;
    }
  }

  /** The inline proposal form: the same validation, and a reset after each accepted proposal. */
  class MotionProposalForm {
    var formData: MotionFormData
    var errors: seq<ProposalError>

    constructor ()
      ensures formData == EmptyForm && errors == []
    {
      formData := EmptyForm;
      errors := [];
    }

    /** `handleInputChange`: the field changes and the error list is cleared. */
    method InputChange(change: FieldChange)
      modifies this
      ensures formData == ApplyChange(old(formData), change)
      ensures errors == []
    {
      formData := ApplyChange(formData, change);
      errors := [];
    }

    /** `handleSubmit`: an invalid or over-cap submission never emits a motion; an accepted one
        emits it and resets the form to an empty proposer and a speakers list. */
    method Submit(currentMotionCount: int, motionId: string) returns (emitted: Option<ProposedMotion>)
      modifies this
      ensures match SubmitProposal(old(formData), currentMotionCount, motionId)
              case Rejected(es) => emitted == None && errors == es && formData == old(formData)
              case Emitted(m) => emitted == Some(m) && errors == [] && formData == EmptyForm
    {
      if currentMotionCount >= MaxQueuedMotions {
        errors := [TooManyMotions];
        return None;
      }
      var found := CollectErrors(formData);
      errors := found;
      if found != [] {
        return None;
      }
      emitted := Some(NewMotion(formData, motionId));
      formData := EmptyForm;
    }
  }
}
