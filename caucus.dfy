/**
 * The moderated caucus: the caucus time is cut into speaking slots of equal
 * length; the chair assigns a delegate to each slot and marks slots complete,
 * by hand or when the slot's timer runs out.
 */
module Caucus {
  import opened Wrappers
  import opened Types
  import MotionProposal
  import SpeakingTimer

  /** `Math.floor(a / b)` on whole numbers, for a divisor of either sign. */
  function FloorDiv(a: int, b: int): (q: int)
    requires b != 0
    ensures b > 0 ==> b * q <= a < b * q + b
    ensures b < 0 ==> b * q + b < a <= b * q
  {
    if b > 0 then a / b else (-a) / (-b)
  }

  /** The number of speakers: how many whole speaking times fit in the total time when both
      are set and non-zero, and no speakers otherwise. */
  function SpeakerCount(totalTime: Option<int>, speakingTime: Option<int>): (r: int)
    ensures !(MotionProposal.Truthy(totalTime) && MotionProposal.Truthy(speakingTime)) ==> r == 0
    ensures MotionProposal.Truthy(totalTime) && MotionProposal.Truthy(speakingTime) && speakingTime.value > 0 ==>
              speakingTime.value * r <= totalTime.value < speakingTime.value * (r + 1)
  {
    if MotionProposal.Truthy(totalTime) && MotionProposal.Truthy(speakingTime)
    then FloorDiv(totalTime.value, speakingTime.value)
    else 0
  }

  /** A moderated caucus that passed the proposal checks is cut into between 1 and 120 slots
      that fill its total time exactly. */
  lemma ValidCaucusSlotsFillTime(form: MotionProposal.MotionFormData)
    requires MotionProposal.WellFormed(form) && form.motionType == ModeratedCaucus
    ensures var n := SpeakerCount(form.totalTime, form.speakingTime);
      1 <= n <= 120 && n * form.speakingTime.value == form.totalTime.value
  {
    var total, speaking := form.totalTime.value, form.speakingTime.value;
    var n := SpeakerCount(form.totalTime, form.speakingTime);
    assert n == total / speaking;
    assert total == speaking * n + total % speaking;
    assert n * speaking == total;
  }

  /** `Array.from({ length: n })` makes no slots for a negative `n`. */
  function SlotCount(speakerCount: int): nat {
    if speakerCount < 0 then 0 else speakerCount
  }

  datatype SpeakerSlot = SpeakerSlot(id: int, selectedDelegate: Option<Delegate>, isComplete: bool)

  /** The slots a caucus starts with: ids 1, 2, ... in order, nobody assigned, nothing complete. */
  function InitialSlots(speakerCount: int): (r: seq<SpeakerSlot>)
    ensures |r| == SlotCount(speakerCount)
    ensures forall i :: 0 <= i < |r| ==> r[i].id == i + 1 && r[i].selectedDelegate.None? && !r[i].isComplete
  {
    seq(SlotCount(speakerCount), i => SpeakerSlot(i + 1, None, false))
  }

  /** One slot after a delegate is chosen for slot `slotId`. */
  function SelectSlot(slot: SpeakerSlot, slotId: int, delegate: Option<Delegate>): SpeakerSlot {
    if slot.id == slotId then slot.(selectedDelegate := delegate) else slot
  }

  /** One slot after slot `slotId` is marked complete. */
  function CompleteSlot(slot: SpeakerSlot, slotId: int): SpeakerSlot {
    if slot.id == slotId then slot.(isComplete := true) else slot
  }

  /** `handleDelegateSelect` on the whole list: the slots with that id get the delegate (or
      nobody, when the id matches no delegate); the others stay as they were. */
  function WithDelegate(slots: seq<SpeakerSlot>, slotId: int, delegate: Option<Delegate>): (r: seq<SpeakerSlot>)
    ensures |r| == |slots|
    ensures forall i :: 0 <= i < |slots| ==> r[i].id == slots[i].id && r[i].isComplete == slots[i].isComplete
    ensures forall i :: 0 <= i < |slots| && slots[i].id != slotId ==> r[i] == slots[i]
    ensures forall i :: 0 <= i < |slots| && slots[i].id == slotId ==> r[i].selectedDelegate == delegate
  {
    seq(|slots|, i requires 0 <= i < |slots| => SelectSlot(slots[i], slotId, delegate))
  }

  /** `handleSpeakerComplete` on the whole list. */
  function MarkComplete(slots: seq<SpeakerSlot>, slotId: int): (r: seq<SpeakerSlot>)
    ensures |r| == |slots|
    ensures forall i :: 0 <= i < |slots| ==> r[i].id == slots[i].id && r[i].selectedDelegate == slots[i].selectedDelegate
    ensures forall i :: 0 <= i < |slots| ==> (r[i].isComplete <==> slots[i].isComplete || slots[i].id == slotId)
  {
    seq(|slots|, i requires 0 <= i < |slots| => CompleteSlot(slots[i], slotId))
  }

  /** Completing a slot twice is completing it once. */
  lemma MarkCompleteIdempotent(slots: seq<SpeakerSlot>, slotId: int)
    ensures MarkComplete(MarkComplete(slots, slotId), slotId) == MarkComplete(slots, slotId)
  {
    var once := MarkComplete(slots, slotId);
    var twice := MarkComplete(once, slotId);
    assert forall i :: 0 <= i < |slots| ==> twice[i] == once[i];
  }

  /** The slot list after the handlers of the slot timer for `slotId` have fired `signals`
      times; each of them runs `handleSpeakerComplete`. */
  function AfterSignals(slots: seq<SpeakerSlot>, slotId: int, signals: nat): seq<SpeakerSlot>
    decreases signals
  {
    if signals == 0 then slots else MarkComplete(AfterSignals(slots, slotId, signals - 1), slotId)
  }

  /** However often the slot timer signals, once it has, the slot is complete and nothing else
      has changed. */
  lemma {:induction false} SignalsCompleteOnce(slots: seq<SpeakerSlot>, slotId: int, signals: nat)
    requires signals > 0
    ensures AfterSignals(slots, slotId, signals) == MarkComplete(slots, slotId)
    decreases signals
  {
    if signals > 1 {
      SignalsCompleteOnce(slots, slotId, signals - 1);
      MarkCompleteIdempotent(slots, slotId);
    }
  }

  /** A speech ends the same way whether the slot timer runs out or the chair completes it by
      hand: a started timer left to run signals its end once after its duration, however long it
      is left afterwards, the button signals once, and either way the slot is marked complete. */
  lemma ExpiryAndButtonAgree(slots: seq<SpeakerSlot>, slotId: int, duration: int, extra: nat)
    requires duration > 0
    ensures var expired := SpeakingTimer.Ticks(SpeakingTimer.TimerState(duration, true, false), duration + extra);
      && expired.0 == SpeakingTimer.TimerState(0, false, false)
      && AfterSignals(slots, slotId, expired.1) == AfterSignals(slots, slotId, 1) == MarkComplete(slots, slotId)
  {
    SpeakingTimer.StartedTimerEnds(duration, extra);
    SignalsCompleteOnce(slots, slotId, 1);
  }

  /** `speakerSlots.filter(slot => slot.isComplete).length`. */
  function CountComplete(slots: seq<SpeakerSlot>): (r: nat)
    ensures r <= |slots|
    ensures r == 0 <==> forall i :: 0 <= i < |slots| ==> !slots[i].isComplete
    ensures r == |slots| <==> forall i :: 0 <= i < |slots| ==> slots[i].isComplete
  {
    if slots == [] then 0
    else
      var rest := CountComplete(slots[1..]);
      assert forall i :: 1 <= i < |slots| ==> slots[i] == slots[1..][i - 1];
      (if slots[0].isComplete then 1 else 0) + rest
  }

  /** Marking a slot complete never lowers the progress count, and raises it when a slot with
      that id was still open. */
  lemma {:induction false} CompletionMonotone(slots: seq<SpeakerSlot>, slotId: int)
    ensures CountComplete(slots) <= CountComplete(MarkComplete(slots, slotId))
    ensures (exists i :: 0 <= i < |slots| && slots[i].id == slotId && !slots[i].isComplete) ==>
              CountComplete(slots) < CountComplete(MarkComplete(slots, slotId))
    decreases |slots|
  {
    if slots != [] {
      var marked := MarkComplete(slots, slotId);
      assert marked[1..] == MarkComplete(slots[1..], slotId);
      CompletionMonotone(slots[1..], slotId);
      if exists i :: 0 <= i < |slots| && slots[i].id == slotId && !slots[i].isComplete {
        var i :| 0 <= i < |slots| && slots[i].id == slotId && !slots[i].isComplete;
        if i > 0 {
          assert slots[1..][i - 1] == slots[i];
        }
      }
    }
  }

  /** Choosing a delegate does not change the progress count. */
  lemma {:induction false} SelectionKeepsProgress(slots: seq<SpeakerSlot>, slotId: int, delegate: Option<Delegate>)
    ensures CountComplete(WithDelegate(slots, slotId, delegate)) == CountComplete(slots)
    decreases |slots|
  {
    if slots != [] {
      assert WithDelegate(slots, slotId, delegate)[1..] == WithDelegate(slots[1..], slotId, delegate);
      SelectionKeepsProgress(slots[1..], slotId, delegate);
    }
  }

  /** The slot board of one moderated caucus; `slots` is the `speakerSlots` state, updated in place. */
  class SlotBoard {
    const speakerCount: int
    const delegates: seq<Delegate>
    const slots: array<SpeakerSlot>

    /** The board keeps one slot per speaker, numbered from 1 in order. */
    ghost predicate Valid()
      reads this, slots
    {
      && slots.Length == SlotCount(speakerCount)
      && forall i :: 0 <= i < slots.Length ==> slots[i].id == i + 1
    }

    constructor (motion: ActiveMotion, delegates: seq<Delegate>)
      ensures speakerCount == SpeakerCount(motion.totalTime, motion.speakingTime)
      ensures this.delegates == delegates
      ensures fresh(slots) && slots[..] == InitialSlots(speakerCount)
      ensures Valid()
    {
      var count := SpeakerCount(motion.totalTime, motion.speakingTime);
      speakerCount := count;
      this.delegates := delegates;
      slots := new SpeakerSlot[SlotCount(count)](i => SpeakerSlot(i + 1, None, false));
    }

    /** `completedSpeakers`: the progress shown above the board, never more than the slots. */
    function CompletedSpeakers(): (r: nat)
      reads this, slots
      ensures r <= slots.Length
      ensures Valid() && speakerCount >= 0 ==> r <= speakerCount
    {
      CountComplete(slots[..])
    }

    /** `handleDelegateSelect`: the delegate with the chosen id (or nobody) goes into the slot
        with the given id. */
    method SelectDelegate(slotId: int, delegateId: string)
      modifies slots
      ensures slots[..] == WithDelegate(old(slots[..]), slotId, DelegateById(delegates, delegateId))
      ensures old(Valid()) ==> Valid()
      ensures CompletedSpeakers() == old(CompletedSpeakers())
    {
      var delegate := DelegateById(delegates, delegateId);
      for i := 0 to slots.Length
        invariant forall j :: 0 <= j < i ==> slots[j] == SelectSlot(old(slots[j]), slotId, delegate)
        invariant forall j :: i <= j < slots.Length ==> slots[j] == old(slots[j])
      {
        if slots[i].id == slotId {
          slots[i] := slots[i].(selectedDelegate := delegate);
        }
      }
      SelectionKeepsProgress(old(slots[..]), slotId, delegate);
    }

    /** `handleSpeakerComplete`, which both the slot timer's end and its "Complete Speech"
        button call: the slot with the given id is marked complete. */
    method CompleteSpeaker(slotId: int)
      modifies slots
      ensures slots[..] == MarkComplete(old(slots[..]), slotId)
      ensures old(Valid()) ==> Valid()
      ensures old(CompletedSpeakers()) <= CompletedSpeakers()
    {
      for i := 0 to slots.Length
        invariant forall j :: 0 <= j < i ==> slots[j] == CompleteSlot(old(slots[j]), slotId)
        invariant forall j :: i <= j < slots.Length ==> slots[j] == old(slots[j])
      {
        if slots[i].id == slotId {
          slots[i] := slots[i].(isComplete := true);
        }
      }
      CompletionMonotone(old(slots[..]), slotId);
    }

    /** What the slot timer of `slotId` does to the board: one second of its interval, or the
        chair's "Complete Speech" button. `onTimerEnd` and `onTimerComplete` are both
        `handleSpeakerComplete(slot.id)`, so the slot is completed whenever either fires. */
    method SlotTimerEvent(timer: SpeakingTimer.Timer, slotId: int, button: bool)
      modifies slots, timer
      ensures button ==> timer.State() == old(timer.State()).(timeLeft := 0, isRunning := false)
      ensures !button ==> timer.State() == SpeakingTimer.TickStep(old(timer.State())).0
      ensures var fired := button || SpeakingTimer.TickStep(old(timer.State())).1;
        slots[..] == AfterSignals(old(slots[..]), slotId, if fired then 1 else 0)
      ensures old(Valid()) ==> Valid()
    {
      var fired;
      if button {
        fired := timer.Complete();
      } else {
        fired := timer.Tick();
      }
      if fired {
        CompleteSpeaker(slotId);
      }
    }
  }
}
