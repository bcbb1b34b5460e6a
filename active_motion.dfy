/**
 * The screen of the motion being executed: its type, its proposer, a row for
 * each of its times and its speaker count, and the content for its type (the
 * caucus timer, the speaking-slot board, or the speakers list).
 */
module ActiveMotionScreen {
  import opened Wrappers
  import opened Types
  import opened Text
  import opened Formatting
  import MotionProposal
  import Caucus
  import SpeakingTimer

  /** The three optional fields the details block may show. */
  datatype DetailField = TotalTimeField | SpeakingTimeField | SpeakerCountField

  function FieldValue(m: ActiveMotion, k: DetailField): Option<int> {
    match k
    case TotalTimeField => m.totalTime
    case SpeakingTimeField => m.speakingTime
    case SpeakerCountField => m.speakerCount
  }

  function Caption(k: DetailField): string {
    match k
    case TotalTimeField => "Total Time:"
    case SpeakingTimeField => "Speaking Time:"
    case SpeakerCountField => "Number of Speakers:"
  }

  /** Times are shown as durations, the speaker count as a plain number. */
  function ShowValue(k: DetailField, n: int): string {
    if k == SpeakerCountField then IntToString(n) else FormatDuration(n)
  }

  /** Each field has a caption of its own. */
  lemma CaptionsDiffer(k: DetailField, l: DetailField)
    ensures Caption(k) == Caption(l) <==> k == l
  {
    assert |Caption(TotalTimeField)| == 11;
    assert |Caption(SpeakingTimeField)| == 14;
    assert |Caption(SpeakerCountField)| == 19;
  }

  /** What the details block holds: a captioned row, or a bare text node. */
  datatype DetailNode = Row(caption: string, value: string) | StrayText(text: string)

  /** `{value && <row/>}` as written: an absent field renders nothing, a field holding 0
      renders the number itself as a text node, any other value renders its row. */
  function GuardedRow(v: Option<int>, k: DetailField): seq<DetailNode> {
    match v
    case None => []
    case Some(n) => if n == 0 then [StrayText(IntToString(n))] else [Row(Caption(k), ShowValue(k, n))]
  }

  /** The details block as written, fields in screen order. */
  function RenderedDetails(m: ActiveMotion): seq<DetailNode> {
    GuardedRow(m.totalTime, TotalTimeField) + GuardedRow(m.speakingTime, SpeakingTimeField)
    + GuardedRow(m.speakerCount, SpeakerCountField)
  }

  predicate HasZeroField(m: ActiveMotion) {
    m.totalTime == Some(0) || m.speakingTime == Some(0) || m.speakerCount == Some(0)
  }

  /** As written, the block shows a bare "0" exactly when one of the fields holds 0, and that is
      the only bare text it ever shows. */
  lemma StrayZeroIff(m: ActiveMotion)
    ensures StrayText("0") in RenderedDetails(m) <==> HasZeroField(m)
    ensures forall node :: node in RenderedDetails(m) && node.StrayText? ==> node == StrayText("0")
  {
    assert IntToString(0) == "0";
  }

  /** A moderated caucus form where 0 was typed as the total time, then switched to a speakers
      list and filled in, passes the proposal checks, since a speakers list does not look at the
      total time; the motion it becomes shows a bare "0" above its rows. */
  lemma StrayZeroReachable(proposer: string, motionId: string)
    requires proposer != ""
    ensures var form := MotionProposal.MotionFormData(proposer, SpeakersList, Some(60), Some(5), Some(0));
      && form == MotionProposal.ApplyChange(MotionProposal.ApplyChange(MotionProposal.ApplyChange(
           MotionProposal.ApplyChange(MotionProposal.ApplyChange(MotionProposal.ApplyChange(MotionProposal.EmptyForm,
             MotionProposal.SetType(ModeratedCaucus)), MotionProposal.SetTotalTime(0)),
             MotionProposal.SetType(SpeakersList)), MotionProposal.SetSpeakingTime(60)),
             MotionProposal.SetSpeakerCount(5)), MotionProposal.SetProposer(proposer))
      && MotionProposal.SubmitProposal(form, 0, motionId).Emitted?
      && RenderedDetails(Promote(MotionProposal.SubmitProposal(form, 0, motionId).motion))[0] == StrayText("0")
  {
    var form := MotionProposal.MotionFormData(proposer, SpeakersList, Some(60), Some(5), Some(0));
    assert MotionProposal.WellFormed(form);
    assert IntToString(0) == "0";
  }

  /** The rows a field earns when it is present and not zero, which is what the guard is for. */
  function FieldRow(v: Option<int>, k: DetailField): seq<DetailNode> {
    if MotionProposal.Truthy(v) then [Row(Caption(k), ShowValue(k, v.value))] else []
  }

  /** The details block with a row for each present, non-zero field and nothing else. */
  function DetailRows(m: ActiveMotion): seq<DetailNode> {
    FieldRow(m.totalTime, TotalTimeField) + FieldRow(m.speakingTime, SpeakingTimeField)
    + FieldRow(m.speakerCount, SpeakerCountField)
  }

  /** A field has a row exactly when it is present and not zero, the row shows that field's value,
      and the block holds nothing but rows. */
  lemma DetailRowsShowTruthyFields(m: ActiveMotion, k: DetailField)
    ensures forall node :: node in DetailRows(m) ==> node.Row?
    ensures (exists node :: node in DetailRows(m) && node.caption == Caption(k)) <==> MotionProposal.Truthy(FieldValue(m, k))
    ensures MotionProposal.Truthy(FieldValue(m, k)) ==> Row(Caption(k), ShowValue(k, FieldValue(m, k).value)) in DetailRows(m)
  {
    CaptionsDiffer(k, TotalTimeField);
    CaptionsDiffer(k, SpeakingTimeField);
    CaptionsDiffer(k, SpeakerCountField);
    if MotionProposal.Truthy(FieldValue(m, k)) {
      assert Row(Caption(k), ShowValue(k, FieldValue(m, k).value)) in FieldRow(FieldValue(m, k), k);
    }
  }

  /** The block holds one row at most per field, and nothing but rows. */
  lemma DetailRowsAreRows(m: ActiveMotion)
    ensures |DetailRows(m)| <= 3
    ensures forall node :: node in DetailRows(m) ==> node.Row?
  {
  }

  /** When no field holds 0 the block as written is the block of rows. */
  lemma RenderingAgreesWithoutZeros(m: ActiveMotion)
    ensures !HasZeroField(m) ==> RenderedDetails(m) == DetailRows(m)
  {
  }

  /** What the lower part of the screen holds for each motion type. */
  datatype MotionContent =
    | UnmoderatedContent(timerDuration: int, minutesShown: int)
    | ModeratedContent(slots: seq<Caucus.SpeakerSlot>)
    | SpeakersListContent

  /** `renderMotionContent`: exactly one content per motion type. The unmoderated caucus gets a
      timer over the total time (0 when unset) and the whole minutes in it; the moderated caucus
      its slot board. */
  function RenderMotionContent(m: ActiveMotion): (r: MotionContent)
    ensures r.UnmoderatedContent? <==> m.motionType == UnmoderatedCaucus
    ensures r.ModeratedContent? <==> m.motionType == ModeratedCaucus
    ensures r.SpeakersListContent? <==> m.motionType == SpeakersList
    ensures r.UnmoderatedContent? ==>
              && r.timerDuration == m.totalTime.GetOr(0)
              && (MotionProposal.Truthy(m.totalTime) ==> 60 * r.minutesShown <= r.timerDuration < 60 * r.minutesShown + 60)
              && (!MotionProposal.Truthy(m.totalTime) ==> r.minutesShown == 0)
    ensures r.ModeratedContent? ==> r.slots == Caucus.InitialSlots(Caucus.SpeakerCount(m.totalTime, m.speakingTime))
  {
    match m.motionType
    case UnmoderatedCaucus =>
      var minutes := if MotionProposal.Truthy(m.totalTime) then Caucus.FloorDiv(m.totalTime.value, 60) else 0;
      UnmoderatedContent(m.totalTime.GetOr(0), minutes)
    case ModeratedCaucus => ModeratedContent(Caucus.InitialSlots(Caucus.SpeakerCount(m.totalTime, m.speakingTime)))
    case SpeakersList => SpeakersListContent
  }

  /** A motion that was queued and then passed starts with usable content: an unmoderated caucus
      timer of 30 seconds to an hour that, once started and left running, ends after exactly its
      total time, firing its end once; a moderated caucus board of 1 to 120 empty slots, numbered
      from 1, whose speaking times add up to the total time. */
  lemma PassedMotionContent(form: MotionProposal.MotionFormData, currentMotionCount: int, motionId: string)
    requires MotionProposal.SubmitProposal(form, currentMotionCount, motionId).Emitted?
    ensures var c := RenderMotionContent(Promote(MotionProposal.SubmitProposal(form, currentMotionCount, motionId).motion));
      && (c.UnmoderatedContent? ==>
            && 30 <= c.timerDuration <= 3600
            && SpeakingTimer.Ticks(SpeakingTimer.TimerState(c.timerDuration, true, false), c.timerDuration)
               == (SpeakingTimer.TimerState(0, false, false), 1))
      && (c.ModeratedContent? ==>
            && 1 <= |c.slots| <= 120
            && |c.slots| * form.speakingTime.value == form.totalTime.value
            && forall i :: 0 <= i < |c.slots| ==> c.slots[i].id == i + 1 && !c.slots[i].isComplete)
  {
    var c := RenderMotionContent(Promote(MotionProposal.SubmitProposal(form, currentMotionCount, motionId).motion));
    if c.UnmoderatedContent? {
      SpeakingTimer.StartedTimerEnds(c.timerDuration, 0);
    } else if c.ModeratedContent? {
      Caucus.ValidCaucusSlotsFillTime(form);
    }
  }

  /** Everything the screen shows about the motion. */
  datatype ActiveView = ActiveView(
    heading: string,
    proposerLine: string,
    details: seq<DetailNode>,
    content: MotionContent)

  /** The screen for the active motion, with the corrected details block showing only rows; it
      differs from the block as written only for a motion with a field holding 0. */
  function ActiveMotionView(m: ActiveMotion, delegates: seq<Delegate>): (r: ActiveView)
    ensures forall node :: node in r.details ==> node.Row?
    ensures |r.details| <= 3
    ensures !HasZeroField(m) ==> r.details == RenderedDetails(m)
    ensures r.content == RenderMotionContent(m)
    ensures r.proposerLine == ProposerLine(delegates, m.proposer)
  {
    DetailRowsAreRows(m);
    RenderingAgreesWithoutZeros(m);
    ActiveView(FormatMotionType(TypeTag(m.motionType)), ProposerLine(delegates, m.proposer), DetailRows(m),
               RenderMotionContent(m))
  }
}
