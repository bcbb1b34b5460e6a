/**
 * The session dashboard: the queue of proposed motions, each listed with a
 * numbered heading, its proposer and a one-line summary of its times, and the
 * sidebar control that offers a new proposal while fewer than three motions
 * are queued.
 */
module Dashboard {
  import opened Wrappers
  import opened Types
  import opened Text
  import opened Formatting
  import MotionProposal

  /** `${motion.speakerCount}`: a count that was never entered prints as "undefined". */
  function CountText(count: Option<int>): (r: string)
    ensures r == "undefined" <==> count.None?
    ensures count.Some? ==> r != [] && (r[0] == '-' || IsDigit(r[0]))
  {
    match count
    case None => "undefined"
    case Some(n) =>
      assert n >= 0 ==> IsDigit(NatToString(n)[0]);
      IntToString(n)
  }

  /** Different counts print differently. */
  lemma CountTextInjective(a: Option<int>, b: Option<int>)
    ensures CountText(a) == CountText(b) <==> a == b
  {
    if CountText(a) == CountText(b) && a.Some? && b.Some? {
      IntToStringInjective(a.value, b.value);
    }
  }

  /** No duration text holds a comma, so the comma in a summary line marks where its first
      duration ends. */
  lemma NoCommaInDuration(seconds: int)
    ensures ',' !in FormatDuration(seconds)
  {
    DurationShape(seconds);
    var lead := NatToString(DurationLead(seconds));
    assert forall i :: 0 <= i < |lead| ==> lead[i] != ',';
    if seconds >= 60 && seconds % 60 != 0 {
      var rest := NatToString(seconds % 60);
      assert forall i :: 0 <= i < |rest| ==> rest[i] != ',';
      assert DurationTail(seconds) == "min " + rest + "s";
    }
  }

  /** `formatMotionDetails`: the summary line of a queued motion, built from the fields its type
      uses; a time that was never entered reads as 0 seconds. */
  function FormatMotionDetails(m: ProposedMotion): string {
    match m.motionType
    case SpeakersList =>
      FormatDuration(m.speakingTime.GetOr(0)) + " speaking time, " + CountText(m.speakerCount) + " speakers"
    case ModeratedCaucus =>
      FormatDuration(m.totalTime.GetOr(0)) + " total, " + FormatDuration(m.speakingTime.GetOr(0)) + " speaking time"
    case UnmoderatedCaucus =>
      FormatDuration(m.totalTime.GetOr(0)) + " total"
  }

  /** The values the summary line of a motion's type shows, in the order it shows them. */
  function ShownValues(m: ProposedMotion): (Option<int>, Option<int>) {
    match m.motionType
    case SpeakersList => (Some(m.speakingTime.GetOr(0)), m.speakerCount)
    case ModeratedCaucus => (Some(m.totalTime.GetOr(0)), Some(m.speakingTime.GetOr(0)))
    case UnmoderatedCaucus => (Some(m.totalTime.GetOr(0)), None)
  }

  /** The speakers-list line tells speaking times and counts apart. */
  lemma SpeakersLineInjective(s1: int, c1: Option<int>, s2: int, c2: Option<int>)
    ensures (FormatDuration(s1) + " speaking time, " + CountText(c1) + " speakers" ==
             FormatDuration(s2) + " speaking time, " + CountText(c2) + " speakers") <==> s1 == s2 && c1 == c2
  {
    var p, a, b, x, y := " speaking time, ", FormatDuration(s1), FormatDuration(s2), CountText(c1), CountText(c2);
    if a + p + x + " speakers" == b + p + y + " speakers" {
      NoCommaInDuration(s1);
      NoCommaInDuration(s2);
      assert p[14] == ',' && ',' !in p[..14];
      TwoFieldLine(a, x, b, y, p, " speakers", 14, ',');
      FormatDurationInjective(s1, s2);
      CountTextInjective(c1, c2);
    }
  }

  /** The moderated-caucus line tells total and speaking times apart. */
  lemma ModeratedLineInjective(t1: int, s1: int, t2: int, s2: int)
    ensures (FormatDuration(t1) + " total, " + FormatDuration(s1) + " speaking time" ==
             FormatDuration(t2) + " total, " + FormatDuration(s2) + " speaking time") <==> t1 == t2 && s1 == s2
  {
    var p := " total, ";
    if FormatDuration(t1) + p + FormatDuration(s1) + " speaking time" == FormatDuration(t2) + p + FormatDuration(s2) + " speaking time" {
      NoCommaInDuration(t1);
      NoCommaInDuration(t2);
      assert p[6] == ',' && ',' !in p[..6];
      TwoFieldLine(FormatDuration(t1), FormatDuration(s1), FormatDuration(t2), FormatDuration(s2), p, " speaking time", 6, ',');
      FormatDurationInjective(t1, t2);
      FormatDurationInjective(s1, s2);
    }
  }

  /** The unmoderated-caucus line tells total times apart. */
  lemma UnmoderatedLineInjective(t1: int, t2: int)
    ensures FormatDuration(t1) + " total" == FormatDuration(t2) + " total" <==> t1 == t2
  {
    var a, b := FormatDuration(t1), FormatDuration(t2);
    if a + " total" == b + " total" {
      assert a == (a + " total")[..|a|] && b == (b + " total")[..|b|];
      FormatDurationInjective(t1, t2);
    }
  }

  /** Two motions of the same type have the same summary line exactly when the fields their type
      uses agree, a missing time counting as 0: the other fields are ignored, and nothing the
      line shows is lost. */
  lemma DetailsShowExactlyRelevantFields(m: ProposedMotion, n: ProposedMotion)
    requires m.motionType == n.motionType
    ensures FormatMotionDetails(m) == FormatMotionDetails(n) <==> ShownValues(m) == ShownValues(n)
  {
    match m.motionType
    case SpeakersList =>
      SpeakersLineInjective(m.speakingTime.GetOr(0), m.speakerCount, n.speakingTime.GetOr(0), n.speakerCount);
    case ModeratedCaucus =>
      ModeratedLineInjective(m.totalTime.GetOr(0), m.speakingTime.GetOr(0), n.totalTime.GetOr(0), n.speakingTime.GetOr(0));
    case UnmoderatedCaucus =>
      UnmoderatedLineInjective(m.totalTime.GetOr(0), n.totalTime.GetOr(0));
  }

  /** The heading of the motion at position `index` of the queue: "Motion {index + 1}: {type}". */
  function MotionHeading(index: nat, m: ProposedMotion): string {
    "Motion " + NatToString(index + 1) + ": " + FormatMotionType(TypeTag(m.motionType))
  }

  /** The headings of the listed motions, in queue order. */
  function MotionHeadings(queue: seq<ProposedMotion>): (r: seq<string>)
    ensures |r| == |queue|
    ensures forall i :: 0 <= i < |queue| ==> r[i] == MotionHeading(i, queue[i])
  {
    seq(|queue|, i requires 0 <= i < |queue| => MotionHeading(i, queue[i]))
  }

  /** The numbering tells the listed motions apart: two positions of the queue never share a
      heading, even for motions of the same type. */
  lemma HeadingsNumberDistinctly(queue: seq<ProposedMotion>, i: nat, j: nat)
    requires i < |queue| && j < |queue|
    ensures MotionHeadings(queue)[i] == MotionHeadings(queue)[j] <==> i == j
  {
    NumberedHeadingsDiffer(i, j, FormatMotionType(TypeTag(queue[i].motionType)),
                           FormatMotionType(TypeTag(queue[j].motionType)));
  }

  lemma NumberedHeadingsDiffer(i: nat, j: nat, li: string, lj: string)
    ensures "Motion " + NatToString(i + 1) + ": " + li == "Motion " + NatToString(j + 1) + ": " + lj <==>
              i == j && li == lj
  {
    PrefixedNumberUnique("Motion ", i + 1, j + 1, ": " + li, ": " + lj);
    assert "Motion " + NatToString(i + 1) + ": " + li == "Motion " + NatToString(i + 1) + (": " + li);
    assert "Motion " + NatToString(j + 1) + ": " + lj == "Motion " + NatToString(j + 1) + (": " + lj);
    if ": " + li == ": " + lj {
      assert li == (": " + li)[2..] && lj == (": " + lj)[2..];
    }
  }

  /** The sidebar control: a button while a proposal can still be queued, a notice once the
      limit is reached. */
  datatype ProposeControl = ProposeButton(caption: string) | LimitReachedNotice

  function ProposeControlFor(queued: nat): (r: ProposeControl)
    ensures r.ProposeButton? <==> queued < MotionProposal.MaxQueuedMotions
    ensures r.ProposeButton? ==> (r.caption == "Propose a Motion" <==> queued == 0)
  {
    if queued < MotionProposal.MaxQueuedMotions then
      ProposeButton(if queued == 0 then "Propose a Motion" else "Propose Another Motion")
    else LimitReachedNotice
  }

  /** The dashboard hands the queue length to the proposal dialog as its motion count, so the
      button is offered exactly when the dialog would not refuse for the limit: with the button
      shown a valid form is queued, and without it every submission is refused with the limit
      error alone. */
  lemma OfferedIffDialogAccepts(queue: seq<ProposedMotion>, form: MotionProposal.MotionFormData, motionId: string)
    ensures ProposeControlFor(|queue|).LimitReachedNotice? <==>
              MotionProposal.SubmitProposal(form, |queue|, motionId) == MotionProposal.Rejected([MotionProposal.TooManyMotions])
    ensures ProposeControlFor(|queue|).ProposeButton? ==>
              (MotionProposal.SubmitProposal(form, |queue|, motionId).Emitted? <==> MotionProposal.WellFormed(form))
  {
    var r := MotionProposal.SubmitProposal(form, |queue|, motionId);
    if |queue| < MotionProposal.MaxQueuedMotions && r.Rejected? {
      assert MotionProposal.TooManyMotions in [MotionProposal.TooManyMotions];
    }
  }
}
