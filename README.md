# Model UN session tracker — a Dafny model

This project models the logic of a browser app that a Model UN committee chair uses to run a session.

- **Setup.** The chair enters a roster of 5 to 50 delegations and their delegates. The forms are
  validated: no blank names, and no two delegation names equal once trimmed and lower-cased.
  A valid roster gets the ids `delegate-1`, `delegate-2`, …
- **Proposals.** While the floor is open, motions are proposed through a dialog or an inline form.
  A motion is a speakers list, a moderated caucus or an unmoderated caucus. Each type has its own
  range checks, the moderated caucus also needs its total time to be a whole number of speaking
  times, and at most three motions may wait in the queue.
- **Voting.** Each queued motion has a vote counter. Its yay and nay counts are clamped so that
  together they never exceed the roster.
- **The session.** A complete count with more yays than nays makes the motion active and clears
  the queue. Any other count removes that motion.
- **Running a motion.** The active-motion screen shows the motion's times and then either a
  countdown timer (unmoderated caucus) or a board of speaking slots with one timer per slot
  (moderated caucus). Finishing the motion reopens the floor.

Each component is modelled in the form it has in the source:

- The session's handlers, the two proposal components, the vote counter, the setup screen, the
  timer, the slot board and the time field are classes. Their methods change the fields the
  component keeps in React state, and the methods are proved against specification functions:
  `SubmitProposal`, `SetupErrors`, `TickStep`, `WithDelegate`, `MarkComplete` and others.
- The formatters and screens that only compute text are functions over datatypes.
- Lemmas relate the pieces. Examples: the dialog's cap and the dashboard's button; a passed
  caucus and the timer or slot board it gets; durations and the text that shows them.

JavaScript semantics are written out where they matter:
- truthiness of an optional number (`!x`, `x && …`);
- `x || 0`;
- `Math.floor` and `Math.ceil`;
- the sign of `%`;
- `Array.from` with a negative length;
- `\b\w` in a regular expression;
- `replace` with a string pattern, which changes only the first match;
- `find` returning the first match;
- `new Set(…).size` compared with the array length.

Behaviour of the code that the model keeps as it is:
- A vote that is not complete removes the motion in the session handler, just as a failing vote
  does. Only the counter's submit button holds incomplete counts back.
- The session handlers have no state guards. Finishing works from any state, and adding or voting
  changes the queue whatever the status. The session invariant (a motion is active exactly while
  one is in progress, and nothing is queued then) is preserved by every handler in the state in
  which the app wires it.
- The proposer of a motion is only checked to be non-empty, not to be a delegate on the roster.
- The cap of three queued motions is enforced by the proposal components at submission, using the
  count the dashboard passes in. The session handler appends without a cap.
- A form keeps the numbers typed for another motion type, and an accepted motion carries all three
  optional fields whatever its type.

## Model

| member | source | states |
|---|---|---|
| Types.ParseTypeTag | src/types/index.ts:12 | exactly the three motion-type strings are read as a motion type, each back to the type with that tag |
| Types.TypeTagRoundTrip | src/types/index.ts:12 | every motion type is read back from its own tag, so the three types have three different tags |
| Types.DelegateById | src/components/SessionDashboard.tsx:57-59 | the result is the first delegate whose id is the one asked for, and there is none exactly when no delegate has that id |
| Session.PassingRule | src/App.tsx:36-37 | ties and incomplete counts never pass; a complete count passes exactly when yay is ahead |
| Session.FindMotion | src/App.tsx:33-34 | the first queued motion with the id is found, so the earliest one wins when ids collide, and nothing is found exactly when no queued motion has it |
| Session.RemoveMotion | src/App.tsx:57-60 | exactly the motions with other ids remain; the queue is unchanged when no motion has the id and shrinks when one has |
| Session.RemoveMotionKeepsOrder | src/App.tsx:59 | removal distributes over concatenation, so the motions that stay keep their order |
| Session.Session.constructor | src/App.tsx:9-14 | the initial state is setup, with no delegates, no active motion and an empty queue, and it is consistent |
| Session.Session.StartSession | src/App.tsx:16-23 | the session awaits a motion with exactly the given roster, no active motion and an empty queue |
| Session.Session.AddProposedMotion | src/App.tsx:25-30 | the motion is appended to the queue, nothing else changes, and consistency is kept outside a running motion |
| Session.Session.VoteResult | src/App.tsx:32-62 | an unknown id changes nothing; a passing vote activates the promoted motion and clears the queue; any other vote removes that motion only; consistency is preserved |
| Session.Session.FinishMotion | src/App.tsx:64-70 | status returns to awaiting a motion with no active motion, queue and roster untouched, from any state |
| MotionProposal.JsRemainder | src/components/MotionProposalModal.tsx:81 | JavaScript's remainder is zero exactly when the Euclidean remainder is, for divisors of either sign |
| MotionProposal.Violations | src/components/MotionProposalModal.tsx:56-95 | the limit error is never among the validation errors, and the proposer error is present exactly when no proposer is chosen |
| MotionProposal.CollectErrors | src/components/MotionProposalModal.tsx:56-95 | the list pushed check by check is the validation list |
| MotionProposal.ValidIffWellFormed | src/components/MotionProposalModal.tsx:56-95 | the error list is empty exactly when the form meets the per-type requirements |
| MotionProposal.EveryFailedCheckReported | src/components/MotionProposalModal.tsx:59-91 | each error is listed exactly when its own check fails for the form's type, independently of the other checks |
| MotionProposal.DivisibilityExamples | src/components/MotionProposalModal.tsx:80-84 | seven minutes in 45-second turns is refused for divisibility alone; in one-minute turns it is accepted |
| MotionProposal.SubmitProposal | src/components/MotionProposalModal.tsx:97-122 | at three or more queued motions the submission is refused with the limit error alone; otherwise a motion is emitted exactly when the form is valid, carrying the form's fields and zero votes, and a refusal lists the form's errors |
| MotionProposal.MotionProposalModal.constructor | src/components/MotionProposalModal.tsx:28-32 | the dialog starts closed with an empty form and no errors |
| MotionProposal.MotionProposalModal.Open | src/components/MotionProposalModal.tsx:35-43 | opening a closed dialog resets form and errors; opening an open one changes neither |
| MotionProposal.MotionProposalModal.Close | src/components/MotionProposalModal.tsx:124-128 | the dialog is closed |
| MotionProposal.MotionProposalModal.InputChange | src/components/MotionProposalModal.tsx:45-54 | only the changed field takes the new value and the errors are cleared |
| MotionProposal.MotionProposalModal.Submit | src/components/MotionProposalModal.tsx:97-122 | a refusal shows its errors and emits nothing; an acceptance emits the motion, clears the errors and closes the dialog |
| MotionProposal.MotionProposalForm.constructor | src/components/MotionProposalForm.tsx:24-28 | the form starts empty with no errors |
| MotionProposal.MotionProposalForm.InputChange | src/components/MotionProposalForm.tsx:30-39 | only the changed field takes the new value and the errors are cleared |
| MotionProposal.MotionProposalForm.Submit | src/components/MotionProposalForm.tsx:82-110 | a refusal keeps the form and shows its errors; an acceptance emits the motion and resets the form |
| Voting.ClampVote | src/components/VotingComponent.tsx:27-35 | the new count is never negative, never above what was asked unless that was negative, keeps the two sides within the roster, and is exactly the asked value when that fits |
| Voting.Status | src/components/VotingComponent.tsx:48-71 | pending exactly while the count is incomplete, with the non-zero number still to vote; passes exactly on a complete count with yay ahead; fails otherwise |
| Voting.StatusAgreesWithSession | src/components/VotingComponent.tsx:22-25 | the counter shows "passes" exactly when the session promotes the motion, and a complete tie fails |
| Voting.ButtonsStepByOne | src/components/VotingComponent.tsx:100-153 | from a valid count, an enabled + or - button moves its count by exactly one |
| Voting.VoteCounter.constructor | src/components/VotingComponent.tsx:18-19 | the counts start at the values passed in |
| Voting.VoteCounter.SetYay | src/components/VotingComponent.tsx:27-30 | the yay count becomes the clamped value and the counter stays within the roster |
| Voting.VoteCounter.SetNay | src/components/VotingComponent.tsx:32-35 | the nay count becomes the clamped value and the counter stays within the roster |
| Voting.VoteCounter.Submit | src/components/VotingComponent.tsx:37-46 | a report is made exactly when every delegate is counted, and it carries the motion id and both counts |
| Setup.BlankForms | src/components/SetupScreen.tsx:22-25 | exactly `n` forms, each with two empty names |
| Setup.NormalizedNames | src/components/SetupScreen.tsx:58 | one trimmed, lower-cased delegation name per form, in form order |
| Setup.CollectBlankNameErrors | src/components/SetupScreen.tsx:48-55 | the loop's list is the per-form list of blank names |
| Setup.HasDuplicateNames | src/components/SetupScreen.tsx:57-62 | the set-size test fires exactly when two normalized delegation names coincide |
| Setup.CollectSetupErrors | src/components/SetupScreen.tsx:41-66 | the error list is the roster-size error, the blank-name errors and the duplicate error, in that order |
| Setup.MissingDelegationReported | src/components/SetupScreen.tsx:49-51 | a missing-delegation error names position `p` exactly when form `p` exists and its delegation name is blank |
| Setup.MissingDelegateReported | src/components/SetupScreen.tsx:52-54 | a missing-delegate error names position `p` exactly when form `p` exists and its delegate name is blank |
| Setup.NoBlankErrorsIff | src/components/SetupScreen.tsx:48-55 | the forms produce no blank-name error exactly when no name is blank |
| Setup.SetupValidIff | src/components/SetupScreen.tsx:41-66 | setup passes exactly when the size is 5..50, no name is blank and the delegation names are distinct under trimming and lower-casing |
| Setup.DelegateIdsDistinct | src/components/SetupScreen.tsx:71 | two positions get the same id exactly when they are the same position |
| Setup.BuildDelegates | src/components/SetupScreen.tsx:70-76 | one delegate per form in order, with its position's id, trimmed names and empty histories |
| Setup.TrimmedName | src/components/SetupScreen.tsx:72-73 | a non-blank name trims to a non-empty name that trimming and normalizing leave as before |
| Setup.ValidRoster | src/components/SetupScreen.tsx:68-80 | a roster built from valid forms has distinct ids, non-empty trimmed names and delegation names distinct under the comparison |
| Setup.SetupScreen.constructor | src/components/SetupScreen.tsx:14-17 | the screen starts at size 0, with no forms shown and no errors |
| Setup.SetupScreen.ChangeNumberOfDelegates | src/components/SetupScreen.tsx:19-33 | a size in range gives that many blank forms, shows them and clears errors; any other size hides and drops the forms; forms always match the size |
| Setup.SetupScreen.ChangeDelegateForm | src/components/SetupScreen.tsx:35-39 | only the chosen field of the chosen form changes |
| Setup.SetupScreen.ValidateForms | src/components/SetupScreen.tsx:41-66 | the errors shown are the setup errors, and the result is true exactly when there are none |
| Setup.SetupScreen.StartSession | src/components/SetupScreen.tsx:68-80 | a roster is handed on exactly when validation passes; it is the built roster and has 5 to 50 delegates |
| SpeakingTimer.TickStep | src/components/Timer.tsx:33-57 | an idle timer is unchanged; a counting one loses a second, or at one second left stops at zero and fires its end exactly then |
| SpeakingTimer.IdleTimerIgnoresTicks | src/components/Timer.tsx:34 | a stopped, paused or expired timer is unaffected by any number of seconds |
| SpeakingTimer.CountsDownOneAtATime | src/components/Timer.tsx:35-43 | before `d` seconds a timer started at `d` shows `d - n` and has not fired |
| SpeakingTimer.StartedTimerEnds | src/components/Timer.tsx:33-57 | a timer started at `d > 0` is stopped at zero after `d` seconds, having fired exactly once, and stays so |
| SpeakingTimer.FormatClockReadsBack | src/components/Timer.tsx:59-66 | the clock reads back as its time: under a minute the number of seconds; otherwise at least two digits of minutes, a colon and two digits of seconds |
| SpeakingTimer.Timer.constructor | src/components/Timer.tsx:20-22 | a new timer shows its duration, unpaused, running only when asked to |
| SpeakingTimer.Timer.Tick | src/components/Timer.tsx:35-43 | the new state and the end signal are one step of the tick function |
| SpeakingTimer.Timer.Start | src/components/Timer.tsx:68-73 | a timer with time left runs unpaused; one at zero is unchanged |
| SpeakingTimer.Timer.Pause | src/components/Timer.tsx:75-77 | only the pause flag is set |
| SpeakingTimer.Timer.Resume | src/components/Timer.tsx:79-81 | only the pause flag is cleared |
| SpeakingTimer.Timer.Reset | src/components/Timer.tsx:83-87 | the full duration, stopped and unpaused |
| SpeakingTimer.Timer.Complete | src/components/Timer.tsx:89-93 | time goes to zero and the timer stops, the pause flag kept, so it no longer counts; the completion signal always fires |
| SpeakingTimer.Timer.ChangeDuration | src/components/Timer.tsx:25-30 | a new duration or start mode resets the timer to it, running as the start mode says |
| Caucus.FloorDiv | src/components/motions/ModeratedCaucus.tsx:18 | the quotient rounds toward minus infinity for a divisor of either sign |
| Caucus.SpeakerCount | src/components/motions/ModeratedCaucus.tsx:17-19 | no speakers unless both times are set and non-zero; otherwise as many whole speaking times as fit in the total |
| Caucus.ValidCaucusSlotsFillTime | src/components/motions/ModeratedCaucus.tsx:17-19 | a moderated caucus that passed the proposal checks has 1 to 120 slots that fill its total time exactly |
| Caucus.InitialSlots | src/components/motions/ModeratedCaucus.tsx:21-27 | one slot per speaker (none for a negative count), numbered from 1, empty and open |
| Caucus.WithDelegate | src/components/motions/ModeratedCaucus.tsx:29-38 | slots with the id get the delegate, the others are unchanged, and no id or completion flag changes |
| Caucus.MarkComplete | src/components/motions/ModeratedCaucus.tsx:40-48 | a slot is complete afterwards exactly when it was or has the id; ids and delegates are untouched |
| Caucus.MarkCompleteIdempotent | src/components/motions/ModeratedCaucus.tsx:40-48 | completing a slot twice is completing it once |
| Caucus.CountComplete | src/components/motions/ModeratedCaucus.tsx:50 | the count is at most the slots, zero exactly when none is complete, and full exactly when all are |
| Caucus.CompletionMonotone | src/components/motions/ModeratedCaucus.tsx:40-50 | completing never lowers the progress count and raises it when an open slot has the id |
| Caucus.SelectionKeepsProgress | src/components/motions/ModeratedCaucus.tsx:29-50 | choosing a delegate leaves the progress count unchanged |
| Caucus.SlotBoard.constructor | src/components/motions/ModeratedCaucus.tsx:16-27 | the board holds the initial slots for the computed speaker count |
| Caucus.SlotBoard.CompletedSpeakers | src/components/motions/ModeratedCaucus.tsx:50 | progress never exceeds the slots or the speaker count |
| Caucus.SlotBoard.SelectDelegate | src/components/motions/ModeratedCaucus.tsx:29-38 | the slots become the selection result for the first delegate with the id, numbering is kept and progress is unchanged |
| Caucus.SignalsCompleteOnce | src/components/motions/ModeratedCaucus.tsx:40-48 | however many times the slot timer signals, the slots end up exactly as after one completion |
| Caucus.ExpiryAndButtonAgree | src/components/motions/ModeratedCaucus.tsx:117-124 | a started slot timer left to run signals once and stops at zero, and that leaves the slots as the "Complete Speech" button does: the slot marked complete |
| Caucus.SlotBoard.CompleteSpeaker | src/components/motions/ModeratedCaucus.tsx:40-48 | the slots become the completion result, numbering is kept and progress does not drop |
| Caucus.SlotBoard.SlotTimerEvent | src/components/motions/ModeratedCaucus.tsx:117-124 | a tick or the button updates the timer as `Tick` or `Complete` do, and the slot is completed exactly when the timer signals its end or completion |
| TimeEntry.ToSeconds | src/components/TimeInput.tsx:35-46 | unparsable text reports 0; a number reports itself in seconds, or sixty times itself in minutes |
| TimeEntry.ShownTimeReadsBack | src/components/TimeInput.tsx:35-46 | any seconds typed in seconds, and whole minutes typed in minutes, report the time they show |
| TimeEntry.CeilMinutes | src/components/TimeInput.tsx:56 | the least whole number of minutes covering the seconds |
| TimeEntry.FloorMinutes | src/components/TimeInput.tsx:57 | the most whole minutes within the seconds |
| TimeEntry.BoundsMatchSeconds | src/components/TimeInput.tsx:53-61 | in either unit a number is within the shown bounds exactly when the seconds it reports are within the bounds in seconds |
| TimeEntry.DefaultBounds | src/components/TimeInput.tsx:19-20 | the default bounds are 1..3600 seconds, or 1..60 minutes |
| TimeEntry.TimeInput.constructor | src/components/TimeInput.tsx:24 | a new field reads seconds |
| TimeEntry.TimeInput.ValueChange | src/components/TimeInput.tsx:35-46 | the value reported is the conversion for the current unit |
| TimeEntry.TimeInput.UnitChange | src/components/TimeInput.tsx:48-51 | the unit becomes the chosen one, and choosing the current unit changes nothing |
| Formatting.DurationShape | src/components/SessionDashboard.tsx:32-42 | a duration reads as an optional minus, a number, then "s" under a minute, "min" on whole minutes, or "min {r}s" |
| Formatting.DurationSign | src/components/ActiveMotionDisplay.tsx:21-31 | the text starts with a minus exactly when the duration is negative |
| Formatting.FormatDurationInjective | src/components/SessionDashboard.tsx:32-42 | two durations give the same text exactly when they are equal |
| Formatting.IndexOf | src/components/SessionDashboard.tsx:29 | the first position of the character, and none exactly when it is absent |
| Formatting.ReplaceFirst | src/components/SessionDashboard.tsx:29 | only the first occurrence is replaced; the text is unchanged without one |
| Formatting.LabelOfTwoWordTag | src/components/SessionDashboard.tsx:28-30 | a tag of two lower-case words joined by `_` shows as both words capitalized, separated by a space |
| Formatting.SpacedAfterFirstWord | src/components/ActiveMotionDisplay.tsx:17-19 | only the underscore after a tag's lower-case first word becomes a space |
| Formatting.CapitalizeAfterWordChar | src/components/ActiveMotionDisplay.tsx:17-19 | word characters that follow a word character are never capitalized |
| Formatting.OnlyFirstUnderscoreReplaced | src/components/ActiveMotionDisplay.tsx:17-19 | for every tag of three lower-case words joined by underscores, only the first underscore becomes a space and the third word is not capitalized |
| Formatting.ProposerLine | src/components/ActiveMotionDisplay.tsx:83 | the line names the first delegate with the proposer's id, and shows empty names when there is none |
| Dashboard.CountText | src/components/SessionDashboard.tsx:47 | a missing count prints "undefined", and only a missing one; a present one prints a sign or a digit first |
| Dashboard.CountTextInjective | src/components/SessionDashboard.tsx:47 | two counts print the same exactly when they are equal |
| Dashboard.SpeakersLineInjective | src/components/SessionDashboard.tsx:46-47 | the speakers-list line is the same exactly when speaking time and count are |
| Dashboard.ModeratedLineInjective | src/components/SessionDashboard.tsx:48-49 | the moderated-caucus line is the same exactly when total and speaking time are |
| Dashboard.UnmoderatedLineInjective | src/components/SessionDashboard.tsx:50-51 | the unmoderated-caucus line is the same exactly when the total time is |
| Dashboard.DetailsShowExactlyRelevantFields | src/components/SessionDashboard.tsx:44-55 | for one type, two summary lines agree exactly when the fields that type uses agree, a missing time counting as 0 |
| Dashboard.MotionHeadings | src/components/SessionDashboard.tsx:91-101 | one heading per queued motion, in queue order, numbered from 1 |
| Dashboard.HeadingsNumberDistinctly | src/components/SessionDashboard.tsx:91-101 | two positions of the queue share a heading exactly when they are the same position |
| Dashboard.NumberedHeadingsDiffer | src/components/SessionDashboard.tsx:101 | a heading determines both its number and its type label |
| Dashboard.ProposeControlFor | src/components/SessionDashboard.tsx:138-151 | the button is offered exactly below three queued motions, captioned for the first proposal exactly at zero |
| Dashboard.OfferedIffDialogAccepts | src/components/SessionDashboard.tsx:182 | the limit notice shows exactly when the dialog, given the queue length, refuses with the limit error; with the button shown a valid form is accepted |
| ActiveMotionScreen.CaptionsDiffer | src/components/ActiveMotionDisplay.tsx:89-107 | the three detail rows have three different captions |
| ActiveMotionScreen.StrayZeroIff | src/components/ActiveMotionDisplay.tsx:87-112 | as written, a bare "0" is shown exactly when a field holds 0, and no other bare text is shown |
| ActiveMotionScreen.StrayZeroReachable | src/components/ActiveMotionDisplay.tsx:87-89 | a speakers list proposed after 0 was typed as a caucus total passes the checks and shows a bare "0" once active |
| ActiveMotionScreen.DetailRowsShowTruthyFields | src/components/ActiveMotionDisplay.tsx:87-112 | a field has a row exactly when it is present and non-zero, the row shows its value, and the block holds only rows |
| ActiveMotionScreen.DetailRowsAreRows | src/components/ActiveMotionDisplay.tsx:87-112 | the corrected details block holds nothing but rows, one at most for each of the three fields |
| ActiveMotionScreen.RenderingAgreesWithoutZeros | src/components/ActiveMotionDisplay.tsx:87-112 | whenever no field holds 0, the details as written are the rows |
| ActiveMotionScreen.RenderMotionContent | src/components/ActiveMotionDisplay.tsx:39-54 | exactly one content per motion type; an unmoderated caucus gets a timer over its total (0 when unset) and its whole minutes; a moderated caucus gets its initial slot board |
| ActiveMotionScreen.PassedMotionContent | src/components/motions/UnmoderatedCaucus.tsx:21-26 | a motion that was accepted gets a timer of 30 s to an hour that, once started, ends after exactly its total time and fires once; or a board of 1 to 120 open, numbered slots filling the total time |
| ActiveMotionScreen.ActiveMotionView | src/components/ActiveMotionDisplay.tsx:76-133 | the screen shows only rows in its details block, at most three, which are the block as written whenever no field holds 0, with the proposer line and the content for the type |
| ArrayOps.Find | src/components/SessionDashboard.tsx:58 | the first element satisfying the test, or none exactly when none does |
| ArrayOps.Filter | src/App.tsx:59 | exactly the elements passing the test survive, and all do when all pass |
| ArrayOps.FilterAppend | src/App.tsx:59 | filtering keeps order: it distributes over concatenation |
| ArrayOps.SetSizeIffDistinct | src/components/SetupScreen.tsx:59-60 | the set of an array is as large as the array exactly when its elements are pairwise distinct |
| Text.IntToStringInjective | src/components/SessionDashboard.tsx:41 | two integers print the same exactly when they are equal |
| Text.Trim | src/components/SetupScreen.tsx:72-73 | the result is a contiguous part of the input with only whitespace cut from either end, has no whitespace at its ends, and is empty exactly when the input is blank |
| Text.TrimIdempotent | src/components/SetupScreen.tsx:72 | trimming twice is trimming once |
| Text.TrimsToEmpty | src/components/SetupScreen.tsx:49 | a name trims to the empty string exactly when it is blank |

## Findings

| source | as written | input that shows it | evidently intended | confidence | as-written member | corrected member |
|---|---|---|---|---|---|---|
| src/components/ActiveMotionDisplay.tsx:87-112 | each detail row is guarded by `{field && …}`, which renders the number itself when the field holds 0 | a proposal form set to moderated caucus with 0 typed as the total time, then switched to a speakers list and filled in: it is accepted and, once passed, shows a bare "0" above its rows | a row for each present, non-zero field and nothing for the others | not executed | ActiveMotionScreen.StrayZeroReachable | ActiveMotionScreen.DetailRowsShowTruthyFields |

`ActiveMotionScreen.RenderedDetails` models the block as written. `ActiveMotionScreen.DetailRows`
is the corrected block, and the screen model (`ActiveMotionView`) uses it.

## Left out

- Rendering, styling, `isModalOpen` and the other purely visual state are left out. So is the
  text that only repeats a number: the queue header "(n/3)", the motion id line, the roster
  sidebar, the caucus headings and the "minutes each" text.
- Timing is left out. `setInterval` is a call to `SpeakingTimer.Timer.Tick`. The vote counter's
  500 ms `setTimeout` and its `isSubmitting` flag are also left out: the report is made at once.
- `Date.now()` in motion ids is taken as a `motionId` parameter.
- `parseInt` is taken as an `Option<int>`, with `None` for text that does not parse.
- `TimeEntry.TimeInput.ValueChange` does not model the `displayValue` state. That state holds
  fractional minutes and raw text, which need floating point.
- `Text.ToLower` and `Text.UpperChar` change ASCII letters only. JavaScript's case mapping covers
  all of Unicode.
- `Setup.SetupScreen.ChangeDelegateForm` copies the array but writes into the shared form object.
  The aliasing this creates with the previous state is not modelled: the model replaces the form
  by value.
- `MotionProposal.MotionProposalForm.Submit` gives a new motion vote counts of 0. The inline form
  writes empty arrays into `yayVotes` and `nayVotes` (MotionProposalForm.tsx:101-102). Nothing in
  the session reads those fields.
- The dashboard passes `motion` and `onVoteSubmit` to the vote counter, but the counter declares
  `motionId`, `yayVotes`, `nayVotes` and `onVoteResult`. The counter is modelled against its own
  props, and the wiring between the two is not modelled.
- Voting and speaking histories are never appended to, so they stay as the empty sequences the
  roster starts with.
- The speakers-list screen (`SpeakerList`) is not part of this model. Its content is the
  constructor `SpeakersListContent` with nothing inside.
- The "Unknown motion type" fallback of the content switch and the empty `default` of the summary
  line cannot be reached, because a motion type is one of the three constructors.
- `Formatting.FormatMotionType` is proved for all two-word lower-case tags by
  `Formatting.LabelOfTwoWordTag`. That covers the three tags, and the model does not evaluate the
  three labels one by one.
- `ActiveMotionScreen.ActiveMotionView` renders the corrected details block, not the program's.
  For a motion with a field holding 0 it therefore does not show the bare "0" that the program
  shows (see Findings). `ActiveMotionScreen.RenderedDetails` is the block as written, and the view
  matches it for every motion without a zero field.
- React's StrictMode double invocation and the order in which batched state updates are applied
  are not modelled: each handler is one atomic update.
