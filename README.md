# QuizVerse quiz session, modelled in Dafny

QuizVerse is a browser trivia quiz (script.js). It loads 20 multiple-choice questions. The
player selects an option, then confirms it with a "Final Decision" button. Confirming locks
the question, reveals the correct answer and scores it: +2 when correct, −2 when wrong.
A 15-minute countdown runs alongside. When the player submits, or when time runs out, the
page shows the final score and a feedback message. The result is saved to a leaderboard in
local storage that keeps the 50 most recent results, and the 10 newest are listed.

The project models the state machine hidden in the page's event handlers, plus the pure
helpers around it:

- `questions.dfy` (module `Questions`): building a question by splicing the correct answer
  into the incorrect answers at a given slot.
- `reveal.dfy` (module `Reveal`): the colour of each option of a locked question.
- `scoring.dfy` (module `Scoring`): the points of one confirmation, and the tally of all
  locked questions.
- `clock.dfy` (module `Clock`): the `MM:SS` countdown text, with JavaScript's floor division
  and sign-keeping remainder, and its reading back.
- `feedback.dfy` (module `Feedback`): the four-band end-of-quiz message.
- `leaderboard.dfy` (module `Leaderboard`): the stored list (prepend, cut to 50), the rows
  shown (first 10), and a `Store` class for the storage key.
- `session.dfy` (module `Session`): the `QuizSession` class. Its fields are the closure
  variables. Its methods are the handlers: start, option click, confirm, reveal-and-score,
  next, previous, submit, timer tick and finish.
- `wrappers.dfy` (module `Wrappers`): an `Option` type.

The session invariant `QuizSession.Valid()` says four things:

- the scored marks are exactly the locked questions;
- the score is the sum of ±2 over the locked questions;
- the index stays in range;
- the countdown is never negative while it runs.

Every handler keeps this invariant.

Modelling choices where the source's behaviour needed a decision:

- The start button is disabled after its first click and never re-enabled (script.js:81).
  So `timeLeft` starts at 900, is never reset, and cannot go negative. `TimerTextReadsBack`
  proves the timer text always reads back as the seconds left. `Clock.NegativeDisplay`
  shows what JavaScript's remainder would print below zero (`-1:-1` for −1); no state
  reaches that.
- If the fetch fails, the start handler still renders and starts the countdown
  (script.js:85-87). `Start` with `None` therefore keeps the old questions and sets the
  timer running.
- A confirmation does not itself check whether the question is already locked. It locks
  again and calls `revealAndScore`, and the `_scored` mark keeps the score from changing
  twice. `Confirm` models exactly that. The model records the mark as the `scored` set, and
  loading questions clears it, because the source creates fresh question objects.
- `splice` with a start index past the end appends. `Questions.Slot` clamps the slot the
  same way.
- The feedback thresholds are 75% and 50% of 20 × 2 points, whatever number of questions
  was actually loaded, as in the source.
- The leaderboard's two paths react differently to stored text that is not a list of
  entries (`Leaderboard.Stored`). The save path catches every failure and leaves the key
  unchanged (script.js:346-348). The render path catches only `JSON.parse` (script.js:373-377):
  - unparsable text and values with a falsy `length` (a number, a boolean, `""`, an object
    without `length`) list as empty;
  - `null`, a non-empty string, or an object with a truthy `length` throw at
    script.js:379 or 388.
  That throw leaves `finishQuiz` before `showFeedback` (script.js:304), so `Finish` then
  reports no board and no feedback. Such a value is never overwritten by a save, so every
  later finish fails the same way (`Leaderboard.UnlistableStays`).

## Model

| member | source | states |
|---|---|---|
| Questions.Slot | script.js:102 | `splice` starts at the drawn slot when it is within the list, and at the end when it is past it |
| Questions.InsertAt | script.js:100-102 | the options are the incorrect answers plus the correct one (as multisets); the correct answer is at the clamped slot; removing it gives back the incorrect answers in order |
| Questions.InsertThree | script.js:101-102 | with three incorrect answers, none equal to the correct one, and a slot 0..3: four options, the correct one at exactly that slot and nowhere else, the incorrect answers' order kept before and after it |
| Questions.BuildQuestion | script.js:97-108 | a built question keeps prompt and correct answer, has one more option than incorrect answers, and contains its correct answer |
| Questions.BuildQuestions | script.js:97-108 | question i is built from record i with slot i (its prompt, its options and its correct answer), so each has its correct answer among its options |
| Reveal.Classify | script.js:152-161 | an option is green iff it is the correct answer, red iff it is the wrong selection, grey otherwise |
| Reveal.RevealAll | script.js:231-244 | one colour per option, each classified against the correct answer and the selection |
| Reveal.RevealShowsVerdict | script.js:150-161 | a locked question always shows a green option, and shows no red option iff the selection was correct or is not one of its options |
| Reveal.GreenAtSlot | script.js:234-236 | for a question built with slot k from three other answers, the only green option is at slot k |
| Scoring.Points | script.js:249-250 | a confirmation earns +2 iff the selection is correct, otherwise −2 |
| Scoring.TallyCounts | script.js:246-253 | the tally equals 2 × (locked correct) − 2 × (locked wrong) |
| Scoring.TallyNothingLocked | script.js:110-113 | with no locked question the score is 0 |
| Scoring.TallyIgnoresUnlocked | script.js:284-287 | selections on unlocked questions never contribute to the score |
| Scoring.TallyLock | script.js:246-253 | locking one more answered question adds exactly its points |
| Scoring.TallyBounds | script.js:249-250 | the score is between −2 and +2 per question |
| Clock.Minutes | script.js:330 | the minutes are the floor of t / 60 |
| Clock.Seconds | script.js:333 | JavaScript's remainder: in (−60, 60), congruent to t modulo 60, equal to t − 60·minutes for t ≥ 0, and non-positive for t ≤ 0 |
| Clock.NatToDecimal | script.js:330-333 | `toString()` of a non-negative number is a non-empty run of digits, a single digit exactly below 10 |
| Clock.IntToString | script.js:330-333 | `toString()` of any integer starts with '-' iff it is negative, and its digits read back as the number's magnitude |
| Clock.NatToDecimalValue | script.js:330-333 | the decimal text of a number reads back as that number |
| Clock.ZerosValue | script.js:330-333 | left-padding with '0' does not change the value read |
| Clock.PaddedValue | script.js:330-333 | `PadTwo`, the `padStart(2, "0")` of a decimal, reads back as the number and is exactly two digits below 100 |
| Clock.DisplayRoundTrip | script.js:329-334 | for t ≥ 0 the timer text `Display(t)` is digits ':' two digits, the minutes read as t / 60, the seconds below 60, and the whole reads back as t |
| Clock.NegativeDisplay | script.js:330-333 | for t in (−60, 0) the text is `-1:-` followed by the digits of −t, and it does not read back as a time |
| Feedback.FeedbackFor | script.js:411-424 | Stellar iff score ≥ 75% of 40, Nice job iff 50% ≤ score < 75%, Good effort iff 0 ≤ score < 50%, Tough round iff negative |
| Feedback.Text | script.js:411-424 | each message's text starts with its own headline ("Stellar performance", "Nice job", "Good effort", "Tough round") |
| Feedback.TextNamesMessage | script.js:411-424 | the four texts are pairwise different, so the text shown tells the band |
| Feedback.FeedbackMonotone | script.js:411-424 | a higher score never gets a worse message |
| Leaderboard.Prepended | script.js:342-344 | the new entry is first, the length is min(50, old + 1), and the rest is a prefix of the old list |
| Leaderboard.ReadForSave | script.js:340-342 | the save path gets a list exactly when the key is missing (read as empty) or holds a list; otherwise `JSON.parse` or `unshift` throws |
| Leaderboard.ReadForRender | script.js:372-379 | the render path fails exactly on an unlistable value; it reads a stored list as itself and anything else as empty |
| Leaderboard.AfterSave | script.js:338-349 | a stored value that is not a list is left unchanged; otherwise the stored list gets the entry at index 0, length min(50, old + 1), and the old prefix after it |
| Leaderboard.Top | script.js:379-388 | no rows exactly when listing throws; otherwise the first min(10, length) entries read, in stored order |
| Leaderboard.SavedEntryShownFirst | script.js:342-344 | after a successful save the rows can be listed and the new entry heads them |
| Leaderboard.UnlistableStays | script.js:346-348 | a save leaves an unlistable value in place, so listing keeps failing |
| Leaderboard.SaveAllNewestFirst | script.js:342-344 | after any run of saves the list is the saved entries newest-first, then the older list, cut to 50 |
| Leaderboard.Store.Save | script.js:338-349 | the stored value becomes `AfterSave` of the old one with the new entry |
| Leaderboard.Store.Render | script.js:372-388 | fails exactly on an unlistable value; otherwise at most 10 rows, exactly `Top` of the stored value |
| Session.QuizSession.constructor | script.js:44-55 | initial state: no questions, index 0, empty maps, score 0, 900 seconds, timer stopped, start enabled |
| Session.QuizSession.Load | script.js:97-108 | the questions become those built from the records and slots; maps, scored marks, index and score reset; countdown untouched |
| Session.QuizSession.Reset | script.js:110-113 | installs the given questions with index 0, empty maps and score 0, keeping the invariant and the countdown |
| Session.QuizSession.Start | script.js:80-88 | only the first click acts; on success it loads, on failure it keeps the old questions; either way the countdown runs from 900 |
| Session.QuizSession.Select | script.js:162-166 | on an unlocked question the click records the option (the last click wins); on a locked one nothing changes; locks, score and timer are never touched |
| Session.QuizSession.Confirm | script.js:204-216 | without a selection nothing changes; otherwise the question is locked and the score moves by its points only if it was not scored before |
| Session.QuizSession.RevealAndScore | script.js:227-254 | applies the points once per question (the scored mark), restores the invariant, returns the reveal colours |
| Session.QuizSession.Revealed | script.js:149-161 | the current question is drawn revealed iff it is locked; each option's colour is its classification against the correct answer and the recorded selection |
| Session.QuizSession.Next | script.js:262-268 | the index moves forward by one only when not on the last question, and moves iff the next button is enabled (`NextDisabled`, script.js:186) |
| Session.QuizSession.Prev | script.js:269-275 | the index moves back by one only when not on the first question, and moves iff the previous button is enabled (`PrevDisabled`, script.js:185) |
| Session.QuizSession.Finish | script.js:284-308 | stops the countdown, leaves the score unchanged, saves the current score; reports the top rows and the feedback text for the score, or neither when listing the stored value throws |
| Session.QuizSession.Submit | script.js:278-282 | a declined prompt changes nothing; an accepted one finishes as not timed out, with the player, the score, the top rows and the feedback text that `Finish` reports |
| Session.QuizSession.Tick | script.js:314-320 | no effect when stopped; otherwise one second less, and the tick that reaches zero stops the timer and finishes once as timed out, with the player, the score, the top rows and the feedback text that `Finish` reports |
| Session.QuizSession.ScoreIsNetCount | script.js:246-253 | in every reachable state the score is 2 × correct locked − 2 × wrong locked, between −2 and +2 per question |
| Session.QuizSession.TimerTextReadsBack | script.js:329-334 | in every reachable state the timer text (`TimerText`) reads back as the seconds left |

## Left out

- DOM construction, styling, `scrollIntoView`, the confirm button's creation and removal,
  the live score element, and the theme toggle: presentation only. The model keeps the
  reveal colours and the navigation button states.
- The question fetch and `res.json()`: network I/O. `Start` takes the decoded records, or
  `None` for a failure.
- `decodeHTML` needs a DOM textarea. Records are taken as already decoded.
- `Math.random` for the answer slot becomes the `slots` parameter.
- `localStorage` and JSON: the storage key is a `Stored` value. It is `Missing`,
  `Unparsable`, `Lengthless`, `Unlistable` or `Saved(entries)`, sorted by how the two
  paths react to it. An array whose elements are not entry objects is not part of this
  model.
- `nowISO` and `toLocaleString` depend on the clock and the locale. The timestamp is a
  parameter, and rows are returned as entries, not formatted text.
- `setInterval`/`clearInterval`: ticks are explicit `Tick` calls, and a `running` flag
  stands for a scheduled interval.
- `alert` and `confirm` dialogs: a rejected action is "no change"; `Submit` takes the
  prompt's answer as a parameter.
- Name entry (trim, empty-name alert) is not part of this model. The player's name is a
  constructor parameter.
- The confetti animation uses floating-point physics and `requestAnimationFrame`.
- The trailing handlers at script.js:480-514 refer to names that do not exist, so they are
  not modelled.
- After finishing, the page hides the quiz controls. The source has no state flag for this,
  so the model does not forbid later `Select`, `Confirm`, `Next`, `Prev` or `Submit` calls;
  a second `Submit` would save the score again.
- `Session.QuizSession.Select` requires the clicked text to be an option of the current
  question. Only rendered option buttons can be clicked.
- Leaderboard.SaveAllNewestFirst: stated only for a starting list of at most 50 entries,
  which is every list the save path writes. A longer list is cut at the first save.
