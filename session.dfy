/** The quiz session kept in the closure of script.js `initQuiz`: the loaded questions,
    the current index, the per-question selection and lock maps, the running score and
    the countdown. Each handler of the page becomes a method: starting the quiz, an
    option click, the confirm button, next/previous, a timer tick and submission. */
module Session {
  import opened Wrappers
  import opened Questions
  import opened Reveal
  import opened Scoring
  import opened Clock
  import opened Feedback
  import opened Leaderboard

  /** The countdown starts at 15 minutes. */
  const TimeLimit: int := 15 * 60

  /** What the result screen shows: whether time ran out, the player, the final score,
      then the leaderboard rows and the feedback text. The last two are `None` when
      listing the leaderboard threw, which ends `finishQuiz` before the feedback. */
  datatype Summary = Summary(timedOut: bool, name: string, score: int, board: Option<seq<Entry>>, feedback: Option<string>)

  class QuizSession {
    const playerName: string
    var questions: seq<Question>
    var current: int
    /** index -> the option last clicked on that question */
    var answers: map<int, string>
    /** the indices whose answer was confirmed */
    var locked: set<int>
    /** the indices whose points were applied (the `_scored` mark on a question) */
    var scored: set<int>
    var score: int
    var timeLeft: int
    /** whether the one-second interval is scheduled */
    var running: bool
    /** whether the start button still accepts a click */
    var startEnabled: bool

    /** Everything but the agreement of the score with the locked questions. */
    ghost predicate Consistent()
      reads this
    {
      && 0 <= current && (current < |questions| || current == 0)
      && (forall i :: i in answers ==> 0 <= i < |questions|)
      && locked <= answers.Keys
      && 0 <= timeLeft && (running ==> 0 < timeLeft)
      && (startEnabled ==> timeLeft == TimeLimit && !running)
    }

    /** The session invariant: the questions scored are exactly the locked ones, and the
        score is the sum of their points. */
    ghost predicate Valid()
      reads this
    {
      && Consistent()
      && scored == locked
      && score == Tally(questions, answers, locked, |questions|)
    }

    /** The state before the start button is clicked. */
    constructor (name: string)
      ensures Valid()
      ensures playerName == name && questions == [] && current == 0
      ensures answers == map[] && locked == {} && scored == {} && score == 0
      ensures timeLeft == TimeLimit && !running && startEnabled
    {
      playerName := name;
      questions := [];
      current := 0;
      answers := map[];
      locked := {};
      scored := {};
      score := 0;
      timeLeft := TimeLimit;
      running := false;
      startEnabled := true;
    }

    /** `loadQuestions` after a successful fetch: builds the questions (record `i` puts its
        correct answer at slot `slots[i]`) and resets the maps, the index and the score.
        The countdown is not touched. */
    method Load(raws: seq<RawQuestion>, slots: seq<nat>)
      requires Valid()
      requires |slots| == |raws|
      modifies this
      ensures Valid()
      ensures questions == BuildQuestions(raws, slots)
      ensures current == 0 && answers == map[] && locked == {} && scored == {} && score == 0
      ensures timeLeft == old(timeLeft) && running == old(running) && startEnabled == old(startEnabled)
    {
      Reset(BuildQuestions(raws, slots));
    }

    /** The bulk reset of `loadQuestions`: new questions, empty maps, index 0, score 0. */
    method Reset(qs: seq<Question>)
      requires Valid()
      modifies this
      ensures Valid()
      ensures questions == qs
      ensures current == 0 && answers == map[] && locked == {} && scored == {} && score == 0
      ensures timeLeft == old(timeLeft) && running == old(running) && startEnabled == old(startEnabled)
    {
      TallyNothingLocked(qs, map[], |qs|);
      questions := qs;
      answers := map[];
      locked := {};
      scored := {};
      current := 0;
      score := 0;
    }

    /** The start button: disabled for good after its first click; loads the questions
        (`fetched` is `None` when the fetch or its decoding failed, in which case the old
        questions stay) and then starts the countdown whether or not loading succeeded. */
    method Start(fetched: Option<seq<RawQuestion>>, slots: seq<nat>)
      requires Valid()
      requires fetched.Some? ==> |slots| == |fetched.value|
      modifies this
      ensures Valid()
      ensures !old(startEnabled) ==>
        && questions == old(questions) && current == old(current) && answers == old(answers)
        && locked == old(locked) && scored == old(scored) && score == old(score)
        && timeLeft == old(timeLeft) && running == old(running) && !startEnabled
      ensures old(startEnabled) ==> !startEnabled && running && timeLeft == TimeLimit
      ensures old(startEnabled) && fetched.Some? ==>
        && questions == BuildQuestions(fetched.value, slots)
        && current == 0 && answers == map[] && locked == {} && scored == {} && score == 0
      ensures old(startEnabled) && fetched.None? ==>
        && questions == old(questions) && current == old(current) && answers == old(answers)
        && locked == old(locked) && scored == old(scored) && score == old(score)
    {
      if !startEnabled {
        return;
      }
      startEnabled := false;
      if fetched.Some? {
        Load(fetched.value, slots);
      }
      running := true;
    }

    /** A click on option `opt` of the current question. A locked question renders its
        options without click handlers, so the click changes nothing; otherwise the
        click records `opt`, replacing any earlier selection. */
    method Select(opt: string)
      requires Valid()
      requires current < |questions| && opt in questions[current].options
      modifies this
      ensures Valid()
      ensures old(current in locked) ==> answers == old(answers)
      ensures old(current !in locked) ==> answers == old(answers)[current := opt]
      ensures questions == old(questions) && current == old(current)
      ensures locked == old(locked) && scored == old(scored) && score == old(score)
      ensures timeLeft == old(timeLeft) && running == old(running) && startEnabled == old(startEnabled)
    {
      if current in locked {
        return;
      }
      var before := answers;
      answers := answers[current := opt];
      TallyIgnoresUnlocked(questions, before, answers, locked, |questions|);
    }

    /** The confirm button: with no selection for the current question nothing changes
        (the page shows an alert); otherwise the question is locked and scored once. */
    method Confirm() returns (confirmed: bool)
      requires Valid()
      modifies this
      ensures Valid()
      ensures confirmed == (old(current) in old(answers))
      ensures !confirmed ==> locked == old(locked) && scored == old(scored) && score == old(score)
      ensures confirmed ==> locked == old(locked) + {current}
      ensures confirmed ==> (score == old(score)
        + if current in old(scored) then 0 else Points(questions[current], answers[current]))
      ensures questions == old(questions) && current == old(current) && answers == old(answers)
      ensures timeLeft == old(timeLeft) && running == old(running) && startEnabled == old(startEnabled)
    {
      if current !in answers {
        return false;
      }
      locked := locked + {current};
      var _ := RevealAndScore(current);
      confirmed := true;
    }

    /** `revealAndScore(index)`: colours the options of the just-locked question and
        applies its points unless the question already carries its scored mark. */
    method RevealAndScore(index: int) returns (colours: seq<Colour>)
      requires Consistent()
      requires index in locked
      requires scored <= locked && locked - scored <= {index}
      requires score == Tally(questions, answers, scored, |questions|)
      modifies this`score, this`scored
      ensures Valid()
      ensures scored == old(scored) + {index}
      ensures score == old(score) + (if index in old(scored) then 0 else Points(questions[index], answers[index]))
      ensures colours == RevealAll(questions[index], answers[index])
    {
      colours := RevealAll(questions[index], answers[index]);
      forall i | i in locked ensures i in scored || i == index {
        if i !in scored {
          assert i in locked - scored;
        }
      }
      if index !in scored {
        TallyLock(questions, answers, scored, index, |questions|);
        score := score + Points(questions[index], answers[index]);
        scored := scored + {index};
      }
      assert scored == locked;
    }

    /** How the current question's options are drawn: revealed colours once it is
        locked, nothing special before. */
    function Revealed(): (cs: Option<seq<Colour>>)
      reads this
      requires Valid()
      ensures cs.Some? <==> current in locked
      ensures cs.Some? ==> |cs.value| == |questions[current].options|
      ensures cs.Some? ==> forall i :: 0 <= i < |cs.value| ==>
        cs.value[i] == Classify(questions[current].options[i], questions[current].correct, answers[current])
    {
      if current in locked then Some(RevealAll(questions[current], answers[current])) else None
    }

    /** The previous button is disabled on the first question. */
    predicate PrevDisabled()
      reads this
    {
      current == 0
    }

    /** The next button is disabled on the last question. */
    predicate NextDisabled()
      reads this
    {
      current == |questions| - 1
    }

    /** The next button: one question forward unless already on the last one. */
    method Next()
      requires Valid()
      modifies this`current
      ensures Valid()
      ensures current == if old(current) < |questions| - 1 then old(current) + 1 else old(current)
      ensures |questions| > 0 ==> (current != old(current) <==> !old(NextDisabled()))
    {
      if current < |questions| - 1 {
        current := current + 1;
      }
    }

    /** The previous button: one question back unless already on the first one. */
    method Prev()
      requires Valid()
      modifies this`current
      ensures Valid()
      ensures current == if old(current) > 0 then old(current) - 1 else old(current)
      ensures current != old(current) <==> !old(PrevDisabled())
    {
      if current > 0 {
        current := current - 1;
      }
    }

    /** The timer element's text. */
    function TimerText(): string
      reads this
    {
      Display(timeLeft)
    }

    /** `finishQuiz`: stops the countdown, saves the player's current score to the
        leaderboard, and reports the score, the leaderboard rows and the feedback.
        Selections that were never confirmed earn nothing, and the score is not changed.
        When listing the leaderboard throws, the feedback is never reached. */
    method Finish(timedOut: bool, store: Store, now: string) returns (summary: Summary)
      requires Valid()
      modifies this`running, store
      ensures Valid() && !running
      ensures store.stored == AfterSave(old(store.stored), Entry(playerName, score, now))
      ensures summary.timedOut == timedOut && summary.name == playerName && summary.score == score
      ensures summary.board == Top(store.stored)
      ensures summary.feedback == if store.stored.Unlistable? then None else Some(Text(FeedbackFor(score)))
    {
      running := false;
      store.Save(playerName, score, now);
      var rows := store.Render();
      if rows.None? {
        summary := Summary(timedOut, playerName, score, None, None);
      } else {
        summary := Summary(timedOut, playerName, score, rows, Some(Text(FeedbackFor(score))));
      }
    }

    /** The submit button: nothing happens when the player declines the confirmation
        prompt, otherwise the quiz finishes (not timed out). */
    method Submit(accepted: bool, store: Store, now: string) returns (outcome: Option<Summary>)
      requires Valid()
      modifies this`running, store
      ensures Valid()
      ensures outcome.Some? <==> accepted
      ensures !accepted ==> running == old(running) && store.stored == old(store.stored)
      ensures accepted ==> !running
      ensures accepted ==> outcome.value == Summary(false, playerName, score, Top(store.stored),
        if store.stored.Unlistable? then None else Some(Text(FeedbackFor(score))))
      ensures accepted ==> store.stored == AfterSave(old(store.stored), Entry(playerName, score, now))
    {
      if !accepted {
        return None;
      }
      var summary := Finish(false, store, now);
      outcome := Some(summary);
    }

    /** One firing of the one-second interval. Nothing happens when no interval is
        scheduled; otherwise one second is taken off, and the tick that brings the count
        to zero cancels the interval and finishes the quiz as timed out. */
    method Tick(store: Store, now: string) returns (outcome: Option<Summary>)
      requires Valid()
      modifies this`timeLeft, this`running, store
      ensures Valid()
      ensures !old(running) ==> timeLeft == old(timeLeft) && !running && store.stored == old(store.stored)
      ensures old(running) ==> timeLeft == old(timeLeft) - 1
      ensures outcome.Some? <==> old(running) && timeLeft == 0
      ensures outcome.None? ==> running == old(running) && store.stored == old(store.stored)
      ensures outcome.Some? ==> !running
      ensures outcome.Some? ==> outcome.value == Summary(true, playerName, score, Top(store.stored),
        if store.stored.Unlistable? then None else Some(Text(FeedbackFor(score))))
      ensures outcome.Some? ==> store.stored == AfterSave(old(store.stored), Entry(playerName, score, now))
    {
      if !running {
        return None;
      }
      timeLeft := timeLeft - 1;
      if timeLeft <= 0 {
        running := false;
        var summary := Finish(true, store, now);
        return Some(summary);
      }
      return None;
    }

    /** The score is twice the correct locked answers minus twice the wrong ones, and
        lies within two points per question either way. */
    lemma ScoreIsNetCount()
      requires Valid()
      ensures score == 2 * |CorrectSet(questions, answers, locked, |questions|)|
                     - 2 * |WrongSet(questions, answers, locked, |questions|)|
      ensures -2 * |questions| <= score <= 2 * |questions|
    {
      TallyCounts(questions, answers, locked, |questions|);
      TallyBounds(questions, answers, locked, |questions|);
    }

    /** The countdown never shows a negative time: the timer text reads back as the
        seconds left. */
    lemma TimerTextReadsBack()
      requires Valid()
      ensures ParseDisplay(TimerText()) == Some(timeLeft)
    {
      DisplayRoundTrip(timeLeft);
    }
  }
}
