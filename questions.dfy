/** Building a question from a decoded provider record (script.js `loadQuestions`):
    the correct answer is spliced into a copy of the incorrect answers at a slot
    chosen by the caller (the source draws it with `Math.random`). */
module Questions {

  /** A provider record after HTML-entity decoding: prompt, correct answer and
      incorrect answers. */
  datatype RawQuestion = RawQuestion(question: string, correctAnswer: string, incorrectAnswers: seq<string>)

  /** A loaded question: prompt, the options in display order, the correct answer. */
  datatype Question = Question(question: string, options: seq<string>, correct: string)

  /** The number of slots `Math.floor(Math.random() * 4)` can pick from. */
  const SlotCount: nat := 4

  /** `splice(k, 0, x)` clamps a start index past the end to the length. */
  function Slot(xs: seq<string>, k: nat): (j: nat)
    ensures j <= |xs|
    ensures j == k || (k > |xs| && j == |xs|)
  {
    if k <= |xs| then k else |xs|
  }

  /** The options list: `x` inserted into `xs` at slot `k`. */
  function InsertAt(xs: seq<string>, k: nat, x: string): (r: seq<string>)
    ensures |r| == |xs| + 1
    ensures r[Slot(xs, k)] == x
    // removing the inserted answer gives back the incorrect answers in order
    ensures r[..Slot(xs, k)] + r[Slot(xs, k) + 1..] == xs
    ensures multiset(r) == multiset(xs) + multiset{x}
  {
    var j := Slot(xs, k);
    assert xs == xs[..j] + xs[j..];
    xs[..j] + [x] + xs[j..]
  }

  /** With the provider's three incorrect answers, none equal to the correct one, and a
      slot drawn from 0..3, the correct answer sits exactly at the drawn slot and nowhere
      else, and the incorrect answers keep their order before and after it. */
  lemma InsertThree(xs: seq<string>, k: nat, x: string)
    requires |xs| == 3 && k < SlotCount
    requires x !in xs
    ensures var r := InsertAt(xs, k, x);
      && |r| == 4
      && r[..k] == xs[..k] && r[k + 1..] == xs[k..]
      && forall i :: 0 <= i < |r| ==> (r[i] == x <==> i == k)
  {
  }

  /** The question built from one record with slot `k`. */
  function BuildQuestion(raw: RawQuestion, k: nat): (q: Question)
    ensures q.question == raw.question && q.correct == raw.correctAnswer
    ensures |q.options| == |raw.incorrectAnswers| + 1
    ensures q.correct in q.options
    ensures multiset(q.options) == multiset(raw.incorrectAnswers) + multiset{raw.correctAnswer}
  {
    var opts := InsertAt(raw.incorrectAnswers, k, raw.correctAnswer);
    assert opts[Slot(raw.incorrectAnswers, k)] == raw.correctAnswer;
    Question(raw.question, opts, raw.correctAnswer)
  }

  /** A question whose correct answer is one of its options. */
  predicate WellFormed(q: Question) {
    q.correct in q.options
  }

  /** `payload.results.map(...)`: one question per record, record `i` using slot `slots[i]`. */
  function BuildQuestions(raws: seq<RawQuestion>, slots: seq<nat>): (qs: seq<Question>)
    requires |slots| == |raws|
    ensures |qs| == |raws|
    ensures forall i :: 0 <= i < |qs| ==> qs[i] == BuildQuestion(raws[i], slots[i])
    ensures forall i :: 0 <= i < |qs| ==> WellFormed(qs[i]) && qs[i].correct == raws[i].correctAnswer
  {
    seq(|raws|, i requires 0 <= i < |raws| => BuildQuestion(raws[i], slots[i]))
  }
}
