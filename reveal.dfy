/** How a confirmed question shows its options (script.js `renderCurrent` for a
    locked question and `revealAndScore`): the correct answer green, the chosen
    wrong answer red, every other option grey. */
module Reveal {
  import opened Questions

  datatype Colour = Green | Red | Grey

  /** The colour of option `opt` given the correct answer and the recorded selection. */
  function Classify(opt: string, correct: string, selected: string): (c: Colour)
    ensures c == Green <==> opt == correct
    ensures c == Red <==> opt != correct && opt == selected
    ensures c == Grey <==> opt != correct && opt != selected
  {
    if opt == correct then Green
    else if opt == selected then Red
    else Grey
  }

  /** The colours of all options of `q`, in display order. */
  function RevealAll(q: Question, selected: string): (cs: seq<Colour>)
    ensures |cs| == |q.options|
    ensures forall i :: 0 <= i < |cs| ==> cs[i] == Classify(q.options[i], q.correct, selected)
  {
    seq(|q.options|, i requires 0 <= i < |q.options| => Classify(q.options[i], q.correct, selected))
  }

  /** A revealed well-formed question shows a green option, and shows no red option
      exactly when the recorded selection is correct (or is not one of its options). */
  lemma RevealShowsVerdict(q: Question, selected: string)
    requires WellFormed(q)
    ensures Green in RevealAll(q, selected)
    ensures Red !in RevealAll(q, selected) <==> (selected == q.correct || selected !in q.options)
  {
  }

  /** For a question built from three distinct-from-correct incorrect answers and slot
      `k`, the only green option is the one at slot `k`. */
  lemma GreenAtSlot(raw: RawQuestion, k: nat, selected: string)
    requires |raw.incorrectAnswers| == 3 && k < SlotCount
    requires raw.correctAnswer !in raw.incorrectAnswers
    ensures var cs := RevealAll(BuildQuestion(raw, k), selected);
      forall i :: 0 <= i < |cs| ==> (cs[i] == Green <==> i == k)
  {
  }
}
