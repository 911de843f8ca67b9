/** The end-of-quiz message (script.js `showFeedback`): four fixed bands of the final
    score, relative to the maximum 20 questions x 2 points = 40. The source compares
    against `40 * 0.75` and `40 * 0.5`, which are the exact integers 30 and 20. */
module Feedback {
  import opened Scoring

  datatype Message = Stellar | NiceJob | GoodEffort | ToughRound

  const MaxScore: int := TotalQuestions * CorrectPoints
  const StellarThreshold: int := MaxScore * 3 / 4
  const NiceJobThreshold: int := MaxScore / 2

  /** The message for a final score: at least 75% of the maximum, at least 50%, not
      negative, or negative. */
  function FeedbackFor(score: int): (m: Message)
    ensures m == Stellar <==> 4 * score >= 3 * MaxScore
    ensures m == NiceJob <==> 2 * score >= MaxScore && 4 * score < 3 * MaxScore
    ensures m == GoodEffort <==> 0 <= score && 2 * score < MaxScore
    ensures m == ToughRound <==> score < 0
  {
    if score >= StellarThreshold then Stellar
    else if score >= NiceJobThreshold then NiceJob
    else if score >= 0 then GoodEffort
    else ToughRound
  }

  /** The text shown for each message: its headline, a dash, then its advice. */
  function Text(m: Message): (t: string)
    ensures |t| > |Headline(m)| && t[..|Headline(m)|] == Headline(m)
    ensures t[0] == Headline(m)[0]
  {
    Headline(m) + " — " + Advice(m)
  }

  function Headline(m: Message): (h: string)
    ensures |h| > 0
  {
    match m
    case Stellar => "Stellar performance"
    case NiceJob => "Nice job"
    case GoodEffort => "Good effort"
    case ToughRound => "Tough round"
  }

  function Advice(m: Message): string {
    match m
    case Stellar => "you're crushing it. Keep practicing to stay sharp!"
    case NiceJob => "solid knowledge. A little polish and you'll be top-tier."
    case GoodEffort => "identify weak areas and revise. Consistency beats cramming."
    case ToughRound => "learn from it. Focus on fundamentals and try again with a plan."
  }

  /** The four texts differ, so the text shown tells which band the score fell in. */
  lemma TextNamesMessage(m1: Message, m2: Message)
    ensures Text(m1) == Text(m2) <==> m1 == m2
  {
    if m1 != m2 {
      assert Headline(m1)[0] != Headline(m2)[0];
    }
  }

  /** Messages ordered from worst to best. */
  function Rank(m: Message): (r: nat)
    ensures r < 4
  {
    match m
    case ToughRound => 0
    case GoodEffort => 1
    case NiceJob => 2
    case Stellar => 3
  }

  /** A higher score never earns a worse message. */
  lemma FeedbackMonotone(s1: int, s2: int)
    requires s1 <= s2
    ensures Rank(FeedbackFor(s1)) <= Rank(FeedbackFor(s2))
  {
  }
}
