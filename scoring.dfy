/** Scoring of confirmed questions (script.js `revealAndScore`): +2 for a correct
    selection, -2 for a wrong one, applied to locked questions only. */
module Scoring {
  import opened Questions

  const TotalQuestions: nat := 20
  const CorrectPoints: int := 2
  const WrongPoints: int := -2

  /** The score delta of confirming `selected` on `q`. */
  function Points(q: Question, selected: string): (d: int)
    ensures d == CorrectPoints <==> selected == q.correct
    ensures d == WrongPoints <==> selected != q.correct
  {
    if selected == q.correct then CorrectPoints else WrongPoints
  }

  /** The points contributed by question `i`: nothing unless it is locked. */
  function Contribution(qs: seq<Question>, answers: map<int, string>, locked: set<int>, i: nat): int
    requires i < |qs|
  {
    if i in locked && i in answers then Points(qs[i], answers[i]) else 0
  }

  /** The sum of the contributions of questions 0 .. n-1. */
  function Tally(qs: seq<Question>, answers: map<int, string>, locked: set<int>, n: nat): int
    requires n <= |qs|
  {
    if n == 0 then 0
    else Tally(qs, answers, locked, n - 1) + Contribution(qs, answers, locked, n - 1)
  }

  /** The locked questions among 0 .. n-1 answered correctly. */
  ghost function CorrectSet(qs: seq<Question>, answers: map<int, string>, locked: set<int>, n: nat): set<int>
    requires n <= |qs|
  {
    set i | 0 <= i < n && i in locked && i in answers && answers[i] == qs[i].correct
  }

  /** The locked questions among 0 .. n-1 answered wrongly. */
  ghost function WrongSet(qs: seq<Question>, answers: map<int, string>, locked: set<int>, n: nat): set<int>
    requires n <= |qs|
  {
    set i | 0 <= i < n && i in locked && i in answers && answers[i] != qs[i].correct
  }

  /** The score is twice the number of correctly answered locked questions minus twice
      the number of wrongly answered ones. */
  lemma {:induction false} TallyCounts(qs: seq<Question>, answers: map<int, string>, locked: set<int>, n: nat)
    requires n <= |qs|
    ensures Tally(qs, answers, locked, n)
         == 2 * |CorrectSet(qs, answers, locked, n)| - 2 * |WrongSet(qs, answers, locked, n)|
  {
    if n > 0 {
      var m := n - 1;
      TallyCounts(qs, answers, locked, m);
      var c0, w0 := CorrectSet(qs, answers, locked, m), WrongSet(qs, answers, locked, m);
      var c1, w1 := CorrectSet(qs, answers, locked, n), WrongSet(qs, answers, locked, n);
      assert m !in c0 && m !in w0;
      if m in locked && m in answers {
        if answers[m] == qs[m].correct {
          assert c1 == c0 + {m};
          assert w1 == w0;
        } else {
          assert c1 == c0;
          assert w1 == w0 + {m};
        }
      } else {
        assert c1 == c0 && w1 == w0;
      }
    }
  }

  /** With nothing locked the tally is zero. */
  lemma {:induction false} TallyNothingLocked(qs: seq<Question>, answers: map<int, string>, n: nat)
    requires n <= |qs|
    ensures Tally(qs, answers, {}, n) == 0
  {
    if n > 0 {
      TallyNothingLocked(qs, answers, n - 1);
    }
  }

  /** Selections on questions that are not locked never contribute: two answer maps
      that agree on the locked questions give the same tally. */
  lemma {:induction false} TallyIgnoresUnlocked(qs: seq<Question>, a1: map<int, string>, a2: map<int, string>, locked: set<int>, n: nat)
    requires n <= |qs|
    requires forall i :: i in locked ==> (i in a1 <==> i in a2)
    requires forall i :: i in locked && i in a1 && i in a2 ==> a1[i] == a2[i]
    ensures Tally(qs, a1, locked, n) == Tally(qs, a2, locked, n)
  {
    if n > 0 {
      TallyIgnoresUnlocked(qs, a1, a2, locked, n - 1);
    }
  }

  /** Locking one more answered question `j` adds exactly its points, once. */
  lemma {:induction false} TallyLock(qs: seq<Question>, answers: map<int, string>, locked: set<int>, j: int, n: nat)
    requires n <= |qs|
    requires 0 <= j < n && j !in locked && j in answers
    ensures Tally(qs, answers, locked + {j}, n) == Tally(qs, answers, locked, n) + Points(qs[j], answers[j])
  {
    if n - 1 == j {
      TallyOutside(qs, answers, locked, j, j);
    } else {
      TallyLock(qs, answers, locked, j, n - 1);
    }
  }

  /** Locking a question at or past `n` does not change the tally of 0 .. n-1. */
  lemma {:induction false} TallyOutside(qs: seq<Question>, answers: map<int, string>, locked: set<int>, j: int, n: nat)
    requires n <= |qs| && n <= j
    ensures Tally(qs, answers, locked + {j}, n) == Tally(qs, answers, locked, n)
  {
    if n > 0 {
      TallyOutside(qs, answers, locked, j, n - 1);
    }
  }

  /** The tally lies between -2 and +2 per question. */
  lemma {:induction false} TallyBounds(qs: seq<Question>, answers: map<int, string>, locked: set<int>, n: nat)
    requires n <= |qs|
    ensures WrongPoints * n <= Tally(qs, answers, locked, n) <= CorrectPoints * n
  {
    if n > 0 {
      TallyBounds(qs, answers, locked, n - 1);
    }
  }
}
