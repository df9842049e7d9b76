/** Counting a live gate's answers in a map whose entries come in no particular order. */
module Plurality {
  import opened Types
  import opened Gates

  /** At most one text has a strict plurality. */
  lemma PluralityUnique(answers: seq<GateAnswer>, a: string, b: string)
    requires StrictPlurality(answers, a) && StrictPlurality(answers, b)
    ensures a == b
  {
    if a != b {
      CountedMeansRevealed(answers, a, |answers|);
      CountedMeansRevealed(answers, b, |answers|);
    }
  }

  lemma {:induction false} CountedMeansRevealed(answers: seq<GateAnswer>, text: string, n: nat)
    requires n <= |answers| && Count(answers, text, n) > 0
    ensures exists i | 0 <= i < n :: answers[i].revealed && answers[i].answer == text
  {
    if !(answers[n - 1].revealed && answers[n - 1].answer == text) { CountedMeansRevealed(answers, text, n - 1); }
  }

  lemma {:induction false} PluralityFound(answers: seq<GateAnswer>, i: nat, text: string)
    requires i <= |answers| && StrictPlurality(answers, text)
    requires exists j | i <= j < |answers| :: answers[j].answer == text
    ensures PluralityFrom(answers, i) == text
    decreases |answers| - i
  {
    if StrictPlurality(answers, answers[i].answer) {
      PluralityUnique(answers, answers[i].answer, text);
    } else {
      PluralityFound(answers, i + 1, text);
    }
  }

  lemma {:induction false} PluralityNone(answers: seq<GateAnswer>, i: nat)
    requires i <= |answers| && forall text :: !StrictPlurality(answers, text)
    ensures PluralityFrom(answers, i) == ""
    decreases |answers| - i
  {
    if i < |answers| { PluralityNone(answers, i + 1); }
  }

  /** The winner of a live gate is the strict-plurality answer, and empty exactly when there is none
      (given that revealed answers are not empty). */
  lemma LiveWinner(answers: seq<GateAnswer>)
    requires forall i | 0 <= i < |answers| && answers[i].revealed :: answers[i].answer != ""
    ensures var w := Winning(answers, "");
            && (w != "" ==> StrictPlurality(answers, w))
            && (w == "" <==> forall text :: !StrictPlurality(answers, text))
            && forall text :: StrictPlurality(answers, text) ==> w == text
  {
    forall text | StrictPlurality(answers, text)
      ensures Winning(answers, "") == text && text != ""
    {
      CountedMeansRevealed(answers, text, |answers|);
      PluralityFound(answers, 0, text);
    }
    if forall text :: !StrictPlurality(answers, text) {
      PluralityNone(answers, 0);
    }
  }

  // ---- The loop over a map -------------------------------------------------

  /** How often each text was revealed. */
  method CountAnswers(answers: seq<GateAnswer>) returns (counts: map<string, nat>)
    ensures forall t :: t in counts <==> Count(answers, t, |answers|) > 0
    ensures forall t | t in counts :: counts[t] == Count(answers, t, |answers|)
  {
    counts := map[];
    for i := 0 to |answers|
      invariant forall t :: t in counts <==> Count(answers, t, i) > 0
      invariant forall t | t in counts :: counts[t] == Count(answers, t, i)
    {
      var a := answers[i];
      if a.revealed {
        counts := counts[a.answer := (if a.answer in counts then counts[a.answer] else 0) + 1];
      }
    }
  }

  /** `best` leads among `seen`, and `tied` says whether it leads alone. */
  ghost predicate Leads(counts: map<string, nat>, seen: set<string>, best: string, bestCount: nat, tied: bool)
    requires seen <= counts.Keys
  {
    && (seen == {} ==> bestCount == 0 && !tied)
    && (seen != {} ==> best in seen && counts[best] == bestCount)
    && (forall t | t in seen :: counts[t] <= bestCount)
    && (tied <==> exists t | t in seen :: t != best && counts[t] == bestCount)
  }

  lemma LeaderWins(answers: seq<GateAnswer>, counts: map<string, nat>, best: string, bestCount: nat, tied: bool)
    requires forall t :: t in counts <==> Count(answers, t, |answers|) > 0
    requires forall t | t in counts :: counts[t] == Count(answers, t, |answers|)
    requires Leads(counts, counts.Keys, best, bestCount, tied)
    ensures PluralityFrom(answers, 0) == if !tied && bestCount > 0 then best else ""
  {
    if !tied && bestCount > 0 {
      assert best in counts;
      assert StrictPlurality(answers, best);
      CountedMeansRevealed(answers, best, |answers|);
      PluralityFound(answers, 0, best);
    } else {
      forall text
        ensures !StrictPlurality(answers, text)
      {
        if StrictPlurality(answers, text) {
          assert text in counts;
          var rival :| rival in counts && rival != best && counts[rival] == bestCount;
          CountedMeansRevealed(answers, best, |answers|);
          CountedMeansRevealed(answers, rival, |answers|);
        }
      }
      PluralityNone(answers, 0);
    }
  }

  /** Whatever order the map yields its entries in, the loop finds the strict plurality. */
  method CountPlurality(answers: seq<GateAnswer>) returns (winning: string)
    ensures winning == PluralityFrom(answers, 0)
  {
    hide PluralityFrom, StrictPlurality, Count;
    var counts := CountAnswers(answers);
    var best, bestCount, tied := "", 0, false;
    var rest := counts.Keys;
    while rest != {}
      invariant rest <= counts.Keys
      invariant Leads(counts, counts.Keys - rest, best, bestCount, tied)
      decreases |rest|
    {
      var ans :| ans in rest;
      rest := rest - {ans};
      var c := counts[ans];
      if c > bestCount {
        best, bestCount, tied := ans, c, false;
      } else if c == bestCount {
        tied := true;
      }
    }
    assert counts.Keys - rest == counts.Keys;
    LeaderWins(answers, counts, best, bestCount, tied);
    winning := "";
    if !tied && bestCount > 0 { winning := best; }
  }
}
