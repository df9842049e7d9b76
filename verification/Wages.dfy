/** What settling a gate pays, by the texts that were revealed. */
module Wages {
  import opened Outcomes
  import opened Integers
  import opened Text
  import opened Types
  import opened Gates
  import opened Plurality
  import opened Conservation
  import opened Conserved
  import opened Settlement
  import opened Minting

  /** The places of the revealed answers that read `text`. */
  function Readers(answers: seq<GateAnswer>, text: string): set<nat> {
    set i | 0 <= i < |answers| && answers[i].revealed && answers[i].answer == text
  }

  /** `text` was revealed strictly more often than any other text. */
  ghost predicate Leads(answers: seq<GateAnswer>, text: string) {
    |Readers(answers, text)| > 0 && forall other: string | other != text :: |Readers(answers, other)| < |Readers(answers, text)|
  }

  /** The winning text: the gold answer of a decoy; of a live gate, the text that leads, or else none. */
  ghost predicate Wins(answers: seq<GateAnswer>, gold: string, w: string) {
    if gold != "" then w == gold
    else Leads(answers, w) || (w == "" && forall text :: !Leads(answers, text))
  }

  lemma {:induction false} CountIs(answers: seq<GateAnswer>, text: string, n: nat)
    requires n <= |answers|
    ensures Count(answers, text, n) == |set i | 0 <= i < n && answers[i].revealed && answers[i].answer == text|
  {
    var counted := set i | 0 <= i < n && answers[i].revealed && answers[i].answer == text;
    if n == 0 {
      assert counted == {};
    } else {
      CountIs(answers, text, n - 1);
      var before := set i | 0 <= i < n - 1 && answers[i].revealed && answers[i].answer == text;
      assert counted == if answers[n - 1].revealed && answers[n - 1].answer == text then before + {n - 1} else before;
    }
  }

  lemma CountReaders(answers: seq<GateAnswer>, text: string)
    ensures Count(answers, text, |answers|) == |Readers(answers, text)|
  {
    CountIs(answers, text, |answers|);
    assert Readers(answers, text) == set i | 0 <= i < |answers| && answers[i].revealed && answers[i].answer == text;
  }

  lemma NoReaders(answers: seq<GateAnswer>, text: string)
    requires forall i | 0 <= i < |answers| && answers[i].revealed :: answers[i].answer != text
    ensures |Readers(answers, text)| == 0
  {
    assert Readers(answers, text) == {};
  }

  lemma LeadsIsPlurality(answers: seq<GateAnswer>, text: string)
    ensures Leads(answers, text) <==> StrictPlurality(answers, text)
  {
    hide Readers;
    forall t: string
      ensures Count(answers, t, |answers|) == |Readers(answers, t)|
    {
      CountReaders(answers, t);
    }
    if StrictPlurality(answers, text) {
      forall other: string | other != text
        ensures |Readers(answers, other)| < |Readers(answers, text)|
      {
        if forall i | 0 <= i < |answers| && answers[i].revealed :: answers[i].answer != other { NoReaders(answers, other); }
      }
    }
  }

  /** There is exactly one winning text, and settlement finds it. */
  lemma WinnerFound(answers: seq<GateAnswer>, gold: string, w: string)
    requires forall i | 0 <= i < |answers| && answers[i].revealed :: answers[i].answer != ""
    ensures Wins(answers, gold, w) <==> w == Winning(answers, gold)
  {
    hide Leads, StrictPlurality;
    forall text: string
      ensures Leads(answers, text) <==> StrictPlurality(answers, text)
    {
      LeadsIsPlurality(answers, text);
    }
    if gold == "" { LiveWinner(answers); }
  }

  lemma {:induction false} CoherentReaders(g: Gate, w: string, i: nat)
    requires i <= |g.answers| && w != ""
    ensures CoherentFrom(g, w, i) == |set j | i <= j < |g.answers| && g.answers[j].revealed && g.answers[j].answer == w|
    decreases |g.answers| - i
  {
    var here := set j | i <= j < |g.answers| && g.answers[j].revealed && g.answers[j].answer == w;
    if i == |g.answers| {
      assert here == {};
    } else {
      CoherentReaders(g, w, i + 1);
      var rest := set j | i + 1 <= j < |g.answers| && g.answers[j].revealed && g.answers[j].answer == w;
      assert here == if g.answers[i].revealed && g.answers[i].answer == w then rest + {i} else rest;
    }
  }

  lemma {:induction false} NobodyCoherent(g: Gate, i: nat)
    requires i <= |g.answers|
    ensures CoherentFrom(g, "", i) == 0
    decreases |g.answers| - i
  {
    if i < |g.answers| { NobodyCoherent(g, i + 1); }
  }

  /** Agent `a` revealed the text `w`, which is not empty. */
  predicate Revealed(answers: seq<GateAnswer>, w: string, a: Addr) {
    w != "" && exists i | 0 <= i < |answers| :: answers[i].agent == a && answers[i].revealed && answers[i].answer == w
  }

  /** Settling a gate opens its gold commitment. A gold answer that is not empty is the consensus, whatever
      the agents said; otherwise the text revealed strictly more often than any other is, and none if there
      is no such text. The drip goes once to each agent that revealed the consensus and to nobody else; the
      drip times their number is newly mined; exactly their answers are marked paid. */
  lemma SettlementPays(env: Env, s: State, clock: int, now: UnixTime, c: Addr, id: nat, gold: string, salt: string, w: string)
    requires Books(s) && GatesSound(s, clock)
    requires id in s.gates && Wins(s.gates[id].answers, gold, w)
    ensures var r := SettleGate(env, s, now, c, id, gold, salt); var g := s.gates[id];
            r.Ok? ==>
              && EqualFold(env.sha256(gold + ":" + salt), g.goldCommit)
              && (forall a :: BalanceAt(r.value, a) == BalanceAt(s, a) + (if Revealed(g.answers, w, a) then g.drip else 0))
              && Mined(r.value) == Mined(s) + (if w == "" then 0 else g.drip * |Readers(g.answers, w)|)
              && id in r.value.gates
              && r.value.gates == s.gates[id :=
                   g.(status := GateSettled, goldAnswer := gold, consensus := w, answers := r.value.gates[id].answers)]
              && |r.value.gates[id].answers| == |g.answers|
              && forall i | 0 <= i < |g.answers| ::
                   r.value.gates[id].answers[i]
                   == g.answers[i].(paid := w != "" && g.answers[i].revealed && g.answers[i].answer == w)
  {
    hide Keyed, Parties, Supply, EqualFold, PayFrom, Winning, Wins, Readers;
    var g := s.gates[id];
    assert GateSound(g, clock);
    WinnerFound(g.answers, gold, w);
    SettleGatePays(env, s, clock, now, c, id, gold, salt);
    PayFromTouchesNoGate(s, now, g, w, 0);
    GateOf(s, id);
    if w == "" {
      NobodyCoherent(g, 0);
    } else {
      CoherentReaders(g, w, 0);
      assert Readers(g.answers, w) == set j | 0 <= j < |g.answers| && g.answers[j].revealed && g.answers[j].answer == w by { AreReaders(g.answers, w); }
    }
    forall a
      ensures Revealed(g.answers, w, a) <==> Earned(g, w, 0, a)
    {
    }
  }

  lemma AreReaders(answers: seq<GateAnswer>, w: string)
    ensures Readers(answers, w) == set j | 0 <= j < |answers| && answers[j].revealed && answers[j].answer == w
  {
  }

  lemma GateOf(s: State, id: nat)
    requires Keyed(s) && id in s.gates
    ensures s.gates[id].id == id
  {
  }
}
