/** Handlers of the review gates, and the founder award: the two rails that mint. */
module Gates {
  import opened Outcomes
  import opened Integers
  import opened Text
  import opened Types
  import opened Ledger

  function FindGate(s: State, id: nat): Result<Gate> {
    if !(id in s.gates) then Err(KeyNotFound) else
    Ok(s.gates[id])
  }

  function PutGate(s: State, g: Gate): State {
    s.(gates := s.gates[g.id := g])
  }

  function Commitment(env: Env, answer: string, salt: string): string {
    env.sha256(answer + ":" + salt)
  }

  function PostGate(env: Env, s: State, now: UnixTime, creator: Addr, payloadUri: string, payloadHash: string,
                    goldCommit: string, drip: U64, maxAnswers: U64): Result<State>
  {
    if creator == "" then Err(InvalidAddress) else
    :- Need(creator in env.anchors, Unauthorized);
    :- Need(IsHexSha256(payloadHash), InvalidRequest);
    :- Need(IsHexSha256(goldCommit), InvalidRequest);
    :- Need(1 <= drip <= MAX_DRIP_PER_ANSWER, InvalidRequest);
    :- Need(1 <= maxAnswers <= MAX_GATE_ANSWERS, InvalidRequest);
    var g := Gate(s.gateSeq, creator, payloadUri, payloadHash, goldCommit, drip, maxAnswers,
                  now + env.commitWindow, now + env.commitWindow + env.revealWindow, GateOpen, [], "", "");
    Ok(PutGate(s, g).(gateSeq := s.gateSeq + 1))
  }

  /** The agent's place among the answers, from the `i`-th on. */
  function FindAnswer(answers: seq<GateAnswer>, agent: Addr, i: nat): (r: Option<nat>)
    requires i <= |answers|
    ensures r.Some? ==> i <= r.value < |answers| && answers[r.value].agent == agent
    ensures r.None? <==> forall j | i <= j < |answers| :: answers[j].agent != agent
    decreases |answers| - i
  {
    if i == |answers| then None
    else if answers[i].agent == agent then Some(i)
    else FindAnswer(answers, agent, i + 1)
  }

  function CommitAnswer(s: State, now: UnixTime, creator: Addr, gateId: nat, commit: string): Result<State> {
    if creator == "" then Err(InvalidAddress) else
    var g :- FindGate(s, gateId);
    :- Need(g.status == GateOpen, InvalidRequest);
    :- Need(now < g.commitDeadline, InvalidRequest);
    :- Need(creator != g.poster, InvalidRequest);
    :- Need(creator in s.accounts && s.accounts[creator].registered, InvalidRequest);
    :- Need(IsHexSha256(commit), InvalidRequest);
    :- Need(|g.answers| < g.maxAnswers, InvalidRequest);
    :- Need(FindAnswer(g.answers, creator, 0).None?, InvalidRequest);
    Ok(PutGate(s, g.(answers := g.answers + [GateAnswer(creator, commit, "", false, false)])))
  }

  function RevealAnswer(env: Env, s: State, now: UnixTime, creator: Addr, gateId: nat, answer: string, salt: string): Result<State> {
    if creator == "" then Err(InvalidAddress) else
    var g :- FindGate(s, gateId);
    :- Need(g.status == GateOpen, InvalidRequest);
    :- Need(g.commitDeadline <= now < g.revealDeadline, InvalidRequest);
    :- Need(answer != "", InvalidRequest);
    var found := FindAnswer(g.answers, creator, 0);
    :- Need(found.Some?, InvalidRequest);
    var a := g.answers[found.value];
    :- Need(!a.revealed, InvalidRequest);
    :- Need(EqualFold(Commitment(env, answer, salt), a.commit), InvalidRequest);
    Ok(PutGate(s, g.(answers := g.answers[found.value := a.(answer := answer, revealed := true)])))
  }

  /** How many of the first `n` answers are revealed and read `text`. */
  function Count(answers: seq<GateAnswer>, text: string, n: nat): (c: nat)
    requires n <= |answers|
    ensures c <= n
  {
    if n == 0 then 0
    else Count(answers, text, n - 1) + (if answers[n - 1].revealed && answers[n - 1].answer == text then 1 else 0)
  }

  /** `text` was revealed, and more often than any other text. */
  predicate StrictPlurality(answers: seq<GateAnswer>, text: string) {
    && Count(answers, text, |answers|) > 0
    && forall i | 0 <= i < |answers| && answers[i].revealed && answers[i].answer != text ::
         Count(answers, answers[i].answer, |answers|) < Count(answers, text, |answers|)
  }

  /** The strict-plurality answer, looked for from the `i`-th on; empty when there is none. */
  function PluralityFrom(answers: seq<GateAnswer>, i: nat): string
    requires i <= |answers|
    decreases |answers| - i
  {
    if i == |answers| then ""
    else if StrictPlurality(answers, answers[i].answer) then answers[i].answer
    else PluralityFrom(answers, i + 1)
  }

  /** The gold verdict of a decoy, or the pool's strict plurality. */
  function Winning(answers: seq<GateAnswer>, goldAnswer: string): string {
    if goldAnswer != "" then goldAnswer else PluralityFrom(answers, 0)
  }

  predicate Coherent(a: GateAnswer, winning: string) {
    winning != "" && a.revealed && a.answer == winning
  }

  /** Mint the drip to every coherent answer from the `i`-th on. */
  function PayFrom(s: State, now: UnixTime, g: Gate, winning: string, i: nat): Result<State>
    requires i <= |g.answers|
    decreases |g.answers| - i
  {
    if i == |g.answers| then Ok(s)
    else if Coherent(g.answers[i], winning) then
      var s :- MintReward(s, now, g.answers[i].agent, g.drip);
      PayFrom(s, now, g, winning, i + 1)
    else
      PayFrom(s, now, g, winning, i + 1)
  }

  function MarkPaid(answers: seq<GateAnswer>, winning: string): (r: seq<GateAnswer>)
    ensures |r| == |answers|
  {
    seq(|answers|, i requires 0 <= i < |answers| =>
      if Coherent(answers[i], winning) then answers[i].(paid := true) else answers[i])
  }

  function SettleGate(env: Env, s: State, now: UnixTime, creator: Addr, gateId: nat, goldAnswer: string, goldSalt: string): Result<State> {
    if creator == "" then Err(InvalidAddress) else
    var g :- FindGate(s, gateId);
    :- Need(g.status == GateOpen, InvalidRequest);
    :- Need(now >= g.revealDeadline, InvalidRequest);
    :- Need(EqualFold(Commitment(env, goldAnswer, goldSalt), g.goldCommit), InvalidRequest);
    var winning := Winning(g.answers, goldAnswer);
    var s :- PayFrom(s, now, g, winning, 0);
    Ok(PutGate(s, g.(answers := MarkPaid(g.answers, winning), status := GateSettled,
                     goldAnswer := goldAnswer, consensus := winning)))
  }

  predicate Awarded(s: State, artifactSha256: string) {
    exists id | id in s.awards :: EqualFold(s.awards[id].contribution.artifactSha256, artifactSha256)
  }

  /** The faults of an award request that can be seen without the store. */
  function CheckContribution(env: Env, creator: Addr, c: Contribution): Check {
    if creator == "" || c.recipient == "" || c.contributor == "" then Fail(InvalidAddress)
    else if creator !in env.anchors then Fail(Unauthorized)
    else Need(
      && 1 <= c.amount <= MAX_CONTRIBUTION_AWARD
      && c.recipient == c.contributor
      && (c.founderAuthored <==> c.recipient == creator)
      && (c.founderAuthored ==> !Blank(c.reviewEvidenceUri))
      && !Blank(c.repoUrl) && !Blank(c.commitSha) && !Blank(c.artifactUri) && !Blank(c.scope)
      && IsHexSha256(c.artifactSha256) && IsHexSha256(c.evidenceSha256)
      && (c.rationaleHash == "" || IsHexSha256(c.rationaleHash)), InvalidRequest)
  }

  function AwardContribution(env: Env, s: State, now: UnixTime, creator: Addr, c: Contribution): Result<State> {
    var check := CheckContribution(env, creator, c);
    :- check;
    :- Need(!Awarded(s, c.artifactSha256), InvalidRequest);
    :- CheckNewAccountCredit(s, c.recipient, c.amount);
    var s := s.(awards := s.awards[s.awardSeq := Award(s.awardSeq, creator, c)], awardSeq := s.awardSeq + 1);
    MintReward(s, now, c.recipient, c.amount)
  }

  datatype GateMsg =
    | MsgPostGate(creator: Addr, payloadUri: string, payloadHash: string, goldCommit: string, drip: U64, maxAnswers: U64)
    | MsgCommitAnswer(creator: Addr, id: nat, commit: string)
    | MsgRevealAnswer(creator: Addr, id: nat, answer: string, salt: string)
    | MsgSettleGate(creator: Addr, id: nat, goldAnswer: string, goldSalt: string)
    | MsgAwardContribution(creator: Addr, contribution: Contribution)

  function HandleGate(env: Env, s: State, now: UnixTime, m: GateMsg): Result<State> {
    match m
    case MsgPostGate(c, uri, hash, gold, drip, max) => PostGate(env, s, now, c, uri, hash, gold, drip, max)
    case MsgCommitAnswer(c, id, commit) => CommitAnswer(s, now, c, id, commit)
    case MsgRevealAnswer(c, id, answer, salt) => RevealAnswer(env, s, now, c, id, answer, salt)
    case MsgSettleGate(c, id, gold, salt) => SettleGate(env, s, now, c, id, gold, salt)
    case MsgAwardContribution(c, contribution) => AwardContribution(env, s, now, c, contribution)
  }
}
