/** The records the keeper stores, the module's constants, and the keeper's state. */
module Types {
  import opened Outcomes
  import opened Integers
  import opened Emission
  import opened Text

  type Addr = string

  const MAX_VOUCH_WEIGHT: U64 := 100
  const MIN_VOUCH_STAKE: U64 := 100
  const MIN_NEW_ACCOUNT_CREDIT: U64 := 100
  const CHALLENGE_WINDOW_SECONDS: int := 72 * 3600
  const MIN_DISPUTE_BOND: U64 := 100
  const MIN_JUROR_STAKE: U64 := 100
  const MAX_DRIP_PER_ANSWER: U64 := 50
  const MAX_GATE_ANSWERS: U64 := 1000
  const MAX_CONTRIBUTION_AWARD: U64 := 500

  datatype Account = Account(address: Addr, balance: U64, nonce: U64, registered: bool, faucetClaimed: bool)

  datatype Vouch = Vouch(id: nat, from: Addr, to: Addr, weight: U64, stake: U64)

  datatype EscrowStatus =
    | Locked | Submitted | Disputed | InJury | Released | Refunded | FailAttested | Challenged

  datatype Attestation = Attestation(
    verifier: Addr,
    passed: bool,
    bondId: nat,
    deliveryHash: string,
    keyHash: string,
    acceptanceHash: string,
    attestedAt: int)

  datatype Escrow = Escrow(
    id: nat,
    payer: Addr,
    payee: Addr,
    amount: U64,
    ref: string,
    status: EscrowStatus,
    deadline: int,
    noAutoRelease: bool,
    deliveryHash: string,
    verifierAddrs: seq<Addr>,
    verifierQuorum: U64,
    acceptanceHash: string,
    keyHash: string,
    challengeDeadline: int,
    attestations: seq<Attestation>,
    artifactUri: string,
    submittedAt: int,
    releasedAt: int)

  datatype BondStatus = Active | Freed | Slashed

  datatype Bond = Bond(
    id: nat,
    poster: Addr,
    amount: U64,
    purpose: string,
    slasher: Addr,
    status: BondStatus,
    ref: string)

  datatype DisputeStatus = Open | Resolved
  datatype Resolution = Pending | Accept | Reject

  datatype Vote = Vote(juror: Addr, accept: bool, bondId: nat)

  datatype Dispute = Dispute(
    id: nat,
    escrowId: nat,
    opener: Addr,
    reason: string,
    status: DisputeStatus,
    resolution: Resolution,
    votes: seq<Vote>,
    bondId: nat)

  datatype GateStatus = GateOpen | GateSettled

  datatype GateAnswer = GateAnswer(agent: Addr, commit: string, answer: string, revealed: bool, paid: bool)

  datatype Gate = Gate(
    id: nat,
    poster: Addr,
    payloadUri: string,
    payloadHash: string,
    goldCommit: string,
    drip: U64,
    maxAnswers: U64,
    commitDeadline: int,
    revealDeadline: int,
    status: GateStatus,
    answers: seq<GateAnswer>,
    goldAnswer: string,
    consensus: string)

  /** What an anchor certifies when it awards a contribution. */
  datatype Contribution = Contribution(
    recipient: Addr,
    contributor: Addr,
    founderAuthored: bool,
    reviewEvidenceUri: string,
    repoUrl: string,
    prUrl: string,
    commitSha: string,
    artifactUri: string,
    artifactSha256: string,
    evidenceSha256: string,
    scope: string,
    rationaleHash: string,
    amount: U64)

  datatype Award = Award(id: nat, anchor: Addr, contribution: Contribution)

  /** Everything the keeper persists. */
  datatype State = State(
    accounts: map<Addr, Account>,
    vouches: map<nat, Vouch>,
    vouchSeq: nat,
    escrows: map<nat, Escrow>,
    escrowSeq: nat,
    disputes: map<nat, Dispute>,
    disputeSeq: nat,
    bonds: map<nat, Bond>,
    bondSeq: nat,
    gates: map<nat, Gate>,
    gateSeq: nat,
    awards: map<nat, Award>,
    awardSeq: nat,
    emission: Option<EmissionState>)

  type Window = w: int | 0 < w < 0x1000_0000_0000_0000 witness 300

  /** What the handlers read from outside the store: the hash function, the trust roots that
      `resolveAnchors` returns, and the two gate windows. */
  datatype Env = Env(sha256: string -> string, anchors: seq<Addr>, commitWindow: Window, revealWindow: Window)

  // Purposes of the stakes the protocol itself settles.
  function DisputePurpose(id: nat): string { Tagged("dispute:", id) }
  function JurorPurpose(id: nat): string { Tagged("jurorstake:", id) }
  function AttestationPurpose(id: nat): string { Tagged("attestation:", id) }

  /** A purpose names one kind of stake and one record. */
  lemma PurposesDiffer(i: nat, j: nat)
    ensures DisputePurpose(i) != JurorPurpose(j)
    ensures DisputePurpose(i) != AttestationPurpose(j)
    ensures JurorPurpose(i) != AttestationPurpose(j)
    ensures DisputePurpose(i) == DisputePurpose(j) ==> i == j
    ensures JurorPurpose(i) == JurorPurpose(j) ==> i == j
    ensures AttestationPurpose(i) == AttestationPurpose(j) ==> i == j
  {
    assert DisputePurpose(i)[0] == 'd' && JurorPurpose(i)[0] == 'j' && JurorPurpose(j)[0] == 'j' && AttestationPurpose(j)[0] == 'a';
    if DisputePurpose(i) == DisputePurpose(j) { TaggedInjective("dispute:", i, j); }
    if JurorPurpose(i) == JurorPurpose(j) { TaggedInjective("jurorstake:", i, j); }
    if AttestationPurpose(i) == AttestationPurpose(j) { TaggedInjective("attestation:", i, j); }
  }
}
