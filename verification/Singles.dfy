/** What exists once: a vouch for each pair of accounts, and an award for each artifact. */
module Singles {
  import opened Outcomes
  import opened Integers
  import opened Text
  import opened Types
  import opened Ledger
  import opened Escrows
  import opened Jury
  import opened Bonds
  import opened Gates
  import opened Machine
  import opened Conservation
  import opened Conserved
  import opened Rails

  // ---- Vouches ------------------------------------------------------------

  /** Vouches `i` and `j` stand side by side for the same pair. */
  predicate TwinVouches(s: State, i: nat, j: nat) {
    && i != j && i in s.vouches && j in s.vouches
    && s.vouches[i].from == s.vouches[j].from && s.vouches[i].to == s.vouches[j].to
  }

  lemma {:induction false} FindVouchMisses(s: State, from: Addr, to: Addr, i: nat)
    requires FindVouch(s, from, to, i).None?
    ensures forall id | id in s.vouches && i <= id < s.vouchSeq :: s.vouches[id].from != from || s.vouches[id].to != to
    decreases s.vouchSeq - i
  {
    if i < s.vouchSeq { FindVouchMisses(s, from, to, i + 1); }
  }

  lemma CastVouchNoTwin(s: State, c: Addr, to: Addr, weight: U64, stake: U64, i: nat, j: nat)
    requires Keyed(s)
    ensures var r := CastVouch(s, c, to, weight, stake);
            r.Ok? && TwinVouches(r.value, i, j) ==> TwinVouches(s, i, j)
  {
    hide FindVouch, Add64;
    var r, found := CastVouch(s, c, to, weight, stake), FindVouch(s, c, to, 0);
    if r.Ok? {
      if found.Some? {
        FindVouchSound(s, c, to, 0);
        assert r.value.vouches == s.vouches[found.value := Vouch(found.value, c, to, weight, stake)];
      } else {
        FindVouchMisses(s, c, to, 0);
        assert r.value.vouches == s.vouches[s.vouchSeq := Vouch(s.vouchSeq, c, to, weight, stake)];
      }
    }
  }

  lemma UnvouchNoTwin(s: State, c: Addr, to: Addr, i: nat, j: nat)
    ensures var r := Unvouch(s, c, to);
            r.Ok? && TwinVouches(r.value, i, j) ==> TwinVouches(s, i, j)
  {
    hide FindVouch;
  }

  lemma MoneyNoTwin(s: State, m: BondMsg, i: nat, j: nat)
    requires Keyed(s)
    ensures var r := HandleBond(s, m);
            r.Ok? && TwinVouches(r.value, i, j) ==> TwinVouches(s, i, j)
  {
    hide CastVouch, Unvouch, LockBond, SettleBond, SlashBond, Transfer;
    match m
    case MsgCastVouch(c, to, weight, stake) => CastVouchNoTwin(s, c, to, weight, stake, i, j);
    case MsgUnvouch(c, to) => UnvouchNoTwin(s, c, to, i, j);
    case MsgPostBond(c, amount, purpose, slasher, ref) => LockBondLeaves(s, c, amount, purpose, slasher, ref);
    case MsgReleaseBond(c, id) => if id in s.bonds { SettleBondLeaves(s, id, s.bonds[id].poster, Freed); }
    case MsgSlashBond(c, id, beneficiary) => SlashLeaves(s, c, id, beneficiary);
    case MsgTransfer(c, to, amount) => TransferLeaves(s, c, to, amount);
    case MsgRegister(c) =>
  }

  lemma StepNoTwin(env: Env, s: State, now: UnixTime, m: Msg, i: nat, j: nat)
    requires Keyed(s)
    ensures var r := Step(env, s, now, m);
            r.Ok? && TwinVouches(r.value, i, j) ==> TwinVouches(s, i, j)
  {
    hide HandleEscrow, HandleJury, HandleBond, HandleGate, Keyed;
    match m
    case ToEscrows(x) => EscrowsLeave(env, s, now, x);
    case ToJury(x) => JuryLeaves(env, s, now, x);
    case ToBonds(x) => MoneyNoTwin(s, x, i, j);
    case ToGates(x) => GatesKeep(env, s, now, x, Anything, 1);
  }

  /** No run ever adds a second vouch for a pair: two vouches for the same pair were both there, for that
      pair, when the run began. From a state without twins there never are any. */
  lemma {:induction false} OneVouchPerPair(env: Env, s: State, txs: seq<Tx>, i: nat, j: nat)
    requires Books(s) && TwinVouches(Run(env, s, txs), i, j)
    ensures TwinVouches(s, i, j)
    decreases |txs|
  {
    hide Keyed, Parties, Supply, Step, TwinVouches;
    if txs != [] {
      StepBalanced(env, s, txs[0].now, txs[0].msg);
      OneVouchPerPair(env, Apply(env, s, txs[0].now, txs[0].msg), txs[1..], i, j);
      StepNoTwin(env, s, txs[0].now, txs[0].msg, i, j);
    }
  }

  // ---- Awards -------------------------------------------------------------

  /** Awards `i` and `j` were made for the same artifact, up to the case of its hash. */
  predicate TwinAwards(s: State, i: nat, j: nat) {
    && i != j && i in s.awards && j in s.awards
    && EqualFold(s.awards[i].contribution.artifactSha256, s.awards[j].contribution.artifactSha256)
  }

  predicate AwardsNumbered(s: State) {
    forall id | id in s.awards :: id < s.awardSeq
  }

  lemma AwardNoTwin(env: Env, s: State, now: UnixTime, c: Addr, k: Contribution, i: nat, j: nat)
    requires AwardsNumbered(s)
    ensures var r := AwardContribution(env, s, now, c, k);
            r.Ok? ==> AwardsNumbered(r.value) && (TwinAwards(r.value, i, j) ==> TwinAwards(s, i, j))
  {
    hide MintReward, CheckContribution, CheckNewAccountCredit;
    var t := s.(awards := s.awards[s.awardSeq := Award(s.awardSeq, c, k)], awardSeq := s.awardSeq + 1);
    MintKeeps(t, now, k.recipient, k.amount, Anything, 1);
  }

  lemma AwardsStep(env: Env, s: State, now: UnixTime, m: Msg, i: nat, j: nat)
    requires AwardsNumbered(s)
    ensures var r := Step(env, s, now, m);
            r.Ok? ==> AwardsNumbered(r.value) && (TwinAwards(r.value, i, j) ==> TwinAwards(s, i, j))
  {
    hide HandleEscrow, HandleJury, HandleBond, AwardContribution, PostGate, CommitAnswer, RevealAnswer, SettleGate;
    match m
    case ToEscrows(x) => EscrowsLeave(env, s, now, x);
    case ToJury(x) => JuryLeaves(env, s, now, x);
    case ToBonds(x) => BondsLeave(s, x);
    case ToGates(x) =>
      GatesKeep(env, s, now, x, Anything, 1);
      if x.MsgAwardContribution? { AwardNoTwin(env, s, now, x.creator, x.contribution, i, j); }
  }

  /** No run ever awards an artifact twice: two awards whose artifact hashes are equal up to case were
      both there when the run began. */
  lemma {:induction false} OneAwardPerArtifact(env: Env, s: State, txs: seq<Tx>, i: nat, j: nat)
    requires AwardsNumbered(s) && TwinAwards(Run(env, s, txs), i, j)
    ensures TwinAwards(s, i, j)
    decreases |txs|
  {
    hide Step, TwinAwards, AwardsNumbered;
    if txs != [] {
      AwardsStep(env, s, txs[0].now, txs[0].msg, i, j);
      OneAwardPerArtifact(env, Apply(env, s, txs[0].now, txs[0].msg), txs[1..], i, j);
    }
  }
}
