/** What a verdict pays, to the unit, and to whom. */
module Settlement {
  import opened Outcomes
  import opened Integers
  import opened Types
  import opened Ledger
  import opened Jury
  import opened Conservation
  import opened Conserved
  import opened Custody
  import opened CustodyKept

  function BalanceAt(s: State, a: Addr): nat {
    if a in s.accounts then s.accounts[a].balance else 0
  }

  /** Who is paid a stake once the verdict is known. */
  function Payee(k: Stake, accept: bool, winner: Addr): Addr {
    if k.verdict == accept then k.owner else winner
  }

  /** What account `a` is due out of the stakes that are still active. */
  function Due(bonds: map<nat, Bond>, stakes: seq<Stake>, accept: bool, winner: Addr, a: Addr): nat
    decreases |stakes|
  {
    if stakes == [] then 0
    else
      (if Payee(stakes[0], accept, winner) == a && stakes[0].bondId in bonds then Collateral(bonds[stakes[0].bondId]) else 0)
      + Due(bonds, stakes[1..], accept, winner, a)
  }

  /** The stakes are protocol-held, for this purpose, one bond each. */
  predicate StakesBacked(bonds: map<nat, Bond>, stakes: seq<Stake>, purpose: string) {
    && (forall i | 0 <= i < |stakes| :: Backs(bonds, stakes[i].bondId, purpose, stakes[i].owner))
    && (forall i, j | 0 <= i < j < |stakes| :: stakes[i].owner != stakes[j].owner)
  }

  lemma SettleBondPays(s: State, id: nat, to: Addr, status: BondStatus)
    requires Books(s) && IsActive(s, id) && to in s.accounts
    ensures var r := SettleBond(s, id, to, status);
            && r.Ok?
            && (forall a :: BalanceAt(r.value, a) == BalanceAt(s, a) + (if a == to then s.bonds[id].amount else 0))
            && r.value.bonds == s.bonds[id := s.bonds[id].(status := status)]
  {
    BalanceAndBond(s, to, id);
    BooksBound(s);
  }

  /** Settling one bond changes what is due from the others in nothing. */
  lemma {:induction false} DueElsewhere(b: map<nat, Bond>, c: map<nat, Bond>, stakes: seq<Stake>, accept: bool, winner: Addr, a: Addr)
    requires forall i | 0 <= i < |stakes| ::
               stakes[i].bondId in b && stakes[i].bondId in c && c[stakes[i].bondId] == b[stakes[i].bondId]
    ensures Due(c, stakes, accept, winner, a) == Due(b, stakes, accept, winner, a)
    decreases |stakes|
  {
    if stakes != [] { DueElsewhere(b, c, stakes[1..], accept, winner, a); }
  }

  lemma SettleStakePays(s: State, k: Stake, purpose: string, accept: bool, winner: Addr)
    requires Books(s) && Known(s.accounts, winner) && Known(s.accounts, k.owner)
    requires Backs(s.bonds, k.bondId, purpose, k.owner)
    ensures var r := SettleStake(s, k, purpose, accept, winner);
            && r.Ok?
            && (forall a :: BalanceAt(r.value, a) == BalanceAt(s, a)
                             + (if Payee(k, accept, winner) == a then Collateral(s.bonds[k.bondId]) else 0))
            && forall id | id in s.bonds && id != k.bondId :: id in r.value.bonds && r.value.bonds[id] == s.bonds[id]
  {
    if IsActive(s, k.bondId) {
      SettleBondPays(s, k.bondId, Payee(k, accept, winner), if k.verdict == accept then Freed else Slashed);
    }
  }

  /** Settling a list of stakes pays every account exactly what it is due. */
  lemma {:induction false} SettleStakesPay(s: State, stakes: seq<Stake>, purpose: string, accept: bool, winner: Addr)
    requires Books(s) && StakesKnown(s.accounts, stakes, winner) && StakesBacked(s.bonds, stakes, purpose)
    ensures var r := SettleStakes(s, stakes, purpose, accept, winner);
            r.Ok? && forall a :: BalanceAt(r.value, a) == BalanceAt(s, a) + Due(s.bonds, stakes, accept, winner, a)
    decreases |stakes|
  {
    hide Keyed, Parties, Supply, SettleStake;
    if stakes != [] {
      var k, rest := stakes[0], stakes[1..];
      SettleStakeBalanced(s, k, purpose, accept, winner);
      SettleStakePays(s, k, purpose, accept, winner);
      var t := SettleStake(s, k, purpose, accept, winner).value;
      forall i | 0 <= i < |rest|
        ensures rest[i].bondId in s.bonds && rest[i].bondId in t.bonds && t.bonds[rest[i].bondId] == s.bonds[rest[i].bondId]
                && Backs(t.bonds, rest[i].bondId, purpose, rest[i].owner)
      {
        assert rest[i] == stakes[i + 1];
        assert Backs(s.bonds, stakes[i + 1].bondId, purpose, stakes[i + 1].owner) && Backs(s.bonds, k.bondId, purpose, k.owner);
      }
      assert StakesBacked(t.bonds, rest, purpose);
      SettleStakesPay(t, rest, purpose, accept, winner);
      forall a
        ensures BalanceAt(SettleStakes(s, stakes, purpose, accept, winner).value, a)
             == BalanceAt(s, a) + Due(s.bonds, stakes, accept, winner, a)
      {
        DueElsewhere(s.bonds, t.bonds, rest, accept, winner, a);
      }
    }
  }

  /** The stakes of a case and of an escrow are backed as custody says. */
  lemma VotesBacked(bonds: map<nat, Bond>, env: Env, e: Escrow, d: Dispute)
    requires DisputeBacked(bonds, d) && DisputeTerms(env, e, d)
    ensures StakesBacked(bonds, VoteStakes(d.votes), JurorPurpose(d.id))
  {
  }

  lemma AttestationsBacked(bonds: map<nat, Bond>, e: Escrow)
    requires EscrowBacked(bonds, e) && EscrowTerms(e)
    ensures StakesBacked(bonds, AttestationStakes(e.attestations), AttestationPurpose(e.id))
  {
  }

  /** What account `a` receives from the collateral a verdict settles: the opener's bond, and its shares
      of the jurors' and the verifiers' stakes. */
  function CollateralPays(s: State, d: Dispute, e: Escrow, accept: bool, a: Addr): nat {
    (if DisputeBondRecipient(e, d, accept) == a && d.bondId in s.bonds then Collateral(s.bonds[d.bondId]) else 0)
    + Due(s.bonds, VoteStakes(d.votes), accept, Winner(e, accept), a)
    + Due(s.bonds, AttestationStakes(e.attestations), accept, Winner(e, accept), a)
  }

  /** Everything account `a` receives from a verdict: the escrow's money and its share of the collateral. */
  function VerdictPays(s: State, d: Dispute, e: Escrow, accept: bool, a: Addr): nat {
    (if e.status == InJury && Winner(e, accept) == a then e.amount else 0) + CollateralPays(s, d, e, accept, a)
  }

  lemma EscrowRoom(s: State, e: Escrow, to: Addr)
    requires Books(s) && e.id in s.escrows && e == s.escrows[e.id] && Held(e.status)
    ensures BalanceAt(s, to) + e.amount < TWO64
  {
    BalanceAndEscrow(s, to, e.id);
    BooksBound(s);
  }

  lemma CreditPays(s: State, to: Addr, amount: U64)
    requires BalanceAt(s, to) + amount < TWO64
    ensures var r := CreditAccount(s, to, amount);
            r.Ok? ==> r.value == s.(accounts := r.value.accounts)
                      && forall a :: BalanceAt(r.value, a) == BalanceAt(s, a) + (if a == to then amount else 0)
  {
  }

  lemma SettleEscrowPays(s: State, now: UnixTime, e: Escrow, accept: bool)
    requires Books(s) && e.id in s.escrows && e == s.escrows[e.id] && e.status in {InJury, Challenged}
    ensures var r := SettleEscrow(s, now, e, accept);
            && r.Ok? && r.value.bonds == s.bonds && r.value.disputes == s.disputes
            && forall a :: BalanceAt(r.value, a) == BalanceAt(s, a) + (if e.status == InJury && Winner(e, accept) == a then e.amount else 0)
  {
    hide Books, Balanced, CreditAccount;
    SettleEscrowBalanced(s, now, e, accept);
    if e.status == InJury {
      EscrowRoom(s, e, Winner(e, accept));
      CreditPays(s, Winner(e, accept), e.amount);
    }
  }

  lemma SettleDisputeBondPays(s: State, e: Escrow, d: Dispute, accept: bool)
    requires Books(s) && EscrowKnown(s.accounts, e) && DisputeKnown(s.accounts, d)
    requires Backs(s.bonds, d.bondId, DisputePurpose(d.id), d.opener)
    ensures var r := SettleDisputeBond(s, e, d, accept);
            && r.Ok?
            && (forall a :: BalanceAt(r.value, a) == BalanceAt(s, a)
                  + (if DisputeBondRecipient(e, d, accept) == a then Collateral(s.bonds[d.bondId]) else 0))
            && forall id | id in s.bonds && id != d.bondId :: id in r.value.bonds && r.value.bonds[id] == s.bonds[id]
  {
    RecipientKnown(s.accounts, e, d, accept);
    if IsActive(s, d.bondId) {
      SettleBondPays(s, d.bondId, DisputeBondRecipient(e, d, accept), if OpenerUpheld(e, d, accept) then Freed else Slashed);
    }
  }

  /** Stakes of another purpose are still backed after a settlement, and as much is due from them. */
  lemma StillBacked(b: map<nat, Bond>, c: map<nat, Bond>, stakes: seq<Stake>, purpose: string, p: string)
    requires StakesBacked(b, stakes, purpose) && TouchesOnly(b, c, {p}) && p != purpose
    ensures StakesBacked(c, stakes, purpose)
    ensures forall accept, winner, a :: Due(c, stakes, accept, winner, a) == Due(b, stakes, accept, winner, a)
  {
    forall i | 0 <= i < |stakes|
      ensures stakes[i].bondId in b && stakes[i].bondId in c && c[stakes[i].bondId] == b[stakes[i].bondId]
              && Backs(c, stakes[i].bondId, purpose, stakes[i].owner)
    {
      assert Backs(b, stakes[i].bondId, purpose, stakes[i].owner);
    }
    forall accept, winner, a
      ensures Due(c, stakes, accept, winner, a) == Due(b, stakes, accept, winner, a)
    {
      DueElsewhere(b, c, stakes, accept, winner, a);
    }
  }

  /** A verdict pays every account exactly what `VerdictPays` says, and takes from no one. */
  lemma SettleVerdictPays(env: Env, s: State, now: UnixTime, d: Dispute, e: Escrow, accept: bool)
    requires Books(s) && d.id in s.disputes && d == s.disputes[d.id]
    requires e.id in s.escrows && e == s.escrows[e.id] && e.status in {InJury, Challenged}
    requires EscrowTerms(e) && EscrowBacked(s.bonds, e) && DisputeTerms(env, e, d) && DisputeBacked(s.bonds, d)
    ensures var r := SettleVerdict(s, now, d, e, accept);
            r.Ok? && forall a :: BalanceAt(r.value, a) == BalanceAt(s, a) + VerdictPays(s, d, e, accept, a)
  {
    hide Keyed, Parties, Supply, SettleStakes, SettleEscrow, SettleDisputeBond, EscrowTerms, EscrowBacked, DisputeTerms,
         DisputeBacked, TouchesOnly, Due, VoteStakes, AttestationStakes;
    var w, votes, atts := Winner(e, accept), VoteStakes(d.votes), AttestationStakes(e.attestations);
    DisputeOf(s, d.id);
    SettleEscrowBalanced(s, now, e, accept);
    SettleEscrowPays(s, now, e, accept);
    var s1 := SettleEscrow(s, now, e, accept).value;
    VotesBacked(s.bonds, env, e, d);
    AttestationsBacked(s.bonds, e);
    PurposesDiffer(d.id, d.id);
    PurposesDiffer(d.id, e.id);
    BondOf(s.bonds, d);
    SettleDisputeBondBalanced(s1, e, d, accept);
    SettleDisputeBondTouches(s1, e, d, accept);
    SettleDisputeBondPays(s1, e, d, accept);
    var s2 := SettleDisputeBond(s1, e, d, accept).value;
    StillBacked(s1.bonds, s2.bonds, votes, JurorPurpose(d.id), DisputePurpose(d.id));
    StillBacked(s1.bonds, s2.bonds, atts, AttestationPurpose(e.id), DisputePurpose(d.id));
    OwnersKnown(s2.accounts, d, e, w);
    SettleStakesBalanced(s2, votes, JurorPurpose(d.id), accept, w);
    SettleStakesTouches(s2, votes, JurorPurpose(d.id), accept, w);
    SettleStakesPay(s2, votes, JurorPurpose(d.id), accept, w);
    var s3 := SettleStakes(s2, votes, JurorPurpose(d.id), accept, w).value;
    StillBacked(s2.bonds, s3.bonds, atts, AttestationPurpose(e.id), JurorPurpose(d.id));
    OwnersKnown(s3.accounts, d, e, w);
    SettleStakesBalanced(s3, atts, AttestationPurpose(e.id), accept, w);
    SettleStakesPay(s3, atts, AttestationPurpose(e.id), accept, w);
  }

  lemma BondOf(bonds: map<nat, Bond>, d: Dispute)
    requires DisputeBacked(bonds, d)
    ensures Backs(bonds, d.bondId, DisputePurpose(d.id), d.opener)
  {
  }

  lemma OwnersKnown(accounts: map<Addr, Account>, d: Dispute, e: Escrow, w: Addr)
    requires DisputeKnown(accounts, d) && EscrowKnown(accounts, e) && w in {e.payer, e.payee}
    ensures StakesKnown(accounts, VoteStakes(d.votes), w) && StakesKnown(accounts, AttestationStakes(e.attestations), w)
  {
  }
}
