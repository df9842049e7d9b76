/** No handler creates or destroys coin, except minting within the cap and burning a bond. */
module Conservation {
  import opened Outcomes
  import opened Integers
  import opened Sums
  import opened Types
  import opened Emission
  import opened Ledger
  import opened Escrows
  import opened Jury

  // ---- What is conserved --------------------------------------------------

  predicate Held(status: EscrowStatus) {
    status in {Locked, Submitted, Disputed, InJury, FailAttested}
  }

  function BalanceOf(a: Account): nat { a.balance }
  function Collateral(b: Bond): nat { if b.status == Active then b.amount else 0 }
  function Holding(e: Escrow): nat { if Held(e.status) then e.amount else 0 }
  function Staked(v: Vouch): nat { v.stake }

  /** All coin there is: balances, active bonds, escrowed amounts and vouch stakes. */
  ghost function Supply(s: State): nat {
    Sum(s.accounts, BalanceOf) + Sum(s.bonds, Collateral) + Sum(s.escrows, Holding) + Sum(s.vouches, Staked)
  }

  function Mined(s: State): nat {
    if s.emission.Some? then s.emission.value.totalMined else 0
  }

  function Cap(s: State): nat {
    if s.emission.Some? then s.emission.value.maxSupply else MAX_SUPPLY
  }

  /** Records sit under their own ids, fresh ids are unused, unregistered accounts are empty, and
      mining has not passed its cap. */
  predicate Keyed(s: State) {
    && (forall id | id in s.bonds :: s.bonds[id].id == id && id < s.bondSeq)
    && (forall id | id in s.escrows :: s.escrows[id].id == id && id < s.escrowSeq)
    && (forall id | id in s.disputes :: s.disputes[id].id == id && id < s.disputeSeq)
    && (forall id | id in s.gates :: s.gates[id].id == id && id < s.gateSeq)
    && (forall id | id in s.vouches :: id < s.vouchSeq)
    && (forall a | a in s.accounts && !s.accounts[a].registered :: s.accounts[a].balance == 0)
    && 0 < Cap(s) && Mined(s) <= Cap(s)
  }

  predicate Known(accounts: map<Addr, Account>, a: Addr) {
    a in accounts && accounts[a].registered
  }

  predicate EscrowKnown(accounts: map<Addr, Account>, e: Escrow) {
    && Known(accounts, e.payer) && Known(accounts, e.payee)
    && (forall i | 0 <= i < |e.attestations| :: Known(accounts, e.attestations[i].verifier))
  }

  predicate DisputeKnown(accounts: map<Addr, Account>, d: Dispute) {
    && Known(accounts, d.opener)
    && (forall i | 0 <= i < |d.votes| :: Known(accounts, d.votes[i].juror))
  }

  /** Everyone a record may pay has a registered account. */
  predicate Parties(s: State) {
    && (forall id | id in s.escrows :: EscrowKnown(s.accounts, s.escrows[id]))
    && (forall id | id in s.disputes :: DisputeKnown(s.accounts, s.disputes[id]))
    && (forall id | id in s.bonds :: Known(s.accounts, s.bonds[id].poster))
    && (forall id | id in s.vouches :: Known(s.accounts, s.vouches[id].from))
  }

  /** The books of the keeper are in order: no sum of coin it can ever form reaches 2^64. */
  ghost predicate Books(s: State) {
    Keyed(s) && Parties(s) && Supply(s) + Cap(s) - Mined(s) < TWO64
  }

  /** From `s` to `t` the supply changed by what was mined and what was burned, and by nothing else. */
  ghost predicate Balanced(s: State, t: State, burned: nat) {
    && Books(t)
    && Cap(t) == Cap(s) && Mined(s) <= Mined(t)
    && Supply(t) + burned == Supply(s) + Mined(t) - Mined(s)
  }

  // ---- Credits are exact --------------------------------------------------

  /** A balance and the collateral of an active bond fit in the supply together. */
  lemma BalanceAndBond(s: State, a: Addr, id: nat)
    requires id in s.bonds
    ensures (if a in s.accounts then s.accounts[a].balance else 0) + Collateral(s.bonds[id]) <= Supply(s)
  {
    if a in s.accounts { SumCovers(s.accounts, a, BalanceOf); }
    SumCovers(s.bonds, id, Collateral);
  }

  lemma BalanceAndEscrow(s: State, a: Addr, id: nat)
    requires id in s.escrows
    ensures (if a in s.accounts then s.accounts[a].balance else 0) + Holding(s.escrows[id]) <= Supply(s)
  {
    if a in s.accounts { SumCovers(s.accounts, a, BalanceOf); }
    SumCovers(s.escrows, id, Holding);
  }

  lemma BalanceAndVouch(s: State, a: Addr, id: nat)
    requires id in s.vouches
    ensures (if a in s.accounts then s.accounts[a].balance else 0) + Staked(s.vouches[id]) <= Supply(s)
  {
    if a in s.accounts { SumCovers(s.accounts, a, BalanceOf); }
    SumCovers(s.vouches, id, Staked);
  }

  /** Registration only grows from `m` to `n`. */
  ghost predicate KnownGrows(m: map<Addr, Account>, n: map<Addr, Account>) {
    forall a | Known(m, a) :: Known(n, a)
  }

  lemma PartiesGrow(s: State, t: State)
    requires Parties(s) && t == s.(accounts := t.accounts) && KnownGrows(s.accounts, t.accounts)
    ensures Parties(t)
  {
  }

  /** Writing a registered account keeps every key and party, and moves the supply by the
      change of that one balance. */
  lemma AccountWrite(s: State, a: Addr, acct: Account)
    requires Keyed(s) && Parties(s) && acct.registered
    ensures var t := s.(accounts := s.accounts[a := acct]);
            && Keyed(t) && Parties(t) && KnownGrows(s.accounts, t.accounts)
            && Supply(t) + (if a in s.accounts then s.accounts[a].balance else 0) == Supply(s) + acct.balance
  {
    SumUpdate(s.accounts, a, acct, BalanceOf);
    var t := s.(accounts := s.accounts[a := acct]);
    PartiesGrow(s, t);
  }

  /** Counters, awards and the emission state carry no coin. */
  lemma SameRecords(s: State, t: State)
    requires Keyed(s) && Parties(s) && 0 < Cap(t) && Mined(t) <= Cap(t)
    requires t == s.(bondSeq := t.bondSeq, escrowSeq := t.escrowSeq, disputeSeq := t.disputeSeq,
                     gateSeq := t.gateSeq, vouchSeq := t.vouchSeq, awards := t.awards,
                     awardSeq := t.awardSeq, emission := t.emission)
    requires t.bondSeq >= s.bondSeq && t.escrowSeq >= s.escrowSeq && t.disputeSeq >= s.disputeSeq
             && t.gateSeq >= s.gateSeq && t.vouchSeq >= s.vouchSeq
    ensures Keyed(t) && Parties(t) && Supply(t) == Supply(s)
  {
  }

  lemma BondWrite(s: State, b: Bond, next: nat)
    requires Keyed(s) && Parties(s) && b.id < next && s.bondSeq <= next && Known(s.accounts, b.poster)
    ensures var t := s.(bonds := s.bonds[b.id := b], bondSeq := next);
            && Keyed(t) && Parties(t)
            && Supply(t) + (if b.id in s.bonds then Collateral(s.bonds[b.id]) else 0) == Supply(s) + Collateral(b)
  {
    SumUpdate(s.bonds, b.id, b, Collateral);
  }

  lemma EscrowWrite(s: State, e: Escrow, next: nat)
    requires Keyed(s) && Parties(s) && e.id < next && s.escrowSeq <= next && EscrowKnown(s.accounts, e)
    ensures var t := s.(escrows := s.escrows[e.id := e], escrowSeq := next);
            && Keyed(t) && Parties(t)
            && Supply(t) + (if e.id in s.escrows then Holding(s.escrows[e.id]) else 0) == Supply(s) + Holding(e)
  {
    SumUpdate(s.escrows, e.id, e, Holding);
  }

  lemma DisputeWrite(s: State, d: Dispute, next: nat)
    requires Keyed(s) && Parties(s) && d.id < next && s.disputeSeq <= next && DisputeKnown(s.accounts, d)
    ensures var t := s.(disputes := s.disputes[d.id := d], disputeSeq := next);
            Keyed(t) && Parties(t) && Supply(t) == Supply(s)
  {
  }

  lemma VouchWrite(s: State, id: nat, v: Vouch, next: nat)
    requires Keyed(s) && Parties(s) && id < next && s.vouchSeq <= next && Known(s.accounts, v.from)
    ensures var t := s.(vouches := s.vouches[id := v], vouchSeq := next);
            && Keyed(t) && Parties(t)
            && Supply(t) + (if id in s.vouches then Staked(s.vouches[id]) else 0) == Supply(s) + Staked(v)
  {
    SumUpdate(s.vouches, id, v, Staked);
  }

  lemma VouchRemoval(s: State, id: nat)
    requires Keyed(s) && Parties(s) && id in s.vouches
    ensures var t := s.(vouches := s.vouches - {id});
            Keyed(t) && Parties(t) && Supply(t) + Staked(s.vouches[id]) == Supply(s)
  {
    SumTakeOut(s.vouches, id, Staked);
  }

  /** A credit whose sum does not wrap adds exactly its amount to the supply. */
  lemma CreditExact(s: State, a: Addr, amount: U64)
    requires Keyed(s) && Parties(s)
    requires a in s.accounts ==> s.accounts[a].balance + amount < TWO64
    ensures var r := CreditAccount(s, a, amount);
            r.Ok? ==> Keyed(r.value) && Parties(r.value) && Supply(r.value) == Supply(s) + amount
                      && r.value == s.(accounts := r.value.accounts) && KnownGrows(s.accounts, r.value.accounts)
  {
    var r := CreditAccount(s, a, amount);
    if r.Ok? { AccountWrite(s, a, r.value.accounts[a]); }
  }

  lemma CreditExistingExact(s: State, a: Addr, amount: U64)
    requires Keyed(s) && Parties(s) && Known(s.accounts, a)
    requires s.accounts[a].balance + amount < TWO64
    ensures var r := CreditExisting(s, a, amount);
            r.Ok? && Keyed(r.value) && Parties(r.value) && Supply(r.value) == Supply(s) + amount
            && r.value == s.(accounts := r.value.accounts) && KnownGrows(s.accounts, r.value.accounts)
  {
    AccountWrite(s, a, CreditExisting(s, a, amount).value.accounts[a]);
  }

  lemma DebitExact(s: State, a: Addr, amount: U64)
    requires Keyed(s) && Parties(s)
    ensures var r := Debit(s, a, amount);
            r.Ok? ==> Keyed(r.value) && Parties(r.value) && Supply(r.value) + amount == Supply(s)
                      && r.value == s.(accounts := r.value.accounts) && KnownGrows(s.accounts, r.value.accounts)
                      && Known(s.accounts, a)
  {
    var r := Debit(s, a, amount);
    if r.Ok? { AccountWrite(s, a, r.value.accounts[a]); }
  }

  // ---- Coin movements -----------------------------------------------------

  lemma LockBondBalanced(s: State, poster: Addr, amount: U64, purpose: string, slasher: Addr, ref: string)
    requires Books(s)
    ensures var r := LockBond(s, poster, amount, purpose, slasher, ref);
            r.Ok? ==> Balanced(s, r.value, 0) && Known(s.accounts, poster)
  {
    DebitExact(s, poster, amount);
    var r := Debit(s, poster, amount);
    if r.Ok? {
      var d := r.value;
      var b := Bond(s.bondSeq, poster, amount, purpose, slasher, Active, ref);
      assert d.bondSeq == s.bondSeq && s.bondSeq !in d.bonds;
      BondWrite(d, b, s.bondSeq + 1);
      var t := d.(bonds := d.bonds[b.id := b], bondSeq := s.bondSeq + 1);
      assert LockBond(s, poster, amount, purpose, slasher, ref) == Ok(t);
      assert Collateral(b) == amount;
      assert Supply(t) == Supply(s);
    }
  }

  lemma SettleBondBalanced(s: State, id: nat, recipient: Addr, status: BondStatus)
    requires Books(s) && IsActive(s, id) && status != Active && Known(s.accounts, recipient)
    ensures var r := SettleBond(s, id, recipient, status);
            r.Ok? && Balanced(s, r.value, 0)
  {
    BalanceAndBond(s, recipient, id);
    CreditExistingExact(s, recipient, s.bonds[id].amount);
    var paid := CreditExisting(s, recipient, s.bonds[id].amount).value;
    BondWrite(paid, s.bonds[id].(status := status), s.bondSeq);
  }

  /** Replacing a record by one that names the same parties and holds as much. */
  lemma PutEscrowBalanced(s: State, e: Escrow)
    requires Books(s) && e.id in s.escrows && Holding(e) == Holding(s.escrows[e.id])
    requires EscrowKnown(s.accounts, e)
    ensures Balanced(s, PutEscrow(s, e), 0)
  {
    EscrowWrite(s, e, s.escrowSeq);
  }

  lemma PutDisputeBalanced(s: State, d: Dispute)
    requires Books(s) && d.id in s.disputes && DisputeKnown(s.accounts, d)
    ensures Balanced(s, PutDispute(s, d), 0)
  {
  }

  /** Paying a held escrow out and closing it. */
  lemma PayOutBalanced(s: State, e: Escrow, to: Addr, closed: Escrow)
    requires Books(s) && e.id in s.escrows && e == s.escrows[e.id] && Held(e.status)
    requires closed.id == e.id && !Held(closed.status) && EscrowKnown(s.accounts, closed)
    ensures var r := CreditAccount(s, to, e.amount);
            r.Ok? ==> Balanced(s, PutEscrow(r.value, closed), 0)
  {
    BalanceAndEscrow(s, to, e.id);
    CreditExact(s, to, e.amount);
    var r := CreditAccount(s, to, e.amount);
    if r.Ok? {
      assert EscrowKnown(r.value.accounts, closed);
      EscrowWrite(r.value, closed, s.escrowSeq);
    }
  }

  lemma MineCounts(s: State, now: UnixTime, amount: U64)
    requires 0 < Cap(s) && Mined(s) <= Cap(s) && amount <= RemainingScheduled(Sync(s.emission, now))
    ensures var t := s.(emission := Some(Mine(Sync(s.emission, now), amount)));
            Mined(t) == Mined(s) + amount <= Cap(t) == Cap(s)
  {
    hide Sync;
  }

  lemma MintBalanced(s: State, now: UnixTime, to: Addr, amount: U64)
    requires Books(s)
    ensures var r := MintReward(s, now, to, amount);
            r.Ok? ==> Balanced(s, r.value, 0) && Mined(r.value) == Mined(s) + amount
  {
    hide Parties, Sync, Mine, RemainingScheduled, RemainingEpoch, CreditAccount, Sum;
    var r := MintReward(s, now, to, amount);
    if r.Ok? {
      var s' := s.(emission := Some(Mine(Sync(s.emission, now), amount)));
      MineCounts(s, now, amount);
      SameRecords(s, s');
      if to in s.accounts { SumCovers(s.accounts, to, BalanceOf); }
      CreditExact(s', to, amount);
    }
  }

  lemma BalancedTrans(s: State, t: State, u: State, b: nat, c: nat)
    requires Balanced(s, t, b) && Balanced(t, u, c)
    ensures Balanced(s, u, b + c)
  {
  }
}
