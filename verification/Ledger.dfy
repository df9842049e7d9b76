/** The coin movements the handlers are made of. */
module Ledger {
  import opened Outcomes
  import opened Integers
  import opened Types
  import opened Emission

  function ValidAddr(a: Addr): Check {
    Need(a != "", InvalidAddress)
  }

  /** An account that never was is created only by a credit of some size. */
  function CheckNewAccountCredit(s: State, a: Addr, amount: U64): Check {
    Need(a in s.accounts || amount >= MIN_NEW_ACCOUNT_CREDIT, InvalidRequest)
  }

  function FreshAccount(a: Addr): Account {
    Account(a, 0, 0, true, false)
  }

  /** Credit that creates or registers the recipient where needed. */
  function CreditAccount(s: State, a: Addr, amount: U64): Result<State> {
    var check := CheckNewAccountCredit(s, a, amount);
    :- check;
    var to := if a in s.accounts then s.accounts[a].(registered := true) else FreshAccount(a);
    Ok(s.(accounts := s.accounts[a := to.(balance := Add64(to.balance, amount))]))
  }

  /** Registration without credit. */
  function EnsureRegistered(s: State, a: Addr, guardAmount: U64): Result<State> {
    var check := CheckNewAccountCredit(s, a, guardAmount);
    :- check;
    var to := if a in s.accounts then s.accounts[a].(registered := true) else FreshAccount(a);
    Ok(s.(accounts := s.accounts[a := to]))
  }

  /** Credit to an account that must exist. */
  function CreditExisting(s: State, a: Addr, amount: U64): Result<State> {
    if !(a in s.accounts) then Err(StoreMiss) else
    var to := s.accounts[a];
    Ok(s.(accounts := s.accounts[a := to.(balance := Add64(to.balance, amount))]))
  }

  /** Debit from a registered account that can afford it. */
  function Debit(s: State, a: Addr, amount: U64): Result<State> {
    if !(a in s.accounts && s.accounts[a].registered) then Err(InvalidRequest) else
    var from := s.accounts[a];
    :- Need(from.balance >= amount, InsufficientFunds);
    Ok(s.(accounts := s.accounts[a := from.(balance := from.balance - amount)]))
  }

  /** Debit the poster and store a new active bond, under the id `s.bondSeq`. */
  function LockBond(s: State, poster: Addr, amount: U64, purpose: string, slasher: Addr, ref: string): Result<State> {
    var s :- Debit(s, poster, amount);
    Ok(s.(bonds := s.bonds[s.bondSeq := Bond(s.bondSeq, poster, amount, purpose, slasher, Active, ref)],
          bondSeq := s.bondSeq + 1))
  }

  predicate IsActive(s: State, bondId: nat) {
    bondId in s.bonds && s.bonds[bondId].status == Active
  }

  function SetBondStatus(s: State, bondId: nat, status: BondStatus): State
    requires bondId in s.bonds
  {
    var bond := s.bonds[bondId].(status := status);
    s.(bonds := s.bonds[bond.id := bond])
  }

  /** Pay a bond's collateral to an existing account and close the bond. */
  function SettleBond(s: State, bondId: nat, recipient: Addr, status: BondStatus): Result<State>
    requires bondId in s.bonds
  {
    var paid :- CreditExisting(s, recipient, s.bonds[bondId].amount);
    Ok(SetBondStatus(paid, bondId, status))
  }

  /** Mint `amount` out of the current epoch's reward. */
  function MintReward(s: State, now: UnixTime, recipient: Addr, amount: U64): Result<State> {
    if !(amount != 0) then Err(InvalidRequest) else
    :- CheckNewAccountCredit(s, recipient, amount);
    var e := Sync(s.emission, now);
    :- Need(amount <= RemainingScheduled(e), InvalidRequest);
    :- Need(amount <= RemainingEpoch(e), InvalidRequest);
    CreditAccount(s.(emission := Some(Mine(e, amount))), recipient, amount)
  }
}
