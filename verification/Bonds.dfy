/** Handlers for collateral, transfers, registration and vouches. */
module Bonds {
  import opened Outcomes
  import opened Integers
  import opened Types
  import opened Ledger

  function Register(s: State, creator: Addr): Result<State> {
    if creator == "" then Err(InvalidAddress) else
    :- Need(creator !in s.accounts || !s.accounts[creator].registered, InvalidRequest);
    Ok(s.(accounts := s.accounts[creator := FreshAccount(creator)]))
  }

  function Transfer(s: State, creator: Addr, to: Addr, amount: U64): Result<State> {
    if creator == "" then Err(InvalidAddress) else
    :- ValidAddr(to);
    :- Need(amount != 0, InvalidRequest);
    :- Need(creator != to, InvalidRequest);
    var debited :- Debit(s, creator, amount);
    :- CheckNewAccountCredit(s, to, amount);
    CreditAccount(debited, to, amount)
  }

  function PostBond(s: State, creator: Addr, amount: U64, purpose: string, slasher: Addr, ref: string): Result<State> {
    if creator == "" then Err(InvalidAddress) else
    :- ValidAddr(slasher);
    :- Need(amount != 0, InvalidRequest);
    :- Need(creator != slasher, InvalidRequest);
    LockBond(s, creator, amount, purpose, slasher, ref)
  }

  /** An active bond, shown to its designated slasher alone. */
  function BondForSlasher(s: State, creator: Addr, id: nat): Result<Bond> {
    if creator == "" then Err(InvalidAddress) else
    :- Need(id in s.bonds, KeyNotFound);
    :- Need(s.bonds[id].status == Active, InvalidRequest);
    :- Need(creator == s.bonds[id].slasher, Unauthorized);
    Ok(s.bonds[id])
  }

  function ReleaseBond(s: State, creator: Addr, id: nat): Result<State> {
    var bond :- BondForSlasher(s, creator, id);
    SettleBond(s, id, bond.poster, Freed)
  }

  function SlashBond(s: State, creator: Addr, id: nat, beneficiary: Addr): Result<State> {
    var bond :- BondForSlasher(s, creator, id);
    var s :- if beneficiary != "" then CreditAccount(s, beneficiary, bond.amount) else Ok(s);
    Ok(SetBondStatus(s, id, Slashed))
  }

  /** The vouch of `from` for `to` with the least id, at or after `i`. */
  function FindVouch(s: State, from: Addr, to: Addr, i: nat): Option<nat>
    decreases s.vouchSeq - i
  {
    if i >= s.vouchSeq then None
    else if i in s.vouches && s.vouches[i].from == from && s.vouches[i].to == to then Some(i)
    else FindVouch(s, from, to, i + 1)
  }

  function CastVouch(s: State, creator: Addr, to: Addr, weight: U64, stake: U64): Result<State> {
    if creator == "" then Err(InvalidAddress) else
    :- ValidAddr(to);
    :- Need(creator != to, InvalidRequest);
    :- Need(1 <= weight <= MAX_VOUCH_WEIGHT, InvalidRequest);
    :- Need(stake >= MIN_VOUCH_STAKE, InvalidRequest);
    :- Need(creator in s.accounts && s.accounts[creator].registered, InvalidRequest);
    :- Need(to in s.accounts && s.accounts[to].registered, InvalidRequest);
    var found := FindVouch(s, creator, to, 0);
    var from := s.accounts[creator];
    var funds: U64 :=
      if found.Some? && found.value in s.vouches then Add64(from.balance, s.vouches[found.value].stake) else from.balance;
    :- Need(funds >= stake, InsufficientFunds);
    var s := s.(accounts := s.accounts[creator := from.(balance := funds - stake)]);
    Ok(if found.Some? then
         s.(vouches := s.vouches[found.value := Vouch(found.value, creator, to, weight, stake)])
       else
         s.(vouches := s.vouches[s.vouchSeq := Vouch(s.vouchSeq, creator, to, weight, stake)],
            vouchSeq := s.vouchSeq + 1))
  }

  function Unvouch(s: State, creator: Addr, to: Addr): Result<State> {
    if creator == "" then Err(InvalidAddress) else
    :- ValidAddr(to);
    var found := FindVouch(s, creator, to, 0);
    :- Need(found.Some? && found.value in s.vouches, KeyNotFound);
    var s :- CreditExisting(s, creator, s.vouches[found.value].stake);
    Ok(s.(vouches := s.vouches - {found.value}))
  }

  datatype BondMsg =
    | MsgRegister(creator: Addr)
    | MsgTransfer(creator: Addr, to: Addr, amount: U64)
    | MsgCastVouch(creator: Addr, to: Addr, weight: U64, stake: U64)
    | MsgUnvouch(creator: Addr, to: Addr)
    | MsgPostBond(creator: Addr, amount: U64, purpose: string, slasher: Addr, ref: string)
    | MsgReleaseBond(creator: Addr, id: nat)
    | MsgSlashBond(creator: Addr, id: nat, beneficiary: Addr)

  function HandleBond(s: State, m: BondMsg): Result<State> {
    match m
    case MsgRegister(c) => Register(s, c)
    case MsgTransfer(c, to, amount) => Transfer(s, c, to, amount)
    case MsgCastVouch(c, to, weight, stake) => CastVouch(s, c, to, weight, stake)
    case MsgUnvouch(c, to) => Unvouch(s, c, to)
    case MsgPostBond(c, amount, purpose, slasher, ref) => PostBond(s, c, amount, purpose, slasher, ref)
    case MsgReleaseBond(c, id) => ReleaseBond(s, c, id)
    case MsgSlashBond(c, id, beneficiary) => SlashBond(s, c, id, beneficiary)
  }
}
