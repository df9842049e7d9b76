/** The keeper as a state machine: one message at a time, in block order. */
module Machine {
  import opened Outcomes
  import opened Integers
  import opened Types
  import opened Escrows
  import opened Jury
  import opened Bonds
  import opened Gates

  datatype Msg =
    | ToEscrows(escrow: EscrowMsg)
    | ToJury(jury: JuryMsg)
    | ToBonds(bond: BondMsg)
    | ToGates(gate: GateMsg)

  /** What a message does to the state at block time `now`, or why it is refused. */
  function Step(env: Env, s: State, now: UnixTime, m: Msg): Result<State> {
    match m
    case ToEscrows(e) => HandleEscrow(env, s, now, e)
    case ToJury(j) => HandleJury(env, s, now, j)
    case ToBonds(b) => HandleBond(s, b)
    case ToGates(g) => HandleGate(env, s, now, g)
  }

  /** A refused message is rolled back. */
  function Apply(env: Env, s: State, now: UnixTime, m: Msg): State {
    var r := Step(env, s, now, m);
    if r.Ok? then r.value else s
  }

  datatype Tx = Tx(now: UnixTime, msg: Msg)

  /** Transactions in block order: times never decrease, starting from `start`. */
  predicate InOrder(start: int, txs: seq<Tx>) {
    && (forall i | 0 <= i < |txs| :: start <= txs[i].now)
    && (forall i, j | 0 <= i < j < |txs| :: txs[i].now <= txs[j].now)
  }

  /** The state after a whole list of transactions. */
  function Run(env: Env, s: State, txs: seq<Tx>): State
    decreases |txs|
  {
    if txs == [] then s
    else Run(env, Apply(env, s, txs[0].now, txs[0].msg), txs[1..])
  }

  /** The block time reached. */
  function Clock(start: int, txs: seq<Tx>): int {
    if txs == [] then start else txs[|txs| - 1].now
  }
}
