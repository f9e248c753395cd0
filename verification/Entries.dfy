/** The records of the execution journal: intents, their phases, and the investment
    tranches some of them carry. */
module Entries {
  import opened Base

  /** The host's refusals. */
  datatype Fault =
    | PlanInvalid
    | StepMissing
    | RangeInvalid
    | BindingInvalid
    | PlanCollision
    | TrancheDuplicate
    | PredecessorUnresolved
    | AlreadyRecorded
    | AmbiguousEconomics
    | JournalBounds
    | DiskBudget
    | RecordSize
    | Checksum
    | Decoding
    | SequenceCorrupt
    | SequenceOverflow
    | CapacityExceeded
    | SignatureReused
    | ReservationsOverlap
    | Poisoned
    | BatchBounds
    | DuplicateIntent
    | NotPrepared
    | UnknownIntent
    | PhaseRefused
    | AttemptOverflow
    | WriteFailed
    | NotAuthorized
    | RpcInvalid

  datatype Outcome<+T> = Done(value: T) | Refused(fault: Fault)

  datatype Phase = Prepared | Submitted | Unknown | Finalized | Failed | Reconciled

  predicate Terminal(p: Phase) {
    p == Failed || p == Reconciled
  }

  /** The transition table of the journal. */
  predicate Allowed(a: Phase, b: Phase) {
    match a
    case Prepared | Submitted | Unknown => b == Submitted || b == Unknown || b == Finalized || b == Failed
    case Finalized => b == Reconciled
    case Failed | Reconciled => false
  }

  datatype Holding = Holding(instrument: Key, inputAtoms: u64)

  /** An investment plan. `spelled` stands for the checks on its names and digest,
      which depend on nothing but the plan. */
  datatype Plan = Plan(
    id: Key, owner: Key, versionHash: Key, spelled: bool, totalInput: u64, retainedCash: u64,
    maxSlippageBps: nat, allocations: seq<Holding>)

  datatype StockRange = StockRange(start: nat, end: nat)

  datatype Tranche = Tranche(plan: Plan, index: nat, stockRange: Option<StockRange>)

  /** The economic expectation of a basket purchase. */
  datatype Basket = Basket(
    owner: Key, strategyVersion: Key, totalInput: u64, retainedCash: u64, targets: seq<Holding>,
    investment: Option<Tranche>)

  datatype Entry = Entry(
    id: Key, signature: Key, wire: seq<bv8>, messageHash: Key, lastValidHeight: u64, resources: seq<Key>,
    exposure: Option<Key>, swap: Option<Key>, basket: Option<Basket>, phase: Phase, attempts: u32)

  function TrancheOf(e: Entry): Option<Tranche> {
    if e.basket.Some? then e.basket.value.investment else None
  }
}
