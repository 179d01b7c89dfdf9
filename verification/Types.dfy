/** Stock failure-compatible types: `Result` for calls that may fail, `Outcome` for bare guards. */
module Wrappers {

  datatype Option<+T> = None | Some(value: T)

  datatype Result<+T, +E> = Ok(value: T) | Err(error: E) {
    predicate IsFailure() {
      Err?
    }

    function PropagateFailure<U>(): Result<U, E>
      requires Err?
    {
      Err(error)
    }

    function Extract(): T
      requires Ok?
    {
      value
    }
  }

  datatype Outcome<+E> = Pass | Fail(error: E) {
    predicate IsFailure() {
      Fail?
    }

    function PropagateFailure<U>(): Result<U, E>
      requires Fail?
    {
      Err(error)
    }
  }

  function Need<E>(condition: bool, error: E): Outcome<E> {
    if condition then Pass else Fail(error)
  }

  function Get<K, V>(m: map<K, V>, k: K): Option<V> {
    if k in m then Some(m[k]) else None
  }
}

/** The records, statuses, errors and events of the MilvanceCore contract. */
module Types {
  import opened Wrappers

  const I128_MAX: int := 0x7fff_ffff_ffff_ffff_ffff_ffff_ffff_ffff
  const U64_MAX: int := 0xffff_ffff_ffff_ffff

  type I128 = x: int | -I128_MAX - 1 <= x <= I128_MAX
  type U64 = x: int | 0 <= x <= U64_MAX

  const MAX_OFFER_VALIDITY_SECONDS: U64 := 7 * 24 * 60 * 60
  const MAX_REQUEST_VALIDITY_SECONDS: U64 := 30 * 24 * 60 * 60
  const MAX_OFFERS_PER_MILESTONE := 10
  const MAX_MILESTONES_PER_ORDER := 20

  datatype Address = Address(key: nat)

  /** A 32-byte digest read as a number; zero is the all-zero digest. */
  type Digest = nat

  datatype Config = Config(admin: Address, usdc: Address)

  datatype OrderStatus = Created | Active | Completed | Cancelled

  datatype Order = Order(
    id: nat, buyer: Address, supplier: Address, attestor: Address, resolver: Address,
    asset: Address, status: OrderStatus, createdAt: U64)

  datatype MilestoneStatus =
    | Unfunded | Funded | FinanceRequested | Financed | Submitted
    | Verified | Disputed | Settled | Refunded

  datatype Milestone = Milestone(
    id: nat, orderId: nat, index: nat, amount: I128, funded: I128,
    deadline: Option<U64>, evidence: Option<Digest>, status: MilestoneStatus, createdAt: U64)

  datatype RequestStatus = RequestOpen | RequestAccepted | RequestCancelled

  datatype FinanceRequest = FinanceRequest(
    milestoneId: nat, supplier: Address, principal: I128,
    status: RequestStatus, expiresAt: U64, createdAt: U64)

  datatype OfferStatus = OfferOpen | OfferCancelled | OfferAccepted | OfferFunded

  datatype Offer = Offer(
    id: nat, milestoneId: nat, funder: Address, principal: I128, repayment: I128,
    expiresAt: U64, status: OfferStatus)

  datatype PositionStatus = PositionActive | PositionRepaid | PositionClosed

  datatype Position = Position(
    milestoneId: nat, offerId: nat, funder: Address, supplier: Address,
    principal: I128, repayment: I128, status: PositionStatus, fundedAt: U64)

  datatype DisputeStatus = DisputeOpen | ResolvedSettle | ResolvedRefund

  datatype Resolution = Settle | Refund

  datatype Dispute = Dispute(
    id: nat, milestoneId: nat, openedBy: Address, resolver: Address,
    status: DisputeStatus, openedAt: U64)

  /** The contract's error codes. `HostTrap` stands for what the host aborts on:
      a missing authorisation, a token transfer that fails, integer overflow. */
  datatype Error =
    | HostTrap
    | Unauthorized
    | OrderNotFound | MilestoneNotFound
    | InvalidOrderStatus | InvalidMilestoneStatus | OrderHasNoMilestones
    | InvalidParties | InvalidAttestor | InvalidResolver | InvalidAmount | InvalidDeadline
    | MilestoneLimitReached | AttestorResolverConflict
    | InvalidAsset | Overfunded | InsufficientEscrow | ArithmeticOverflow
    | FinanceRequestNotFound | FinanceRequestActive | FinanceRequestExpired
    | InvalidFinanceRequestStatus | MilestoneNotFullyFunded | OfferNotFound
    | InvalidOfferStatus | OfferExpired | PrincipalMismatch | InvalidRepayment
    | RepaymentExceedsEscrow | OfferLimitReached | InvalidFunder | NoAcceptedOffer
    | AlreadyFinanced | FinancePositionNotFound | InvalidExpiry | EscrowMutated | OfferStillLive
    | EvidenceNotFound | EvidenceMismatch | InvalidEvidence | DisputeNotFound
    | DisputeAlreadyOpen | InvalidDisputeStatus | NothingToSettle
    | NoPartialFunding | OfferAlreadyAccepted

  datatype Event =
    | OrderCreated(orderId: nat, buyer: Address, supplier: Address, attestor: Address,
                   resolver: Address, asset: Address)
    | OrderAccepted(orderId: nat, supplier: Address)
    | OrderCancelled(orderId: nat, buyer: Address)
    | OrderCompleted(orderId: nat)
    | MilestoneCreated(orderId: nat, milestoneId: nat, index: nat, amount: I128, deadline: Option<U64>)
    | MilestoneFunded(orderId: nat, milestoneId: nat, buyer: Address, amount: I128,
                      fundedAmount: I128, fullyFunded: bool)
    | PartialFundingCancelled(orderId: nat, milestoneId: nat, buyer: Address, amount: I128)
    | FinanceRequestOpened(milestoneId: nat, supplier: Address, principal: I128,
                           protectedAmount: I128, expiresAt: U64)
    | FinanceRequestClosed(milestoneId: nat, supplier: Address, wasExpired: bool)
    | FundingOfferCreated(milestoneId: nat, offerId: nat, funder: Address, principal: I128,
                          repayment: I128, expiresAt: U64)
    | FundingOfferCancelled(milestoneId: nat, offerId: nat, funder: Address)
    | FundingOfferAccepted(milestoneId: nat, offerId: nat, funder: Address, principal: I128,
                           repayment: I128)
    | AdvanceFunded(milestoneId: nat, offerId: nat, funder: Address, supplier: Address,
                    principal: I128, repayment: I128, protectedAmount: I128)
    | AcceptanceReleased(milestoneId: nat, offerId: nat, supplier: Address, funder: Address,
                         reopened: bool)
    | EvidenceSubmitted(milestoneId: nat, supplier: Address, evidence: Digest, replaced: bool)
    | MilestoneVerified(milestoneId: nat, attestor: Address, evidence: Digest)
    | MilestoneSettled(orderId: nat, milestoneId: nat, protectedAmount: I128,
                       funderRepayment: I128, supplierPayout: I128)
    | MilestoneRefunded(orderId: nat, milestoneId: nat, buyer: Address, refundedAmount: I128,
                        outstandingAdvance: I128)
    | DisputeOpened(milestoneId: nat, disputeId: nat, openedBy: Address, resolver: Address)
    | DisputeResolved(milestoneId: nat, disputeId: nat, resolver: Address, settled: bool)

  predicate Terminal(status: MilestoneStatus) {
    status == Settled || status == Refunded
  }
}
