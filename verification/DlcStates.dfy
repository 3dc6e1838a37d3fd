/** The contract messages and the states a contract passes through. */
module DlcStates {
  import opened Prelude
  import Payout

  datatype OracleInfo = OracleInfo(publicKey: Key, name: string, endpoint: Option<string>)

  datatype Offer = Offer(
    contractId: ContractId, offerer: Key, collateral: nat, payoutCurve: Payout.Curve,
    oracle: OracleInfo, eventDescriptor: string, maturity: nat)

  datatype Accept = Accept(contractId: ContractId, accepter: Key, collateral: nat)

  datatype Sign = Sign(
    contractId: ContractId, offererSignature: seq<byte>, accepterSignature: seq<byte>, refundTimeout: nat)

  datatype Contract = Contract(
    id: ContractId, offer: Offer, accept: Accept,
    offererSignature: seq<byte>, accepterSignature: seq<byte>,
    fundingTxid: Option<seq<byte>>, refundTimeout: nat)

  datatype Outcome = BinaryOutcome(yes: bool) | Numeric(value: int) | Enumerated(index: nat)

  datatype Attestation = Attestation(oracle: Key, outcome: Outcome, secret: seq<byte>, signature: seq<byte>)

  datatype RefundReason = Timeout | MutualClose | OracleFailure

  datatype DlcState =
    | Offered(offer: Offer, createdAt: nat)
    | Accepted(offer: Offer, accept: Accept, acceptedAt: nat)
    | Signed(contract: Contract, signedAt: nat)
    | Confirmed(contract: Contract, confirmedAt: nat, blockHeight: nat)
    | Settled(contract: Contract, attestation: Attestation, settledAt: nat, ourPayout: nat)
    | Refunded(contract: Contract, refundedAt: nat, reason: RefundReason)
    | Failed(contractId: ContractId, why: string, failedAt: nat)
  {
    function Id(): ContractId {
      match this
      case Offered(offer, _) => offer.contractId
      case Accepted(offer, _, _) => offer.contractId
      case Signed(contract, _) => contract.id
      case Confirmed(contract, _, _) => contract.id
      case Settled(contract, _, _, _) => contract.id
      case Refunded(contract, _, _) => contract.id
      case Failed(id, _, _) => id
    }

    function Name(): string {
      match this
      case Offered(_, _) => "Offered"
      case Accepted(_, _, _) => "Accepted"
      case Signed(_, _) => "Signed"
      case Confirmed(_, _, _) => "Confirmed"
      case Settled(_, _, _, _) => "Settled"
      case Refunded(_, _, _) => "Refunded"
      case Failed(_, _, _) => "Failed"
    }

    predicate IsTerminal() { Settled? || Refunded? || Failed? }

    /** Whether funds are locked. */
    predicate IsActive() { Signed? || Confirmed? }
  }
}
